# php-sepa-xml: SEPA Direct Debit messages (pain.008.001.02), in Dafny

php-sepa-xml builds the XML of a SEPA Direct Debit initiation, the ISO 20022
message `pain.008.001.02`. A `Sepa_DirectDebit` object collects the creditor's
header fields through checked setters. It also collects
`Sepa_DirectDebit_Transaction` objects, one per debtor. `_generateXml` then
builds the document tree:
- a `Document` root in the pain.008 namespace;
- a group header holding the message identifier, the creation time, the
  number of transactions and the initiating party;
- one payment-information block holding the fixed codes of a one-off CORE
  direct debit, the execution date, the creditor, the creditor's account and
  bank, and the creditor scheme identifier;
- after those, one `DrctDbtTxInf` block per transaction, in the order the
  transactions were added.

The static helpers of `Sepa_Base` format amounts, check currency codes and
sanitise free text by stripping accents from HTML entities and cutting the
text to a maximum length. `calculateRabobankCreditorId` derives a Dutch SEPA
creditor identifier from a KvK (Chamber of Commerce) number.

The project models:
- the two classes as Dafny classes whose setters update fields in place;
- the XML tree as a value datatype `Xml.Element`, plus a mutable `Xml.Node`
  for the elements that `addChild` extends step by step;
- the checks, formatting and sanitising as functions, each with the lemmas
  that say what it accepts and produces.

Modules, one per file:

| file | module | models |
|---|---|---|
| `wrappers.dfy` | `Wrappers` | `Option`, `Result`, and the two exception kinds (`Sepa_Exception`, `Exception`) |
| `decimal.dfy` | `Decimal` | PHP's printing of integers and reading of digit strings |
| `xml.dfy` | `Xml` | SimpleXML elements, `addChild`, and lookup of a child by name |
| `base.dfy` | `Base` | `intToCurrency`, `validateCurrency`, `alphanumeric` |
| `bic.dfy` | `Bic` | the BIC regular expression of `setCreditorBic` |
| `calendar.dfy` | `Calendar` | `explode('-')` and `checkdate` in `setRequestedExecutionDate` |
| `creditor_id.dfy` | `CreditorId` | `calculateRabobankCreditorId`, and the ISO 7064 MOD 97-10 creditor-identifier check |
| `transaction.dfy` | `DirectDebitTransaction` | `Sepa_DirectDebit_Transaction` |
| `direct_debit.dfy` | `DirectDebit` | `Sepa_DirectDebit`, and `asXML` |

## Model

| member | source | states |
|---|---|---|
| Base.IntToCurrency | classes/Base.php:50-52 | the amount in cents is printed as digits without a leading zero, a point and exactly two decimals |
| Base.CurrencyRoundTrip | classes/Base.php:50-52 | the printed amount always reads back as the same number of cents |
| Base.IntToCurrencyExamples | classes/Base.php:50-52 | 12345 prints "123.45", 5 prints "0.05", 100 prints "1.00" |
| Base.ValidateCurrency | classes/Base.php:66-69 | a code is accepted exactly when it has three bytes; it is returned unchanged, otherwise an `Exception` carries the code in its message |
| Base.ValidateCurrencyExamples | classes/Base.php:66-69 | "EUR" is accepted; "EU" and "EURO" are refused |
| Base.Lowered | classes/Base.php:80 | the `i` flag's ASCII case folding, character by character |
| Base.MatchSuffix | classes/Base.php:80 | a match of the ending alternation, followed by ';', is as long as one of the alternatives and is followed by ';' |
| Base.EntityAt | classes/Base.php:80 | a match at the start of the text begins with '&', captures the one or two letters after it, and lies within the text |
| Base.ReplaceEntities | classes/Base.php:80 | the replacement never makes the text longer |
| Base.Alphanumeric | classes/Base.php:78-86 | the result is a prefix of the replaced text, at most `length` bytes long, and is the whole replaced text unless it was cut to exactly `length` |
| Base.PlainPrefixKept | classes/Base.php:80 | text without '&' passes unchanged, and what follows it is replaced on its own |
| Base.PlainTextUnchanged | classes/Base.php:80 | text without '&' is not changed by the replacement |
| Base.PlainTextTruncated | classes/Base.php:78-86 | text without '&' comes back cut to `length` bytes, and is otherwise unchanged |
| Base.EntityReplaced | classes/Base.php:80 | every `&`, one or two letters, an ending and `;` (any case) becomes its letters, and the rest of the text is replaced on its own |
| Base.TwoLetterEntity | classes/Base.php:80 | with two letters before the ending, the match captures both letters and spans the whole entity |
| Base.OneLetterEntity | classes/Base.php:80 | with one letter, the first letter of the ending is not taken as a second letter; the match spans the whole entity |
| Base.SuffixMatched | classes/Base.php:80 | an ending followed by ';' is matched with exactly its own length |
| Base.NoSuffixInsideSuffix | classes/Base.php:80 | no ending, followed by ';', begins what is left of an ending after its first letter |
| Base.OtherEntityKept | classes/Base.php:80 | every entity `&name;` whose name is not one or two letters followed by an ending, such as `&amp;` or `&lt;`, is copied unchanged, and the scan resumes after its `;` |
| Base.NoEndingBefore | classes/Base.php:80 | a word that is not an ending, followed by `;`, matches no alternative of the pattern |
| Decimal.NatToDecimal | classes/DirectDebit.php:110 | an integer is printed with at least one digit and no leading zero; it has one digit exactly when it is below 10 |
| Decimal.Value | classes/DirectDebit.php:162 | a digit string read in base 10, as PHP reads a numeric string in `%` and `checkdate`; `ValueOfNatToDecimal` and `PaddedValue` state how it inverts printing |
| Decimal.ValueOfNatToDecimal | classes/DirectDebit.php:110 | the printed integer reads back as that integer |
| Decimal.TwoDigits | classes/Base.php:51 | a number below 100 is printed as two digits, zero first when needed, and reads back as itself |
| Decimal.PaddedValue | classes/DirectDebit.php:304-305 | a number printed with leading zeros still reads as that number |
| Bic.IsBicMatchesPattern | classes/DirectDebit.php:261 | the position-by-position check accepts exactly the strings the case-insensitive, anchored regular expression matches |
| Bic.IsBic | classes/DirectDebit.php:261 | the BIC shape checked position by position: 8 or 11 letters and digits, the fifth and sixth letters; `IsBicMatchesPattern` proves it equal to the regular expression |
| Bic.BicExamples | classes/DirectDebit.php:261 | 8- and 11-character codes in either case are accepted; wrong lengths and a digit in the country code are refused |
| Calendar.Split | classes/DirectDebit.php:304 | `explode` always returns at least one piece |
| Calendar.JoinSplit | classes/DirectDebit.php:304 | joining the pieces with the separator gives back the original string |
| Calendar.SplitAtSeparator | classes/DirectDebit.php:304 | a piece without separator, followed by a separator, comes out as the first piece |
| Calendar.SplitWithoutSeparator | classes/DirectDebit.php:304 | a string without separator is one piece |
| Calendar.LeapDay | classes/DirectDebit.php:305 | `checkdate` accepts 29 February exactly in leap years; it refuses 30 February and months 0 and 13 |
| Calendar.IsLeapYear | classes/DirectDebit.php:305 | the Gregorian leap rule `checkdate` applies: divisible by 4, and not by 100 unless by 400 |
| Calendar.DaysInMonth | classes/DirectDebit.php:305 | a month has 28 to 31 days; February has 29 exactly in leap years; another month has 30 exactly when it is April, June, September or November |
| Calendar.CheckDate | classes/DirectDebit.php:305 | `checkdate(month, day, year)`: a month from 1 to 12, a day within that month and a year from 1 to 32767 |
| Calendar.ParseDate | classes/DirectDebit.php:304-305 | a date is found only when the string has at least three pieces around `-` and `checkdate` accepts them; its year is the first piece read as a number |
| Calendar.FormattedDate | classes/DirectDebit.php:303-308 | a `yyyy-mm-dd` string, alone or followed by more '-'-separated text, is accepted exactly when it names a day of the calendar, and is read as that day |
| Calendar.DateExamples | classes/DirectDebit.php:303-308 | 2020-02-29 and 2000-02-29 are accepted; 2021-02-29, 1900-02-29 and 2021-13-01 are refused |
| Calendar.TooFewPieces | classes/DirectDebit.php:304-305 | a string with fewer than three '-'-separated pieces is refused |
| CreditorId.CheckValue | classes/DirectDebit.php:162 | `98 - n % 97` lies between 2 and 98, and adding it to n leaves 1 modulo 97 |
| CreditorId.CheckNumber | classes/DirectDebit.php:162 | the KvK number, the location and 232100 written one after the other and read as one integer; `CheckNumberValue` gives its closed form |
| CreditorId.CheckNumberValue | classes/DirectDebit.php:162 | the concatenation `$kvk . $location . '232100'`, read as a number, is `(kvk * 10^len(location) + location) * 10^6 + 232100` |
| CreditorId.RabobankCreditorId | classes/DirectDebit.php:161-163 | the output is "NL", then the unpadded check value (one digit exactly when it is below 10), then "ZZZ", the KvK number and "0000"; the check value balances the number computed over the given location |
| CreditorId.LocationOnlyAffectsCheckDigits | classes/DirectDebit.php:162 | two locations for one KvK number give outputs that differ at most in the check value |
| CreditorId.AsWrittenValidity | classes/DirectDebit.php:161-163 | the output passes the MOD 97-10 check exactly when the check value has two digits and also balances the number computed with location "0000" |
| CreditorId.UnpaddedCheckValue | classes/DirectDebit.php:162 | for KvK 30000000 and location 0000 the check value is 5, and the output fails the check |
| CreditorId.DroppedLocation | classes/DirectDebit.php:162 | for KvK 12345678 and location 0001 the check value is 42 where the printed identifier needs 69, and the output fails the check |
| CreditorId.DutchIdValid | classes/DirectDebit.php:161-163 | an identifier `NL`, check digits, `ZZZ`, national identifier passes the check exactly when the check digits balance the national identifier followed by "232100" |
| CreditorId.CreditorIdentifier | classes/DirectDebit.php:161-163 | the corrected identifier is "NL", two check digits worth the check value, "ZZZ", the KvK number and the location |
| CreditorId.CreditorIdentifierIsValid | classes/DirectDebit.php:161-163 | every corrected identifier passes the ISO 7064 MOD 97-10 check |
| CreditorId.AsWrittenAgreesWhenLocationIsZero | classes/DirectDebit.php:161-163 | with location "0000" and a two-digit check value, the source's output is the corrected identifier |
| Xml.Child | classes/DirectDebit.php:121-122 | a child found by name (SimpleXML's `$e->Name`) is one of the element's children and carries that name |
| Xml.FirstNamed | classes/DirectDebit.php:121-122 | the first element of a list with a given name; a found element is in the list and carries the name |
| Xml.At | classes/DirectDebit.php:130 | a chain of lookups by name such as `$e->CdtrSchmeId->Id`, taking the first match at each step |
| Xml.PathOfTwo | classes/DirectDebit.php:126-127 | a two-step lookup through first children finds the grandchild that `addChild(...)->addChild(...)` created |
| Xml.FirstNamedMissing | classes/DirectDebit.php:121-122 | a lookup by name finds nothing exactly when no child has that name |
| Xml.FirstNamedDistinct | classes/DirectDebit/Transaction.php:238-242 | among children with distinct names, a lookup by a child's name finds that child |
| Xml.CountNamedConcat | classes/DirectDebit.php:135-136 | counting the children of one name over two lists adds the two counts |
| Xml.Node.constructor | classes/DirectDebit.php:102 | a new element has its name, no attribute, no child and no text |
| Xml.Node.AddChild | classes/DirectDebit/Transaction.php:235 | `addChild` appends the child as the last child and changes nothing else |
| DirectDebitTransaction.TxInfElement | classes/DirectDebit/Transaction.php:233-251 | a transaction's subtree is a `DrctDbtTxInf` element with no attribute and no text, whose children are PmtId, InstdAmt, DrctDbtTx, DbtrAgt, Dbtr, DbtrAcct and RmtInf in that order |
| DirectDebitTransaction.TxInfParts | classes/DirectDebit/Transaction.php:236-247 | each part holds the getter's value as stored, without a further check: EndToEndId, the amount with `Ccy="EUR"`, the mandate id and signature date, the BIC, the debtor name, the IBAN and the description |
| DirectDebitTransaction.TxInfLookup | classes/DirectDebit/Transaction.php:238-242 | each of the seven parts of the subtree is the one a lookup by its name finds |
| DirectDebitTransaction.Transaction.Snapshot | classes/DirectDebit/Transaction.php:72-213 | the eight getters' values of a transaction, together, as `appendToXml` reads them |
| DirectDebitTransaction.Transaction.constructor | classes/DirectDebit/Transaction.php:63-65 | `factory()` gives a transaction with every field empty |
| DirectDebitTransaction.Transaction.SetEndToEndId | classes/DirectDebit/Transaction.php:82-85 | the value is stored as given and the transaction is returned for chaining |
| DirectDebitTransaction.Transaction.SetAmount | classes/DirectDebit/Transaction.php:102-105 | the amount is stored formatted with two decimals |
| DirectDebitTransaction.Transaction.SetTransactionIdentifier | classes/DirectDebit/Transaction.php:122-125 | the mandate identifier is stored as given |
| DirectDebitTransaction.Transaction.SetSignatureDate | classes/DirectDebit/Transaction.php:142-145 | the signature date is stored as given |
| DirectDebitTransaction.Transaction.SetDebtorName | classes/DirectDebit/Transaction.php:162-165 | the sanitised name, at most 70 bytes, is stored |
| DirectDebitTransaction.Transaction.SetDebtorIban | classes/DirectDebit/Transaction.php:182-185 | the IBAN is stored as given |
| DirectDebitTransaction.Transaction.SetDebtorBic | classes/DirectDebit/Transaction.php:202-205 | the BIC is stored as given |
| DirectDebitTransaction.Transaction.SetTransactionDescription | classes/DirectDebit/Transaction.php:222-225 | the sanitised description, at most 140 bytes, is stored |
| DirectDebitTransaction.Transaction.AppendToXml | classes/DirectDebit/Transaction.php:233-251 | the parent gains exactly one new last child, the subtree of the transaction's fields; its other children are unchanged and the parent is returned |
| DirectDebitTransaction.Transaction.AsXml | classes/DirectDebit/Transaction.php:258-261 | the result is a `Transaction` root whose only child is the transaction's subtree |
| DirectDebit.GroupHeader | classes/DirectDebit.php:107-111 | the group header holds `MsgId`, `CreDtTm`, `NbOfTxs` and `InitgPty`, in that order |
| DirectDebit.PmtInfHeader | classes/DirectDebit.php:116-130 | the payment information starts with `PmtInfId`, `PmtMtd`, `PmtTpInf`, `ReqdColltnDt`, `Cdtr`, `CdtrAcct`, `CdtrAgt` and `CdtrSchmeId`, in that order |
| DirectDebit.TxInfs | classes/DirectDebit.php:135-136 | each transaction contributes one block |
| DirectDebit.PaymentInformation | classes/DirectDebit.php:116-136 | the payment information is a `PmtInf` element with eight header parts plus one child per transaction |
| DirectDebit.DocumentTree | classes/DirectDebit.php:91-137 | the document is a `Document` root in the pain.008.001.02 namespace, with one `CstmrDrctDbtInitn` child holding `GrpHdr` and `PmtInf` |
| DirectDebit.DocumentBlocks | classes/DirectDebit.php:101-116 | a lookup by name in the document finds the group header and the payment information |
| DirectDebit.CountTxInfs | classes/DirectDebit.php:135-136 | the transactions' blocks hold exactly one `DrctDbtTxInf` per transaction |
| DirectDebit.PmtInfHeaderNamesDistinct | classes/DirectDebit.php:117-130 | the eight header parts have distinct names, none of them `DrctDbtTxInf` |
| DirectDebit.NumberOfTransactions | classes/DirectDebit.php:96-136 | `NbOfTxs` reads as the number of transactions, which is also the number of `DrctDbtTxInf` blocks in the payment information |
| DirectDebit.CreditorName | classes/DirectDebit.php:111-125 | the initiating party and the creditor carry the same sanitised name, of at most 70 bytes |
| DirectDebit.PaymentInformationHeader | classes/DirectDebit.php:116-130 | the payment information starts with its eight header parts, and a lookup by each part's name finds that part |
| DirectDebit.PaymentInformationCodes | classes/DirectDebit.php:118-122 | the payment method is DD; the service level is SEPA, the local instrument CORE and the sequence type OOFF |
| DirectDebit.HeaderLeaves | classes/DirectDebit.php:107-127 | each header value sits under its own tag: MsgId holds the message identifier, CreDtTm the creation time, PmtInfId the payment information identifier, ReqdColltnDt the execution date, CdtrAcct/Id/IBAN the creditor IBAN and CdtrAgt/FinInstnId/BIC the creditor BIC |
| DirectDebit.CreditorSchemeIdentifier | classes/DirectDebit.php:129-130 | the creditor identifier, as set, sits under `CdtrSchmeId/Id/PrvtId/Othr/Id`, next to the scheme name SEPA |
| DirectDebit.TransactionsInOrder | classes/DirectDebit.php:135-136 | the (8+i)-th child of the payment information is the block of the i-th transaction |
| DirectDebit.TxInfsAt | classes/DirectDebit.php:135-136 | the i-th block is that of the i-th transaction |
| DirectDebit.OneMoreTransaction | classes/DirectDebit.php:135-150 | one more transaction gives the same payment information plus that transaction's block as the last child |
| DirectDebit.LengthCheckExamples | classes/DirectDebit.php:240-283 | an IBAN may have 34 bytes (not the 32 its message says) and an identifier 35; "0" is refused like the empty string |
| DirectDebit.IsTruthy | classes/DirectDebit.php:240 | PHP's truth value of a string: false exactly for "" and "0" |
| DirectDebit.IbanAccepted | classes/DirectDebit.php:240 | the IBAN check the setter negates: truthy and at most 34 bytes |
| DirectDebit.PaymentInfoIdAccepted | classes/DirectDebit.php:283 | the identifier check the setter negates: truthy and at most 35 bytes |
| DirectDebit.Snapshots | classes/DirectDebit.php:135-136 | the transactions' fields, one entry per transaction, in order |
| DirectDebit.GroupHeaderXml | classes/DirectDebit.php:107-111 | the group header built node by node is the group header |
| DirectDebit.PaymentInformationXml | classes/DirectDebit.php:116-130 | the new `PmtInf` node holds the eight header parts and no transaction |
| DirectDebit.AppendTransactions | classes/DirectDebit.php:135-136 | the loop appends the transactions' blocks, in list order, after the existing children |
| DirectDebit.SepaDirectDebit.Fields | classes/DirectDebit.php:229-293 | the getters return the stored IBAN, BIC, payment information identifier and execution date |
| DirectDebit.SepaDirectDebit.Document | classes/DirectDebit.php:91-137 | the document the current fields and transactions describe, for a given creation time |
| DirectDebit.SepaDirectDebit.constructor | classes/DirectDebit.php:84-86 | a new message has every field empty, no transaction and no document |
| DirectDebit.SepaDirectDebit.SetMessageIdentification | classes/DirectDebit.php:180-182 | the message identifier is stored as given |
| DirectDebit.SepaDirectDebit.SetCreditorId | classes/DirectDebit.php:199-202 | the creditor identifier is stored as given and the message is returned |
| DirectDebit.SepaDirectDebit.SetInitiatingPartyName | classes/DirectDebit.php:219-222 | the name is stored as given and the message is returned |
| DirectDebit.SepaDirectDebit.SetCreditorIban | classes/DirectDebit.php:239-243 | the IBAN is stored exactly when it is truthy and at most 34 bytes long; otherwise a `Sepa_Exception` is thrown and the field keeps its value |
| DirectDebit.SepaDirectDebit.SetCreditorBic | classes/DirectDebit.php:260-264 | the BIC is stored exactly when the regular expression matches it; otherwise a `Sepa_Exception` is thrown and the field keeps its value |
| DirectDebit.SepaDirectDebit.SetPaymentInfoId | classes/DirectDebit.php:282-286 | the identifier is stored exactly when it is truthy and at most 35 bytes long; otherwise a `Sepa_Exception` is thrown and the field keeps its value |
| DirectDebit.SepaDirectDebit.SetRequestedExecutionDate | classes/DirectDebit.php:303-308 | the date is stored, as given, exactly when its first three '-'-separated pieces name a day of the calendar; otherwise a `Sepa_Exception` is thrown and the field keeps its value |
| DirectDebit.SepaDirectDebit.AddTransaction | classes/DirectDebit.php:145-150 | the transaction goes after those added before, and the message is returned |
| DirectDebit.SepaDirectDebit.DocumentXml | classes/DirectDebit.php:91-137 | the tree built node by node is the document of the fields and transactions at the call |
| DirectDebit.SepaDirectDebit.GenerateXml | classes/DirectDebit.php:91-137 | `_xml` holds the document of the fields and transactions at the call |
| DirectDebit.SepaDirectDebit.AsXml | classes/Base.php:22-25 | the document is generated afresh from the current state, stored, and returned |

## Left out

- `outputXML`, `downloadXML` and `__toString` (classes/Base.php:30-45, 91-93): HTTP headers, `echo` and `exit` are I/O. The document they print is the one `AsXml` returns.
- Serialising the tree to text: the XML declaration, escaping of `&`, `<` and `>` by SimpleXML, and indentation. The model stops at the element tree.
- Entity references in `addChild` values: SimpleXML reads an entity reference in the value it is given while it builds the tree, so an `&amp;` left by `htmlentities` becomes `&`, and a bare `&` in an unsanitised field such as the end-to-end id raises an unterminated-entity warning and loses text. The model's leaf text is the value passed to `addChild`, as given.
- `htmlentities` inside `alphanumeric`: it depends on PHP's UTF-8 entity table. `Base.Alphanumeric` takes text already in entity-encoded form, so it models the replacement and the truncation only. In the same way, the arguments of `SetDebtorName` and `SetTransactionDescription` stand for their `htmlentities` form. `SetInitiatingPartyName` stores its argument as given; the name is sanitised only where `GroupHeader` and `Creditor` write it.
- `floatToCurrency` and float amounts: floating point. `DirectDebitTransaction.Transaction.SetAmount` takes whole cents and formats them with `intToCurrency`'s rule. Negative amounts are not modelled.
- The clock in `_generateXml` (`new DateTime()`): the creation time is a string parameter.
- The `instanceof` check of `addTransaction`: the parameter is typed as a transaction, so the `Invalid transaction` exception cannot occur.
- PHP integer overflow and lenient numeric strings: integers are unbounded. A date piece counts as a number only when it is non-empty and all digits. A KvK number is a natural number and a location a digit string.
- Bytes and characters: `strlen` and `substr` count bytes, and the model counts the elements of a Dafny string. One Dafny char stands for one byte: text in multibyte UTF-8 is modelled as its sequence of bytes, so a 2-byte "é" has length 2, and a cut to `length` may split a character as `substr` does. The lengths in `ValidateCurrency`, `Alphanumeric`, `PlainTextTruncated`, `SetDebtorName`, `SetTransactionDescription`, `SetCreditorIban` and `SetPaymentInfoId` are byte counts under this reading.
- `null` versus the empty string: unset fields are modelled as "". `_transactions` is never initialised in the source (classes/DirectDebit.php:79), so generating a message with no transaction calls `count(null)` (a `TypeError` in PHP 8) and runs `foreach` over null (a warning). The model starts from an empty list, and such a message has `NbOfTxs` "0" and no `DrctDbtTxInf`.
- Getters: modelled by reading the fields (`Fields`, `Snapshot`), not as separate methods.
- Build order: the source attaches each node to its parent first and fills it afterwards. The model fills the `PmtInf` node first and builds the `Document` root and `CstmrDrctDbtInitn` by value. The resulting tree is the same.
- Lookups by name of just-added children (`$PaymentInformation->PmtTpInf`, `$Xml->DrctDbtTx->MndtRltdInf`): the parts are built whole. `DirectDebitTransaction.TxInfLookup` and `DirectDebit.PaymentInformationHeader` show that those lookups find the parts.
- DirectDebit.SepaDirectDebit.SetCreditorIban: the exception message says at most 32 bytes, but the code accepts 34. The model follows the code; `SetPaymentInfoId` is the same, with 35.
- DirectDebit.SepaDirectDebit.SetMessageIdentification: it returns nothing, unlike the other setters, as the code does.
- DirectDebit.SepaDirectDebit.GenerateXml: stated against the fields and transactions at the call. The call itself changes only `_xml`.

## Findings

| source | as written | input that shows it | evidently intended | confidence | as-written member | corrected member |
|---|---|---|---|---|---|---|
| classes/DirectDebit.php:161-163 | the check value `98 - N % 97` is concatenated unpadded, so a value below 10 yields one digit and the creditor business code moves into the check-digit position | KvK 30000000, location "0000": check value 5, output `NL5ZZZ300000000000`, which fails the MOD 97-10 check | two check digits, zero-padded (`05`) | not executed | CreditorId.UnpaddedCheckValue | CreditorId.CreditorIdentifierIsValid |
| classes/DirectDebit.php:161-163 | the check value is computed over `$kvk . $location`, but the identifier carries `$kvk . '0000'` | KvK 12345678, location "0001": check value 42, but the printed identifier `NL42ZZZ123456780000` needs 69 | the national identifier carries the location that the check value was computed over | not executed | CreditorId.DroppedLocation | CreditorId.CreditorIdentifierIsValid |
