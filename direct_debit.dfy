/** `Sepa_DirectDebit` (classes/DirectDebit.php): the message aggregate. Its
    setters check and store the header fields, `addTransaction` collects
    transactions in order, and `_generateXml` builds the pain.008.001.02
    document tree from them. */
module DirectDebit {

  import opened Wrappers
  import opened Decimal
  import opened Xml
  import opened Base
  import opened Bic
  import opened Calendar
  import opened DirectDebitTransaction

  // ---------------------------------------------------------------------
  // the document tree
  // ---------------------------------------------------------------------

  /** The header fields of the message, as the getters return them. */
  datatype Header = Header(
    messageIdentification: string,
    creditorId: string,
    initiatingPartyName: string,
    creditorIban: string,
    creditorBic: string,
    paymentInfoId: string,
    requestedExecutionDate: string)

  /** The namespace declarations of the `Document` root. */
  const DocumentAttrs: seq<Attr> := [
    Attr("xmlns", "urn:iso:std:iso:20022:tech:xsd:pain.008.001.02"),
    Attr("xmlns:xsi", "http://www.w3.org/2001/XMLSchema-instance")
  ]

  /** The names of the parts of `PmtInf` that precede the transactions. */
  const PmtInfHeaderNames: seq<string> :=
    ["PmtInfId", "PmtMtd", "PmtTpInf", "ReqdColltnDt", "Cdtr", "CdtrAcct", "CdtrAgt", "CdtrSchmeId"]

  /** The group header (pain.008 items 1.0 to 1.8) of a message with `count`
      transactions created at `created`. */
  function GroupHeader(h: Header, count: nat, created: string): (e: Element)
    ensures e.name == "GrpHdr"
    ensures Names(e.children) == ["MsgId", "CreDtTm", "NbOfTxs", "InitgPty"]
  {
    Branch("GrpHdr", [
      Leaf("MsgId", h.messageIdentification),
      Leaf("CreDtTm", created),
      Leaf("NbOfTxs", NatToDecimal(count)),
      Branch("InitgPty", [Leaf("Nm", Alphanumeric(h.initiatingPartyName, 70))])
    ])
  }

  /** The parts of the payment information (items 2.1 to 2.27) that come
      before the transactions. */
  function PmtInfHeader(h: Header): (es: seq<Element>)
    ensures Names(es) == PmtInfHeaderNames
  {
    [
      Leaf("PmtInfId", h.paymentInfoId),
      PaymentMethod(),
      PaymentTypeInformation(),
      Leaf("ReqdColltnDt", h.requestedExecutionDate),
      Creditor(h.initiatingPartyName),
      CreditorAccount(h.creditorIban),
      CreditorAgent(h.creditorBic),
      CreditorSchemeId(h.creditorId)
    ]
  }

  /** Item 2.2: the payment method, always direct debit. */
  function PaymentMethod(): Element {
    Leaf("PmtMtd", "DD")
  }

  /** Items 2.9 to 2.14: the SEPA service level, the CORE scheme and a
      one-off sequence. */
  function PaymentTypeInformation(): Element {
    Branch("PmtTpInf", [
      Branch("SvcLvl", [Leaf("Cd", "SEPA")]),
      Branch("LclInstrm", [Leaf("Cd", "CORE")]),
      Leaf("SeqTp", "OOFF")
    ])
  }

  /** Item 2.19: the creditor, named by the sanitised initiating party name. */
  function Creditor(name: string): Element {
    Branch("Cdtr", [Leaf("Nm", Alphanumeric(name, 70))])
  }

  /** Item 2.20: the creditor's account, by IBAN. */
  function CreditorAccount(iban: string): Element {
    Branch("CdtrAcct", [Branch("Id", [Leaf("IBAN", iban)])])
  }

  /** Item 2.21: the creditor's bank, by BIC. */
  function CreditorAgent(bic: string): Element {
    Branch("CdtrAgt", [Branch("FinInstnId", [Leaf("BIC", bic)])])
  }

  /** Item 2.27: the creditor scheme identifier, a private identification
      with the proprietary scheme name "SEPA". */
  function CreditorSchemeId(id: string): Element {
    Branch("CdtrSchmeId", [Branch("Id", [Branch("PrvtId", [Branch("Othr", [
      Leaf("Id", id),
      Branch("SchmeNm", [Leaf("Prtry", "SEPA")])
    ])])])])
  }

  /** The `DrctDbtTxInf` subtrees of the transactions, one each, in order. */
  function TxInfs(txs: seq<TxData>): (es: seq<Element>)
    ensures |es| == |txs|
  {
    if txs == [] then [] else TxInfs(txs[..|txs| - 1]) + [TxInfElement(txs[|txs| - 1])]
  }

  /** The payment information block: its header, then the transactions. */
  function PaymentInformation(h: Header, txs: seq<TxData>): (e: Element)
    ensures e.name == "PmtInf" && |e.children| == 8 + |txs|
  {
    Branch("PmtInf", PmtInfHeader(h) + TxInfs(txs))
  }

  /** The whole document `_generateXml` leaves in `_xml`. */
  function DocumentTree(h: Header, txs: seq<TxData>, created: string): (d: Element)
    ensures d.name == "Document" && d.attrs == DocumentAttrs
    ensures Names(d.children) == ["CstmrDrctDbtInitn"]
    ensures Names(d.children[0].children) == ["GrpHdr", "PmtInf"]
  {
    Element("Document", DocumentAttrs, [
      Branch("CstmrDrctDbtInitn", [GroupHeader(h, |txs|, created), PaymentInformation(h, txs)])
    ], "")
  }

  /** The blocks of the document, found by name as a SimpleXML reader finds
      them: the group header and the payment information. */
  lemma DocumentBlocks(h: Header, txs: seq<TxData>, created: string)
    ensures Child(DocumentTree(h, txs, created), "CstmrDrctDbtInitn").Some?
    ensures Child(Child(DocumentTree(h, txs, created), "CstmrDrctDbtInitn").value, "GrpHdr")
      == Some(GroupHeader(h, |txs|, created))
    ensures Child(Child(DocumentTree(h, txs, created), "CstmrDrctDbtInitn").value, "PmtInf")
      == Some(PaymentInformation(h, txs))
  {
    var d := DocumentTree(h, txs, created);
    var c := d.children[0];
    FirstNamedAt(d.children, 0, "CstmrDrctDbtInitn");
    FirstNamedAt(c.children, 0, "GrpHdr");
    FirstNamedAt(c.children, 1, "PmtInf");
  }

  /** How many transactions a sequence of `DrctDbtTxInf` subtrees holds. */
  lemma {:induction false} CountTxInfs(txs: seq<TxData>)
    ensures CountNamed(TxInfs(txs), "DrctDbtTxInf") == |txs|
  {
    if txs != [] {
      var init := txs[..|txs| - 1];
      CountTxInfs(init);
      CountNamedConcat(TxInfs(init), [TxInfElement(txs[|txs| - 1])], "DrctDbtTxInf");
      var one := [TxInfElement(txs[|txs| - 1])];
      assert CountNamed(one, "DrctDbtTxInf") == 1 by {
        assert one[1..] == [];
      }
    }
  }

  /** The header parts of the payment information have distinct names,
      none of which is that of a transaction block. */
  lemma PmtInfHeaderNamesDistinct(h: Header)
    ensures DistinctNames(PmtInfHeader(h))
    ensures forall i :: 0 <= i < 8 ==> PmtInfHeader(h)[i].name != "DrctDbtTxInf"
  {
    var hd := PmtInfHeader(h);
    HeaderNamesDistinct();
    forall i | 0 <= i < 8 ensures hd[i].name == PmtInfHeaderNames[i] {
      assert hd[i].name == Names(hd)[i];
    }
  }

  lemma HeaderNamesDistinct()
    ensures forall j, k :: 0 <= j < k < |PmtInfHeaderNames| ==> PmtInfHeaderNames[j] != PmtInfHeaderNames[k]
    ensures forall i :: 0 <= i < |PmtInfHeaderNames| ==> PmtInfHeaderNames[i] != "DrctDbtTxInf"
  {
    var ns := PmtInfHeaderNames;
    // The names differ in length or, among those of eight bytes, in the
    // fourth byte; "DrctDbtTxInf" has twelve bytes and a 't' there.
    assert |ns| == 8;
    assert |ns[0]| == 8 && ns[0][3] == 'I';
    assert |ns[1]| == 6;
    assert |ns[2]| == 8 && ns[2][3] == 'T';
    assert |ns[3]| == 12 && ns[3][3] == 'd';
    assert |ns[4]| == 4;
    assert |ns[5]| == 8 && ns[5][3] == 'r';
    assert |ns[6]| == 7;
    assert |ns[7]| == 11;
    assert "DrctDbtTxInf"[3] == 't';
  }

  /** `NbOfTxs` is the printed number of transactions, and the payment
      information holds exactly that many `DrctDbtTxInf` blocks. */
  lemma NumberOfTransactions(h: Header, txs: seq<TxData>, created: string)
    ensures IsDigits(GroupHeader(h, |txs|, created).children[2].text)
    ensures Value(GroupHeader(h, |txs|, created).children[2].text) == |txs|
    ensures CountNamed(PaymentInformation(h, txs).children, "DrctDbtTxInf") == |txs|
  {
    ValueOfNatToDecimal(|txs|);
    var hd := PmtInfHeader(h);
    PmtInfHeaderNamesDistinct(h);
    CountNamedAbsent(hd, "DrctDbtTxInf");
    CountTxInfs(txs);
    CountNamedConcat(hd, TxInfs(txs), "DrctDbtTxInf");
  }

  /** The creditor's name is the same sanitised text, of at most 70 bytes,
      in the initiating party and in the creditor block. */
  lemma CreditorName(h: Header, txs: seq<TxData>, created: string)
    ensures GroupHeader(h, |txs|, created).children[3].children == [Leaf("Nm", Alphanumeric(h.initiatingPartyName, 70))]
    ensures PaymentInformation(h, txs).children[4].children == GroupHeader(h, |txs|, created).children[3].children
    ensures |Alphanumeric(h.initiatingPartyName, 70)| <= 70
  {
  }

  /** The payment information starts with its eight header parts, each found
      by its name, with the fixed codes of a one-off core direct debit. */
  lemma PaymentInformationHeader(h: Header, txs: seq<TxData>, i: nat)
    requires i < 8
    ensures PaymentInformation(h, txs).children[..8] == PmtInfHeader(h)
    ensures Child(PaymentInformation(h, txs), PmtInfHeaderNames[i]) == Some(PmtInfHeader(h)[i])
  {
    var hd := PmtInfHeader(h);
    var p := PaymentInformation(h, txs);
    assert p.children[..8] == hd;
    PmtInfHeaderNamesDistinct(h);
    FirstNamedDistinctPrefix(p.children, 8, i);
    assert p.children[i].name == Names(hd)[i];
  }

  /** The codes the payment information fixes: direct debit, the SEPA
      service level, the CORE scheme, a one-off sequence and the SEPA
      proprietary scheme name of the creditor identifier. */
  lemma PaymentInformationCodes(h: Header, txs: seq<TxData>)
    ensures Child(PaymentInformation(h, txs), "PmtMtd") == Some(Leaf("PmtMtd", "DD"))
    ensures Child(PaymentInformation(h, txs), "PmtTpInf") == Some(PaymentTypeInformation())
    ensures Names(PaymentTypeInformation().children) == ["SvcLvl", "LclInstrm", "SeqTp"]
    ensures PaymentTypeInformation().children[0].children == [Leaf("Cd", "SEPA")]
    ensures PaymentTypeInformation().children[1].children == [Leaf("Cd", "CORE")]
    ensures PaymentTypeInformation().children[2].text == "OOFF"
  {
    PaymentInformationHeader(h, txs, 1);
    PaymentInformationHeader(h, txs, 2);
  }

  /** The texts the header carries, each under the tag its field belongs
      to: the message identifier and the creation time in the group header;
      the payment information identifier, the collection date, the
      creditor's IBAN and BIC in the payment information. */
  lemma HeaderLeaves(h: Header, txs: seq<TxData>, created: string)
    ensures Child(GroupHeader(h, |txs|, created), "MsgId") == Some(Leaf("MsgId", h.messageIdentification))
    ensures Child(GroupHeader(h, |txs|, created), "CreDtTm") == Some(Leaf("CreDtTm", created))
    ensures Child(PaymentInformation(h, txs), "PmtInfId") == Some(Leaf("PmtInfId", h.paymentInfoId))
    ensures Child(PaymentInformation(h, txs), "ReqdColltnDt") == Some(Leaf("ReqdColltnDt", h.requestedExecutionDate))
    ensures At(PaymentInformation(h, txs), ["CdtrAcct", "Id", "IBAN"]) == Some(Leaf("IBAN", h.creditorIban))
    ensures At(PaymentInformation(h, txs), ["CdtrAgt", "FinInstnId", "BIC"]) == Some(Leaf("BIC", h.creditorBic))
  {
    var g := GroupHeader(h, |txs|, created);
    FirstNamedAt(g.children, 0, "MsgId");
    FirstNamedAt(g.children, 1, "CreDtTm");
    PaymentInformationHeader(h, txs, 0);
    PaymentInformationHeader(h, txs, 3);
    PaymentInformationHeader(h, txs, 5);
    PaymentInformationHeader(h, txs, 6);
    PathOfTwo(CreditorAccount(h.creditorIban), "Id", "IBAN");
    assert ["CdtrAcct", "Id", "IBAN"][1..] == ["Id", "IBAN"];
    PathOfTwo(CreditorAgent(h.creditorBic), "FinInstnId", "BIC");
    assert ["CdtrAgt", "FinInstnId", "BIC"][1..] == ["FinInstnId", "BIC"];
  }

  /** The creditor scheme identifier carries the creditor identifier as it
      was set, under the proprietary scheme name "SEPA". */
  lemma CreditorSchemeIdentifier(h: Header, txs: seq<TxData>)
    ensures Child(PaymentInformation(h, txs), "CdtrSchmeId") == Some(CreditorSchemeId(h.creditorId))
    ensures var other := CreditorSchemeId(h.creditorId).children[0].children[0].children[0];
      && other.name == "Othr"
      && other.children == [Leaf("Id", h.creditorId), Branch("SchmeNm", [Leaf("Prtry", "SEPA")])]
  {
    PaymentInformationHeader(h, txs, 7);
  }

  /** After the header come the transactions' subtrees, in the order the
      transactions were added. */
  lemma TransactionsInOrder(h: Header, txs: seq<TxData>, i: nat)
    requires i < |txs|
    ensures PaymentInformation(h, txs).children[8 + i] == TxInfElement(txs[i])
  {
    TxInfsAt(txs, i);
    assert PaymentInformation(h, txs).children[8 + i] == TxInfs(txs)[i];
  }

  /** The i-th subtree is that of the i-th transaction. */
  lemma {:induction false} TxInfsAt(txs: seq<TxData>, i: nat)
    requires i < |txs|
    ensures TxInfs(txs)[i] == TxInfElement(txs[i])
  {
    if i < |txs| - 1 {
      TxInfsAt(txs[..|txs| - 1], i);
    }
  }

  lemma TxInfsSnoc(txs: seq<TxData>, t: TxData)
    ensures TxInfs(txs + [t]) == TxInfs(txs) + [TxInfElement(t)]
  {
    assert (txs + [t])[..|txs|] == txs;
  }

  /** One more transaction gives one more `DrctDbtTxInf`, as the last child;
      the children before it are those of the shorter list. */
  lemma {:induction false} OneMoreTransaction(h: Header, txs: seq<TxData>, t: TxData)
    ensures PaymentInformation(h, txs + [t]).children ==
      PaymentInformation(h, txs).children + [TxInfElement(t)]
  {
    TxInfsSnoc(txs, t);
  }

  // ---------------------------------------------------------------------
  // the setters' checks
  // ---------------------------------------------------------------------

  /** PHP's truth value of a string: false for "" and "0" only. */
  predicate IsTruthy(s: string) {
    s != "" && s != "0"
  }

  predicate IbanAccepted(s: string) {
    IsTruthy(s) && |s| <= 34
  }

  predicate PaymentInfoIdAccepted(s: string) {
    IsTruthy(s) && |s| <= 35
  }

  const IbanMessage := "Invalid IBAN value. Accepted: min-length: 1, max-length: 32"
  const BicMessage := "Invalid BIC. Accepted: regex: /^[0-9a-z]{4}[a-z]{2}[0-9a-z]{2}([0-9a-z]{3})?\\z/i"
  const PaymentInfoIdMessage := "Invalid value for PaymentInfoId. Accepted: min-length: 1, max-length: 32"
  const DateMessage := "Invalid date for RequestedExecutionDate. Accepted format: yyyy-mm-dd"

  /** The boundaries of the two length checks: an IBAN may have 34 bytes
      (not only the 32 its error message mentions), an identifier 35, and
      "0" is refused like the empty string. */
  lemma LengthCheckExamples()
    ensures IbanAccepted(Zeros(33) + "1") && !IbanAccepted(Zeros(34) + "1")
    ensures PaymentInfoIdAccepted(Zeros(34) + "1") && !PaymentInfoIdAccepted(Zeros(35) + "1")
    ensures !IbanAccepted("0") && !IbanAccepted("") && IbanAccepted("00")
    ensures !PaymentInfoIdAccepted("0") && PaymentInfoIdAccepted("A")
  {
    assert (Zeros(33) + "1")[33] == '1';
    assert (Zeros(34) + "1")[34] == '1';
  }

  // ---------------------------------------------------------------------
  // the aggregate
  // ---------------------------------------------------------------------

  /** The transactions' fields at one moment, in the order they were added. */
  function Snapshots(txs: seq<Transaction>): (ds: seq<TxData>)
    reads txs
    ensures |ds| == |txs|
    ensures forall i :: 0 <= i < |txs| ==> ds[i] == txs[i].Snapshot()
  {
    if txs == [] then [] else Snapshots(txs[..|txs| - 1]) + [txs[|txs| - 1].Snapshot()]
  }

  /** The group header, filled in as `_generateXml` fills it. */
  method GroupHeaderXml(h: Header, count: nat, created: string) returns (e: Element)
    ensures e == GroupHeader(h, count, created)
  {
    var groupHeader := new Node("GrpHdr");
    groupHeader.AddChild(Leaf("MsgId", h.messageIdentification));
    groupHeader.AddChild(Leaf("CreDtTm", created));
    groupHeader.AddChild(Leaf("NbOfTxs", NatToDecimal(count)));
    groupHeader.AddChild(Branch("InitgPty", [Leaf("Nm", Alphanumeric(h.initiatingPartyName, 70))]));
    e := groupHeader.Value();
  }

  /** A new `PmtInf` node holding the header parts of the payment
      information and no transaction yet. */
  method PaymentInformationXml(h: Header) returns (pmtInf: Node)
    ensures fresh(pmtInf)
    ensures pmtInf.Value() == Branch("PmtInf", PmtInfHeader(h))
  {
    pmtInf := new Node("PmtInf");
    pmtInf.AddChild(Leaf("PmtInfId", h.paymentInfoId));
    pmtInf.AddChild(PaymentMethod());
    pmtInf.AddChild(PaymentTypeInformation());
    pmtInf.AddChild(Leaf("ReqdColltnDt", h.requestedExecutionDate));
    pmtInf.AddChild(Creditor(h.initiatingPartyName));
    pmtInf.AddChild(CreditorAccount(h.creditorIban));
    pmtInf.AddChild(CreditorAgent(h.creditorBic));
    pmtInf.AddChild(CreditorSchemeId(h.creditorId));
  }

  /** The `foreach` of `_generateXml`: every transaction, in list order,
      appends its subtree to `pmtInf`. */
  method AppendTransactions(txs: seq<Transaction>, pmtInf: Node)
    modifies pmtInf`children
    ensures pmtInf.children == old(pmtInf.children) + TxInfs(old(Snapshots(txs)))
  {
    ghost var ds := Snapshots(txs);
    ghost var es := TxInfs(ds);
    var i := 0;
    while i < |txs|
      invariant 0 <= i <= |txs|
      invariant forall j :: i <= j < |txs| ==> txs[j].Snapshot() == ds[j]
      invariant pmtInf.children == old(pmtInf.children) + es[..i]
    {
      TxInfsAt(ds, i);
      assert es[..i + 1] == es[..i] + [es[i]];
      var _ := txs[i].AppendToXml(pmtInf);
      i := i + 1;
    }
    assert es[..i] == es;
  }

  class SepaDirectDebit {
    var messageIdentification: string
    var creditorId: string
    var initiatingPartyName: string
    var creditorIban: string
    var creditorBic: string
    var paymentInfoId: string
    var requestedExecutionDate: string
    var transactions: seq<Transaction>
    /** `_xml`: the last generated document, if any. */
    var xml: Option<Element>

    /** The header fields, as the getters return them. */
    function Fields(): (h: Header)
      reads this`messageIdentification, this`creditorId, this`initiatingPartyName, this`creditorIban
      reads this`creditorBic, this`paymentInfoId, this`requestedExecutionDate
      ensures h.creditorIban == creditorIban && h.creditorBic == creditorBic
      ensures h.paymentInfoId == paymentInfoId && h.requestedExecutionDate == requestedExecutionDate
    {
      Header(messageIdentification, creditorId, initiatingPartyName, creditorIban,
             creditorBic, paymentInfoId, requestedExecutionDate)
    }

    /** The document the current fields and transactions describe. */
    function Document(created: string): Element
      reads this`messageIdentification, this`creditorId, this`initiatingPartyName, this`creditorIban
      reads this`creditorBic, this`paymentInfoId, this`requestedExecutionDate
      reads this`transactions, transactions
    {
      DocumentTree(Fields(), Snapshots(transactions), created)
    }

    /** A message with no field set, no transaction and no document yet. */
    constructor ()
      ensures Fields() == Header("", "", "", "", "", "", "")
      ensures transactions == [] && xml == None
    {
      messageIdentification, creditorId, initiatingPartyName := "", "", "";
      creditorIban, creditorBic, paymentInfoId, requestedExecutionDate := "", "", "", "";
      transactions := [];
      xml := None;
    }

    /** `setMessageIdentification`: stored as given; nothing is returned. */
    method SetMessageIdentification(v: string)
      modifies this`messageIdentification
      ensures messageIdentification == v
    {
      messageIdentification := v;
    }

    method SetCreditorId(v: string) returns (r: SepaDirectDebit)
      modifies this`creditorId
      ensures r == this && creditorId == v
    {
      creditorId := v;
      r := this;
    }

    /** `setInitiatingPartyName`: stored as given; sanitised only when the
        document is generated. */
    method SetInitiatingPartyName(v: string) returns (r: SepaDirectDebit)
      modifies this`initiatingPartyName
      ensures r == this && initiatingPartyName == v
    {
      initiatingPartyName := v;
      r := this;
    }

    /** `setCreditorIban`: a truthy value of at most 34 bytes is stored;
        anything else throws and the field keeps its value. */
    method SetCreditorIban(v: string) returns (r: Result<SepaDirectDebit>)
      modifies this`creditorIban
      ensures r.Ok? <==> IbanAccepted(v)
      ensures r.Ok? ==> r.value == this && creditorIban == v
      ensures r.Err? ==> r.error == SepaException(IbanMessage) && creditorIban == old(creditorIban)
    {
      if !IsTruthy(v) || |v| > 34 {
        return Err(SepaException(IbanMessage));
      }
      creditorIban := v;
      r := Ok(this);
    }

    /** `setCreditorBic`: a value the case-insensitive BIC expression matches
        is stored; anything else throws and the field keeps its value. */
    method SetCreditorBic(v: string) returns (r: Result<SepaDirectDebit>)
      modifies this`creditorBic
      ensures r.Ok? <==> Matches(BicPattern, v)
      ensures r.Ok? ==> r.value == this && creditorBic == v
      ensures r.Err? ==> r.error == SepaException(BicMessage) && creditorBic == old(creditorBic)
    {
      IsBicMatchesPattern(v);
      if !IsBic(v) {
        return Err(SepaException(BicMessage));
      }
      creditorBic := v;
      r := Ok(this);
    }

    /** `setPaymentInfoId`: a truthy value of at most 35 bytes is stored;
        anything else throws and the field keeps its value. */
    method SetPaymentInfoId(v: string) returns (r: Result<SepaDirectDebit>)
      modifies this`paymentInfoId
      ensures r.Ok? <==> PaymentInfoIdAccepted(v)
      ensures r.Ok? ==> r.value == this && paymentInfoId == v
      ensures r.Err? ==> r.error == SepaException(PaymentInfoIdMessage) && paymentInfoId == old(paymentInfoId)
    {
      if !IsTruthy(v) || |v| > 35 {
        return Err(SepaException(PaymentInfoIdMessage));
      }
      paymentInfoId := v;
      r := Ok(this);
    }

    /** `setRequestedExecutionDate`: a value whose first three '-'-separated
        pieces name a day of the calendar is stored as given; anything else
        throws and the field keeps its value. */
    method SetRequestedExecutionDate(v: string) returns (r: Result<SepaDirectDebit>)
      modifies this`requestedExecutionDate
      ensures r.Ok? <==> ParseDate(v).Some?
      ensures r.Ok? ==> r.value == this && requestedExecutionDate == v
      ensures r.Err? ==> r.error == SepaException(DateMessage) && requestedExecutionDate == old(requestedExecutionDate)
    {
      if ParseDate(v).None? {
        return Err(SepaException(DateMessage));
      }
      requestedExecutionDate := v;
      r := Ok(this);
    }

    /** `addTransaction`: the transaction goes after those added before. */
    method AddTransaction(t: Transaction) returns (r: SepaDirectDebit)
      modifies this`transactions
      ensures r == this && transactions == old(transactions) + [t]
    {
      transactions := transactions + [t];
      r := this;
    }

    /** The tree `_generateXml` builds, node by node: the group header,
        then the payment information, to which every transaction appends
        its own subtree. */
    method DocumentXml(created: string) returns (document: Element)
      ensures document == old(Document(created))
    {
      var h, txs := Fields(), transactions;
      ghost var ds := Snapshots(txs);
      var groupHeader := GroupHeaderXml(h, |txs|, created);
      var pmtInf := PaymentInformationXml(h);
      assert Snapshots(txs) == ds;
      AppendTransactions(txs, pmtInf);
      assert pmtInf.children == PmtInfHeader(h) + TxInfs(ds);
      var payment := pmtInf.Value();
      var initiation := Branch("CstmrDrctDbtInitn", [groupHeader, payment]);
      document := Element("Document", DocumentAttrs, [initiation], "");
    }

    /** `_generateXml`: builds the document from the current fields and
        transactions and keeps it in `xml`; `created` stands for the clock
        reading the source formats as `Y-m-d\TH:i:s`. */
    method GenerateXml(created: string)
      modifies this`xml
      ensures xml == Some(old(Document(created)))
    {
      var document := DocumentXml(created);
      xml := Some(document);
    }

    /** `asXML` (classes/Base.php): the document is always generated afresh
        from the current state before it is returned. */
    method AsXml(created: string) returns (d: Element)
      modifies this`xml
      ensures d == old(Document(created)) && xml == Some(d)
    {
      GenerateXml(created);
      d := xml.value;
    }
  }
}
