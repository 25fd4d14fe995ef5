/** `Sepa_DirectDebit_Transaction` (classes/DirectDebit/Transaction.php):
    one direct-debit transaction, filled in through chained setters and
    written out as a `DrctDbtTxInf` element of the pain.008 message. */
module DirectDebitTransaction {

  import opened Wrappers
  import opened Decimal
  import opened Xml
  import opened Base

  /** The eight fields of a transaction at one moment. */
  datatype TxData = TxData(
    endToEndId: string,
    amount: string,
    transactionIdentifier: string,
    signatureDate: string,
    debtorName: string,
    debtorIban: string,
    debtorBic: string,
    transactionDescription: string)

  /** The `DrctDbtTxInf` subtree `appendToXml` grafts, children in the
      order of the pain.008 items 2.29 to 2.89. */
  function TxInfElement(t: TxData): (e: Element)
    ensures e.name == "DrctDbtTxInf" && e.attrs == [] && e.text == ""
    ensures Names(e.children) == ["PmtId", "InstdAmt", "DrctDbtTx", "DbtrAgt", "Dbtr", "DbtrAcct", "RmtInf"]
  {
    Branch("DrctDbtTxInf", [
      PaymentId(t.endToEndId),
      InstructedAmount(t.amount),
      MandateInfo(t.transactionIdentifier, t.signatureDate),
      DebtorAgent(t.debtorBic),
      Debtor(t.debtorName),
      DebtorAccount(t.debtorIban),
      Remittance(t.transactionDescription)
    ])
  }

  /** Item 2.29: `PmtId/EndToEndId`. */
  function PaymentId(endToEndId: string): Element {
    Branch("PmtId", [Leaf("EndToEndId", endToEndId)])
  }

  /** Item 2.44: the amount, always in euros. */
  function InstructedAmount(amount: string): Element {
    Element("InstdAmt", [Attr("Ccy", "EUR")], [], amount)
  }

  /** Items 2.46 to 2.49: the mandate's identifier and signature date. */
  function MandateInfo(mandateId: string, signatureDate: string): Element {
    Branch("DrctDbtTx", [Branch("MndtRltdInf", [Leaf("MndtId", mandateId), Leaf("DtOfSgntr", signatureDate)])])
  }

  /** The debtor's bank, by BIC. */
  function DebtorAgent(bic: string): Element {
    Branch("DbtrAgt", [Branch("FinInstnId", [Leaf("BIC", bic)])])
  }

  /** Item 2.72: the debtor's name. */
  function Debtor(name: string): Element {
    Branch("Dbtr", [Leaf("Nm", name)])
  }

  /** Item 2.73: the debtor's account, by IBAN. */
  function DebtorAccount(iban: string): Element {
    Branch("DbtrAcct", [Branch("Id", [Leaf("IBAN", iban)])])
  }

  /** Item 2.89: the unstructured remittance text. */
  function Remittance(text: string): Element {
    Branch("RmtInf", [Leaf("Ustrd", text)])
  }

  /** The seven parts of the subtree have distinct names, so a reader that
      looks a part up by name (as SimpleXML's `$e->PmtId` does) gets the part
      that carries the transaction's fields. */
  lemma TxInfLookup(t: TxData, i: nat)
    requires i < 7
    ensures Child(TxInfElement(t), TxInfElement(t).children[i].name) == Some(TxInfElement(t).children[i])
  {
    var cs := TxInfElement(t).children;
    // The names differ in length, or in their first byte for the two of
    // eight bytes.
    assert |cs[0].name| == 5;
    assert |cs[1].name| == 8 && cs[1].name[0] == 'I';
    assert |cs[2].name| == 9;
    assert |cs[3].name| == 7;
    assert |cs[4].name| == 4;
    assert |cs[5].name| == 8 && cs[5].name[0] == 'D';
    assert |cs[6].name| == 6;
    FirstNamedDistinct(cs, i);
  }

  /** What a reader finds under each part's name: the getters' values as
      they are stored, not checked again, and the amount in euros. */
  lemma TxInfParts(t: TxData)
    ensures Child(TxInfElement(t), "PmtId") == Some(Branch("PmtId", [Leaf("EndToEndId", t.endToEndId)]))
    ensures Child(TxInfElement(t), "InstdAmt") == Some(Element("InstdAmt", [Attr("Ccy", "EUR")], [], t.amount))
    ensures Child(TxInfElement(t), "DrctDbtTx") == Some(Branch("DrctDbtTx", [
      Branch("MndtRltdInf", [Leaf("MndtId", t.transactionIdentifier), Leaf("DtOfSgntr", t.signatureDate)])]))
    ensures Child(TxInfElement(t), "DbtrAgt") == Some(Branch("DbtrAgt", [Branch("FinInstnId", [Leaf("BIC", t.debtorBic)])]))
    ensures Child(TxInfElement(t), "Dbtr") == Some(Branch("Dbtr", [Leaf("Nm", t.debtorName)]))
    ensures Child(TxInfElement(t), "DbtrAcct") == Some(Branch("DbtrAcct", [Branch("Id", [Leaf("IBAN", t.debtorIban)])]))
    ensures Child(TxInfElement(t), "RmtInf") == Some(Branch("RmtInf", [Leaf("Ustrd", t.transactionDescription)]))
  {
    TxInfLookup(t, 0);
    TxInfLookup(t, 1);
    TxInfLookup(t, 2);
    TxInfLookup(t, 3);
    TxInfLookup(t, 4);
    TxInfLookup(t, 5);
    TxInfLookup(t, 6);
  }

  class Transaction {
    var endToEndId: string
    var amount: string
    var transactionIdentifier: string
    var signatureDate: string
    var debtorName: string
    var debtorIban: string
    var debtorBic: string
    var transactionDescription: string

    /** What the sanitising setters guarantee about the stored text. */
    predicate Valid()
      reads this
    {
      |debtorName| <= 70 && |transactionDescription| <= 140
    }

    /** The getters' values, together. */
    function Snapshot(): (t: TxData)
      reads this
    {
      TxData(endToEndId, amount, transactionIdentifier, signatureDate,
             debtorName, debtorIban, debtorBic, transactionDescription)
    }

    /** `factory()`: a transaction with no field set. */
    constructor ()
      ensures Valid()
      ensures Snapshot() == TxData("", "", "", "", "", "", "", "")
    {
      endToEndId, amount, transactionIdentifier, signatureDate := "", "", "", "";
      debtorName, debtorIban, debtorBic, transactionDescription := "", "", "", "";
    }

    method SetEndToEndId(v: string) returns (r: Transaction)
      modifies this`endToEndId
      ensures r == this && endToEndId == v
    {
      endToEndId := v;
      r := this;
    }

    /** `setAmount`: the amount, given here in whole cents, is stored
        formatted with two decimals. */
    method SetAmount(cents: nat) returns (r: Transaction)
      modifies this`amount
      ensures r == this && amount == IntToCurrency(cents)
    {
      amount := IntToCurrency(cents);
      r := this;
    }

    method SetTransactionIdentifier(v: string) returns (r: Transaction)
      modifies this`transactionIdentifier
      ensures r == this && transactionIdentifier == v
    {
      transactionIdentifier := v;
      r := this;
    }

    method SetSignatureDate(v: string) returns (r: Transaction)
      modifies this`signatureDate
      ensures r == this && signatureDate == v
    {
      signatureDate := v;
      r := this;
    }

    /** `setDebtorName`: stores the sanitised name, at most 70 bytes. */
    method SetDebtorName(v: string) returns (r: Transaction)
      requires Valid()
      modifies this`debtorName
      ensures r == this && debtorName == Alphanumeric(v, 70)
      ensures Valid() && |debtorName| <= 70
    {
      debtorName := Alphanumeric(v, 70);
      r := this;
    }

    method SetDebtorIban(v: string) returns (r: Transaction)
      modifies this`debtorIban
      ensures r == this && debtorIban == v
    {
      debtorIban := v;
      r := this;
    }

    method SetDebtorBic(v: string) returns (r: Transaction)
      modifies this`debtorBic
      ensures r == this && debtorBic == v
    {
      debtorBic := v;
      r := this;
    }

    /** `setTransactionDescription`: stores the sanitised text, at most 140
        bytes. */
    method SetTransactionDescription(v: string) returns (r: Transaction)
      requires Valid()
      modifies this`transactionDescription
      ensures r == this && transactionDescription == Alphanumeric(v, 140)
      ensures Valid() && |transactionDescription| <= 140
    {
      transactionDescription := Alphanumeric(v, 140);
      r := this;
    }

    /** `appendToXml`: one new last child of `parent`, the transaction's
        subtree; the existing children stay as they were. */
    method AppendToXml(parent: Node) returns (r: Node)
      modifies parent`children
      ensures r == parent
      ensures parent.children == old(parent.children) + [TxInfElement(old(Snapshot()))]
    {
      var tx := new Node("DrctDbtTxInf");
      tx.AddChild(PaymentId(endToEndId));
      tx.AddChild(InstructedAmount(amount));
      tx.AddChild(MandateInfo(transactionIdentifier, signatureDate));
      tx.AddChild(DebtorAgent(debtorBic));
      tx.AddChild(Debtor(debtorName));
      tx.AddChild(DebtorAccount(debtorIban));
      tx.AddChild(Remittance(transactionDescription));
      assert tx.Value() == TxInfElement(Snapshot());
      parent.AddChild(tx.Value());
      r := parent;
    }

    /** `asXml`: the subtree appended to a fresh `<Transaction>` root. */
    method AsXml() returns (e: Element)
      ensures e == Branch("Transaction", [TxInfElement(Snapshot())])
    {
      var root := new Node("Transaction");
      var _ := AppendToXml(root);
      e := root.Value();
    }
  }
}
