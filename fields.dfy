/** The field vocabulary of an eWAY XML request: the mandatory list (extended when
    anti-fraud screening is on) and the optional fields that are always emitted. */
module FieldSet {

  /** The five fields every transaction must carry. */
  const BaseMandatoryFields: seq<string> :=
    ["TotalAmount", "CardHoldersName", "CardNumber", "CardExpiryMonth", "CardExpiryYear"]

  /** The two fields that anti-fraud screening adds to the mandatory list. */
  const AntiFraudFields: seq<string> := ["CustomerIPAddress", "CustomerBillingCountry"]

  /** The optional fields, in the order their empty elements are emitted. */
  const OptionalFields: seq<string> :=
    ["CustomerFirstName", "CustomerLastName", "CustomerEmail", "CustomerAddress",
     "CustomerPostcode", "CustomerInvoiceDescription", "CustomerInvoiceRef",
     "TrxnNumber", "Option1", "Option2", "Option3", "CVN"]

  predicate NoDuplicates(s: seq<string>)
  {
    forall i, j :: 0 <= i < j < |s| ==> s[i] != s[j]
  }

  /** The mandatory list a gateway client ends up with: the base five, followed by the
      anti-fraud pair when screening is enabled, each field once. */
  function MandatoryFields(antiFraud: bool): (fields: seq<string>)
  {
    if antiFraud then BaseMandatoryFields + AntiFraudFields else BaseMandatoryFields
  }

  /** The mandatory list is the base five, followed by exactly the anti-fraud pair when
      screening is on, and no field occurs twice. */
  lemma MandatoryFieldsShape(antiFraud: bool)
    ensures var fields := MandatoryFields(antiFraud);
      && |fields| == (if antiFraud then 7 else 5)
      && fields[..5] == BaseMandatoryFields
      && (antiFraud ==> fields[5..] == AntiFraudFields)
      && (antiFraud <==> "CustomerIPAddress" in fields)
      && (antiFraud <==> "CustomerBillingCountry" in fields)
      && NoDuplicates(fields)
  {
    var fields := MandatoryFields(antiFraud);
    if !antiFraud {
      assert "CustomerIPAddress" !in fields;
      assert "CustomerBillingCountry" !in fields;
    }
  }

  /** No mandatory field is also optional, so the encoder never emits a blank for a
      mandatory field. */
  lemma MandatoryNotOptional(antiFraud: bool, f: string)
    requires f in MandatoryFields(antiFraud)
    ensures f !in OptionalFields
  {
  }

  /** The optional fields are pairwise distinct, so each gets at most one blank. */
  lemma OptionalFieldsDistinct()
    ensures NoDuplicates(OptionalFields)
  {
  }
}
