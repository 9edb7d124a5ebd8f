/** The id coercion at the top of createDocument, deleteDocument and updateDocument:
    a string id made only of decimal digits becomes the integer it denotes. */
module Ids {
  import opened Records
  import opened Decimal
  import opened Chars

  function NormalizeId(id: Id): (r: Id)
    ensures r.StrId? ==> !IsDecimal(r.s)
    ensures !(id.StrId? && IsDecimal(id.s)) ==> r == id
    ensures id.StrId? && IsDecimal(id.s) ==> r.IntId? && r.n >= 0
  {
    match id
    case StrId(s) => if IsDecimal(s) then IntId(DecimalValue(s)) else id
    case IntId(_) => id
  }

  /** The decimal string of n addresses the same document as the integer n. */
  lemma NormalizeNumeral(n: nat)
    ensures NormalizeId(StrId(NatToDecimal(n))) == IntId(n)
    ensures NormalizeId(IntId(n)) == IntId(n)
  {
    DecimalOfNatToDecimal(n);
  }

  /** Leading zeros do not change the id a digit string stands for. */
  lemma NormalizeLeadingZero(s: string)
    requires IsDecimal(s)
    ensures NormalizeId(StrId("0" + s)) == NormalizeId(StrId(s))
  {
    LeadingZero(s);
  }

  /** Coercing twice is coercing once. */
  lemma NormalizeIdempotent(id: Id)
    ensures NormalizeId(NormalizeId(id)) == NormalizeId(id)
  {
  }

  /** "42" and "042" both become 42; "" and "4a2" are not decimal and stay strings. */
  lemma NormalizeExamples()
    ensures NormalizeId(StrId("42")) == IntId(42)
    ensures NormalizeId(StrId("042")) == IntId(42)
    ensures NormalizeId(StrId("")) == StrId("")
    ensures NormalizeId(StrId("4a2")) == StrId("4a2")
    ensures NormalizeId(IntId(-7)) == IntId(-7)
  {
    assert "42"[..1] == "4";
    assert "4"[..0] == "";
    assert DecimalValue("42") == 42;
    NormalizeLeadingZero("42");
    assert "0" + "42" == "042";
    assert !IsDigit("4a2"[1]);
  }
}
