/** Human-readable sequential ids: a prefix and `count + 1` left-padded with
    '0' to four digits, where `count` is the number of documents already
    stored (`INV-0001` for invoices, `DLR0001` for dealers). */
module SequentialIds {
  import opened Wrappers
  import opened Text

  function SequentialId(prefix: string, count: nat): (id: string)
    ensures |id| >= |prefix| + 4
    ensures id[..|prefix|] == prefix
    ensures AllDigits(id[|prefix|..])
  {
    var digits := PadStart(Decimal(count + 1), 4, '0');
    assert (prefix + digits)[|prefix|..] == digits;
    prefix + digits
  }

  /** An id starts with its prefix and ends with a digit, so trimming it, as
      the schemas do, leaves it as it is. */
  lemma SequentialIdTrimmed(prefix: string, count: nat)
    requires prefix != [] && !IsSpace(prefix[0])
    ensures Trim(SequentialId(prefix, count)) == SequentialId(prefix, count)
  {
    var id := SequentialId(prefix, count);
    assert id[0] == id[..|prefix|][0];
    assert id[|id| - 1] == id[|prefix|..][|id| - 1 - |prefix|];
    TrimUnchanged(id);
  }

  /** The invoice number given when `count` invoices exist. */
  function InvoiceNumber(count: nat): string {
    SequentialId("INV-", count)
  }

  /** An invoice number is never blank and survives the schema's `trim`. */
  lemma InvoiceNumberTrimmed(count: nat)
    ensures InvoiceNumber(count) != "" && Trim(InvoiceNumber(count)) == InvoiceNumber(count)
  {
    assert |InvoiceNumber(count)| >= 8;
    SequentialIdTrimmed("INV-", count);
  }

  /** `generateDealerId()` when `count` dealers exist. */
  function DealerCode(count: nat): string {
    SequentialId("DLR", count)
  }

  /** Reads the number back from an id: the prefix, then only digits. */
  function ParseSequentialId(prefix: string, id: string): (n: Option<nat>)
    ensures n.Some? ==> |prefix| < |id| && id[..|prefix|] == prefix
  {
    if |prefix| < |id| && id[..|prefix|] == prefix && AllDigits(id[|prefix|..])
    then Some(DigitsValue(id[|prefix|..]))
    else None
  }

  /** The digits of an id give back `count + 1`. */
  lemma SequentialIdRoundTrip(prefix: string, count: nat)
    ensures ParseSequentialId(prefix, SequentialId(prefix, count)) == Some(count + 1)
  {
    var d := Decimal(count + 1);
    var k := if |d| < 4 then 4 - |d| else 0;
    var digits := Repeat('0', k) + d;
    assert PadStart(d, 4, '0') == digits;
    var id := prefix + digits;
    assert SequentialId(prefix, count) == id;
    assert id[..|prefix|] == prefix && id[|prefix|..] == digits;
    DecimalRoundTrip(count + 1);
    LeadingZerosIgnored(k, d);
  }

  /** Different counts never give the same id. */
  lemma SequentialIdInjective(prefix: string, a: nat, b: nat)
    requires SequentialId(prefix, a) == SequentialId(prefix, b)
    ensures a == b
  {
    SequentialIdRoundTrip(prefix, a);
    SequentialIdRoundTrip(prefix, b);
  }

  /** Up to 9999 the digits take exactly four places. */
  lemma SequentialIdWidth(prefix: string, count: nat)
    requires count + 1 <= 9999
    ensures |SequentialId(prefix, count)| == |prefix| + 4
  {
    assert Pow10(4) == 10000;
    DecimalLength(count + 1, 4);
  }

  lemma FirstInvoiceNumber()
    ensures InvoiceNumber(0) == "INV-0001"
  {
    assert Decimal(1) == "1";
    assert Repeat('0', 3) == "000";
  }

  lemma DealerCodePastFourDigits()
    ensures DealerCode(9999) == "DLR10000"
  {
    assert Decimal(1) == "1";
    assert Decimal(10) == "10";
    assert Decimal(100) == "100";
    assert Decimal(1000) == "1000";
    assert Decimal(10000) == "10000";
  }

  /** The ids of a collection whose `i`-th document got the id for count `i`. */
  predicate NumberedInOrder(prefix: string, ids: seq<string>) {
    forall i :: 0 <= i < |ids| ==> ids[i] == SequentialId(prefix, i)
  }

  /** Numbering by count while only appending gives pairwise distinct ids. */
  lemma NumberedIdsDistinct(prefix: string, ids: seq<string>)
    requires NumberedInOrder(prefix, ids)
    ensures forall i, j :: 0 <= i < j < |ids| ==> ids[i] != ids[j]
  {
    forall i, j | 0 <= i < j < |ids|
      ensures ids[i] != ids[j]
    {
      if ids[i] == ids[j] {
        SequentialIdInjective(prefix, i, j);
      }
    }
  }

  /** With the ids numbered in order, the id for the current count is unused. */
  lemma NextIdFree(prefix: string, ids: seq<string>)
    requires NumberedInOrder(prefix, ids)
    ensures SequentialId(prefix, |ids|) !in ids
  {
    if SequentialId(prefix, |ids|) in ids {
      var i :| 0 <= i < |ids| && ids[i] == SequentialId(prefix, |ids|);
      SequentialIdInjective(prefix, i, |ids|);
    }
  }

  /** Appending the id for the current count keeps the numbering. */
  lemma NumberedAppend(prefix: string, ids: seq<string>)
    requires NumberedInOrder(prefix, ids)
    ensures NumberedInOrder(prefix, ids + [SequentialId(prefix, |ids|)])
  {
  }
}
