/**
 * `H2CountSpider` (bundestags_scraper/utils/h2_count_spider.py): requests the
 * detail page of every politician record and counts the `h2` headings of all
 * pages in one `Counter`.
 *
 * A page is given as the texts the selector reads off its `h2` elements, each
 * already whitespace-normalised by XPath's `normalize-space`.
 */
module H2CountSpider {
  import opened Wrappers
  import opened Items
  import Counts

  // ----- start_requests ---------------------------------------------------------

  /** A record asks for a request when it is a politician record with a detail page. */
  predicate Requested(record: Fields) {
    Get(record, "item_type") == Some("politician") && Truthy(Get(record, "detail_page"))
  }

  /** The URLs requested for the records, in file order. */
  function RequestUrls(records: seq<Fields>): seq<string> {
    if records == [] then []
    else
      var r := records[|records| - 1];
      RequestUrls(records[..|records| - 1]) + (if Requested(r) then [Get(r, "detail_page").value] else [])
  }

  /** Every requested URL is a non-empty detail page of a politician record, and every such record is requested. */
  lemma {:induction false} RequestUrlsSpec(records: seq<Fields>)
    ensures |RequestUrls(records)| <= |records|
    ensures forall u :: u in RequestUrls(records) ==>
              (u != "" && exists i :: 0 <= i < |records| && Requested(records[i]) && Get(records[i], "detail_page") == Some(u))
    ensures forall i :: 0 <= i < |records| && Requested(records[i]) ==> Get(records[i], "detail_page").value in RequestUrls(records)
  {
    if records != [] {
      var init := records[..|records| - 1];
      RequestUrlsSpec(init);
      assert forall i :: 0 <= i < |init| ==> init[i] == records[i];
    }
  }

  /** `start_requests`: one request per politician record with a detail page. */
  method StartRequests(records: seq<Fields>) returns (urls: seq<string>)
    ensures urls == RequestUrls(records)
  {
    urls := [];
    for i := 0 to |records|
      invariant urls == RequestUrls(records[..i])
    {
      assert records[..i + 1][..i] == records[..i];
      var record := records[i];
      if Get(record, "item_type") == Some("politician") {
        var url := Get(record, "detail_page");
        if url.Some? && url.value != "" {
          urls := urls + [url.value];
        }
      }
    }
    assert records[..|records|] == records;
  }

  // ----- parse --------------------------------------------------------------------

  /** The headings `parse` counts: the non-empty texts, in order. */
  function Counted(texts: seq<string>): seq<string> {
    if texts == [] then []
    else Counted(texts[..|texts| - 1]) + (if texts[|texts| - 1] != "" then [texts[|texts| - 1]] else [])
  }

  /** Every non-empty text is counted as often as it occurs, and the empty text never. */
  lemma {:induction false} CountedOccurrences(texts: seq<string>)
    ensures forall k :: multiset(Counted(texts))[k] == if k == "" then 0 else multiset(texts)[k]
  {
    if texts != [] {
      var init, last := texts[..|texts| - 1], texts[|texts| - 1];
      assert texts == init + [last];
      CountedOccurrences(init);
    }
  }

  /** The loop of `parse`, on the counter it updates. */
  method CountHeadings(d: Counts.Dict<string>, texts: seq<string>) returns (counts: Counts.Dict<string>)
    ensures counts == Counts.Tally(d, Counted(texts))
  {
    counts := d;
    for i := 0 to |texts|
      invariant counts == Counts.Tally(d, Counted(texts[..i]))
    {
      assert texts[..i + 1][..i] == texts[..i];
      var text := texts[i];
      if text != "" {
        assert Counted(texts[..i + 1]) == Counted(texts[..i]) + [text];
        Counts.TallySnoc(d, Counted(texts[..i]), text);
        counts := Counts.Increment(counts, text);
      } else {
        assert Counted(texts[..i + 1]) == Counted(texts[..i]) + [];
        assert Counted(texts[..i]) + [] == Counted(texts[..i]);
      }
    }
    assert texts[..|texts|] == texts;
  }

  class H2CountSpider {
    /** `heading_counts` */
    var headingCounts: Counts.Dict<string>
    /** Every heading counted so far, over all pages parsed. */
    ghost var counted: seq<string>

    ghost predicate Valid()
      reads this
    {
      Counts.Valid(headingCounts) && headingCounts == Counts.Tally(Counts.Empty(), counted)
    }

    /** The counter starts empty for each spider. */
    constructor ()
      ensures Valid() && headingCounts == Counts.Empty() && counted == []
    {
      headingCounts := Counts.Empty();
      counted := [];
    }

    /** `parse`: each non-empty heading text adds one to its count. */
    method Parse(texts: seq<string>)
      requires Valid()
      modifies this
      ensures Valid()
      ensures counted == old(counted) + Counted(texts)
      ensures headingCounts == Counts.Tally(old(headingCounts), Counted(texts))
    {
      var counts := CountHeadings(headingCounts, texts);
      headingCounts := counts;
      counted := counted + Counted(texts);
      assert texts[..|texts|] == texts;
      Counts.TallyConcat(Counts.Empty(), old(counted), Counted(texts));
      Counts.TallyCounts(Counts.Empty(), counted);
    }
  }

  /**
   * What a valid spider's counter says: each heading's count is the number of
   * times it was counted, no heading is the empty text, and the total is the
   * number of headings counted.
   */
  lemma CounterMeaning(counted: seq<string>, k: string)
    ensures Counts.Get(Counts.Tally(Counts.Empty(), counted), k) == multiset(counted)[k]
    ensures Counts.Total(Counts.Tally(Counts.Empty(), counted)) == |counted|
  {
    Counts.TallyCounts(Counts.Empty(), counted);
  }

  /** Parsing a page never lowers a count; the total grows by the number of non-empty headings on it. */
  lemma ParseMonotone(d: Counts.Dict<string>, texts: seq<string>, k: string)
    requires Counts.Valid(d)
    ensures Counts.Get(Counts.Tally(d, Counted(texts)), k) >= Counts.Get(d, k)
    ensures Counts.Get(Counts.Tally(d, Counted(texts)), k) == Counts.Get(d, k) + (if k == "" then 0 else multiset(texts)[k])
    ensures Counts.Total(Counts.Tally(d, Counted(texts))) == Counts.Total(d) + |Counted(texts)|
  {
    Counts.TallyCounts(d, Counted(texts));
    CountedOccurrences(texts);
  }
}
