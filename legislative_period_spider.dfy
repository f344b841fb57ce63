/**
 * `LegislativePeriodSpider` (bundestags_scraper/spiders/legislative_period_spider.py):
 * reads the list of member lists into one legislative-period record per link
 * whose text names a "Wahlperiode".
 *
 * A list row is given as its `<a>` elements in document order, each with its
 * `href` attribute (None when absent) and the `normalize-space(text())` of the
 * element. `response.urljoin` is a parameter.
 */
module LegislativePeriodSpider {
  import opened Wrappers
  import opened PyStr
  import opened Items
  import opened BaseSpider

  // ----- the period-number pattern ----------------------------------------------

  /** The end of the run of decimal digits starting at `i`. */
  function DigitRunEnd(s: string, i: nat): (j: nat)
    requires i <= |s|
    ensures i <= j <= |s|
    decreases |s| - i
  {
    if i < |s| && IsDigit(s[i]) then DigitRunEnd(s, i + 1) else i
  }

  /** The run is all digits, and ends before a non-digit or at the end. */
  lemma {:induction false} DigitRun(s: string, i: nat)
    requires i <= |s|
    ensures forall k :: i <= k < DigitRunEnd(s, i) ==> IsDigit(s[k])
    ensures DigitRunEnd(s, i) < |s| ==> !IsDigit(s[DigitRunEnd(s, i)])
    decreases |s| - i
  {
    if i < |s| && IsDigit(s[i]) {
      DigitRun(s, i + 1);
    }
  }

  /** The end of the run of whitespace starting at `i`. */
  function SpaceRunEnd(s: string, i: nat): (j: nat)
    requires i <= |s|
    ensures i <= j <= |s|
    decreases |s| - i
  {
    if i < |s| && IsSpace(s[i]) then SpaceRunEnd(s, i + 1) else i
  }

  const Marker := "Wahlperiode)"

  /**
   * `\((\d+)\.\s*Wahlperiode\)` matches at `i`. Neither `.` nor `W` is a digit or
   * whitespace, so `\d+` and `\s*` can only match their whole runs.
   */
  predicate MatchesAt(s: string, i: nat)
    requires i <= |s|
  {
    && i < |s| && s[i] == '('
    && var j := DigitRunEnd(s, i + 1);
    && j > i + 1 && j < |s| && s[j] == '.'
    && Marker <= s[SpaceRunEnd(s, j + 1)..]
  }

  /** The digit group of a match at `i`. */
  function GroupAt(s: string, i: nat): (g: string)
    requires i <= |s| && MatchesAt(s, i)
    ensures g != [] && AllDigits(g)
  {
    var g := s[i + 1..DigitRunEnd(s, i + 1)];
    DigitRun(s, i + 1);
    assert forall m :: 0 <= m < |g| ==> g[m] == s[i + 1 + m];
    g
  }

  /** `re.search` from `i` on: the index of the leftmost match, None when there is none. */
  function FindMatch(s: string, i: nat): (r: Option<nat>)
    requires i <= |s|
    ensures r.Some? ==> i <= r.value < |s| && MatchesAt(s, r.value)
    ensures r.Some? ==> forall m :: i <= m < r.value ==> !MatchesAt(s, m)
    ensures r.None? ==> forall k :: i <= k <= |s| ==> !MatchesAt(s, k)
    decreases |s| - i
  {
    if i == |s| then None
    else if MatchesAt(s, i) then Some(i)
    else FindMatch(s, i + 1)
  }

  /** `m.group(1) if m else None` for the period pattern. */
  function PeriodNumber(text: string): (r: Value)
    ensures r.Some? ==> r.value != [] && AllDigits(r.value)
  {
    var m := FindMatch(text, 0);
    if m.Some? then Some(GroupAt(text, m.value)) else None
  }

  /** A text with a period number also contains "Wahlperiode". */
  lemma PeriodNumberNamesPeriod(text: string)
    requires PeriodNumber(text).Some?
    ensures Contains(text, "Wahlperiode")
  {
    var k := FindMatch(text, 0).value;
    var p := SpaceRunEnd(text, DigitRunEnd(text, k + 1) + 1);
    assert Marker <= text[p..];
    assert p + 11 <= |text| && text[p..p + 11] == Marker[..11];
    ContainsOccurs(text, "Wahlperiode", p);
  }

  lemma {:induction false} DigitRunOf(s: string, i: nat, n: nat)
    requires i + n <= |s|
    requires forall k :: i <= k < i + n ==> IsDigit(s[k])
    requires i + n < |s| ==> !IsDigit(s[i + n])
    ensures DigitRunEnd(s, i) == i + n
    decreases n
  {
    if n > 0 {
      DigitRunOf(s, i + 1, n - 1);
    }
  }

  lemma {:induction false} SpaceRunOf(s: string, i: nat, n: nat)
    requires i + n <= |s|
    requires forall k :: i <= k < i + n ==> IsSpace(s[k])
    requires i + n < |s| ==> !IsSpace(s[i + n])
    ensures SpaceRunEnd(s, i) == i + n
    decreases n
  {
    if n > 0 {
      SpaceRunOf(s, i + 1, n - 1);
    }
  }

  lemma {:induction false} FindPeriodSkips(s: string, i: nat, j: nat)
    requires i <= j <= |s|
    requires forall k :: i <= k < j ==> s[k] != '('
    ensures FindMatch(s, i) == FindMatch(s, j)
    decreases j - i
  {
    if i < j {
      assert !MatchesAt(s, i);
      FindPeriodSkips(s, i + 1, j);
    }
  }

  /**
   * The leftmost '(' of a text opens `(digits.` followed by whitespace and
   * "Wahlperiode)": the digits are its period number.
   */
  lemma PeriodNumberAt(s: string, a: nat, n: nat, w: nat)
    requires a + n + w + 14 <= |s|
    requires forall k :: 0 <= k < a ==> s[k] != '('
    requires s[a] == '(' && n > 0 && s[a + n + 1] == '.'
    requires forall k :: a < k < a + n + 1 ==> IsDigit(s[k])
    requires forall k :: a + n + 1 < k < a + n + 2 + w ==> IsSpace(s[k])
    requires s[a + n + 2 + w..a + n + 14 + w] == Marker
    ensures PeriodNumber(s) == Some(s[a + 1..a + n + 1])
  {
    DigitRunOf(s, a + 1, n);
    SpaceRunOf(s, a + n + 2, w);
    assert MatchesAt(s, a);
    FindPeriodSkips(s, 0, a);
  }

  /** So `... (19. Wahlperiode) ...`, with no parenthesis before the group, has period number "19". */
  lemma PeriodNumberOf(before: string, digits: string, spaces: string, after: string)
    requires '(' !in before
    requires digits != [] && AllDigits(digits) && AllSpace(spaces)
    ensures PeriodNumber(before + "(" + digits + "." + spaces + Marker + after) == Some(digits)
  {
    var s := before + "(" + digits + "." + spaces + Marker + after;
    var a, n, w := |before|, |digits|, |spaces|;
    forall k | 0 <= k < a ensures s[k] != '(' {
      assert s[k] == before[k];
      assert before[k] in before;
    }
    forall k | a < k < a + n + 1 ensures IsDigit(s[k]) {
      assert s[k] == digits[k - a - 1];
    }
    forall k | a + n + 1 < k < a + n + 2 + w ensures IsSpace(s[k]) {
      assert s[k] == spaces[k - a - n - 2];
    }
    assert s[a + n + 2 + w..a + n + 14 + w] == Marker;
    assert s[a + 1..a + n + 1] == digits;
    PeriodNumberAt(s, a, n, w);
  }

  /** A text without any '(' has no period number. */
  lemma {:induction false} NoParenNoPeriod(s: string, i: nat)
    requires i <= |s| && '(' !in s
    ensures FindMatch(s, i) == None
    decreases |s| - i
  {
    if i < |s| {
      assert s[i] in s;
      NoParenNoPeriod(s, i + 1);
    }
  }

  // ----- rows -------------------------------------------------------------------

  /** One `<a>` of a list row. */
  datatype Anchor = Anchor(href: Value, text: string)

  /** `a_tag.xpath('@href').get()`: the first `href` among the row's links. */
  function FirstHref(anchors: seq<Anchor>): (h: Value)
    ensures h.Some? <==> exists k :: 0 <= k < |anchors| && anchors[k].href.Some?
    ensures h.Some? ==> exists k :: 0 <= k < |anchors| && anchors[k].href == h
                                    && forall m :: 0 <= m < k ==> anchors[m].href.None?
  {
    if anchors == [] then None
    else if anchors[0].href.Some? then anchors[0].href
    else
      var h := FirstHref(anchors[1..]);
      assert forall k :: 1 <= k < |anchors| ==> anchors[k] == anchors[1..][k - 1];
      h
  }

  /** The record for a period link. */
  function PeriodItem(text: string, href: string, url: string, urljoin: string -> string): (r: Item)
    ensures r.cls == LegislativePeriodItem && WellFormed(r)
    ensures Get(r.data, "item_type") == Some("legislative_period")
    ensures Get(r.data, "period_number") == PeriodNumber(text)
    ensures Get(r.data, "name") == Some(text)
    ensures "start_date" in r.data && r.data["start_date"] == None
    ensures "end_date" in r.data && r.data["end_date"] == None
    ensures Get(r.data, "source_page") == Some(url)
    ensures Get(r.data, "detail_page") == Some(urljoin(href))
  {
    Item(LegislativePeriodItem, map["item_type" := Some("legislative_period"), "period_number" := PeriodNumber(text),
                                    "name" := Some(text), "start_date" := None, "end_date" := None,
                                    "source_page" := Some(url), "detail_page" := Some(urljoin(href))])
  }

  /**
   * The record a row yields: only for a row with a link whose `href` and text are
   * non-empty and whose text contains "Wahlperiode".
   */
  function RowPeriod(row: seq<Anchor>, url: string, urljoin: string -> string): (r: Option<Item>)
    ensures r.Some? <==> row != [] && Truthy(FirstHref(row)) && row[0].text != "" && Contains(row[0].text, "Wahlperiode")
    ensures r.Some? ==> r.value == PeriodItem(row[0].text, FirstHref(row).value, url, urljoin)
  {
    if row == [] then None
    else
      var href := FirstHref(row);
      var text := row[0].text;
      if Truthy(href) && text != "" && Contains(text, "Wahlperiode") then Some(PeriodItem(text, href.value, url, urljoin))
      else None
  }

  /** The records the rows yield, in row order. */
  function PeriodItems(rows: seq<seq<Anchor>>, url: string, urljoin: string -> string): (items: seq<Item>)
    ensures |items| <= |rows|
  {
    if rows == [] then []
    else
      var r := RowPeriod(rows[|rows| - 1], url, urljoin);
      PeriodItems(rows[..|rows| - 1], url, urljoin) + (if r.Some? then [r.value] else [])
  }

  /** Rows are read independently and in order: the records of two row lists concatenate. */
  lemma {:induction false} PeriodItemsConcat(a: seq<seq<Anchor>>, b: seq<seq<Anchor>>, url: string, urljoin: string -> string)
    ensures PeriodItems(a + b, url, urljoin) == PeriodItems(a, url, urljoin) + PeriodItems(b, url, urljoin)
    decreases |b|
  {
    if b == [] {
      assert a + b == a;
    } else {
      var b0 := b[..|b| - 1];
      assert (a + b)[..|a + b| - 1] == a + b0;
      assert (a + b)[|a + b| - 1] == b[|b| - 1];
      PeriodItemsConcat(a, b0, url, urljoin);
    }
  }

  /** Every record comes from a row that passes the filter, and each is a period record of this page. */
  lemma {:induction false} PeriodItemsFrom(rows: seq<seq<Anchor>>, url: string, urljoin: string -> string)
    ensures forall it :: it in PeriodItems(rows, url, urljoin) ==>
              exists k :: 0 <= k < |rows| && RowPeriod(rows[k], url, urljoin) == Some(it)
  {
    if rows != [] {
      var front := rows[..|rows| - 1];
      PeriodItemsFrom(front, url, urljoin);
      forall it | it in PeriodItems(rows, url, urljoin)
        ensures exists k :: 0 <= k < |rows| && RowPeriod(rows[k], url, urljoin) == Some(it)
      {
        if it in PeriodItems(front, url, urljoin) {
          var k :| 0 <= k < |front| && RowPeriod(front[k], url, urljoin) == Some(it);
          assert rows[k] == front[k];
        } else {
          assert RowPeriod(rows[|rows| - 1], url, urljoin) == Some(it);
        }
      }
    }
  }

  /** Every record is a well-formed period record of `url`, start and end dates unset. */
  lemma PeriodItemsShape(rows: seq<seq<Anchor>>, url: string, urljoin: string -> string)
    ensures forall it :: it in PeriodItems(rows, url, urljoin) ==>
              && it.cls == LegislativePeriodItem && WellFormed(it)
              && Get(it.data, "source_page") == Some(url)
              && Get(it.data, "start_date") == None && Get(it.data, "end_date") == None
              && Truthy(Get(it.data, "name")) && Contains(Get(it.data, "name").value, "Wahlperiode")
  {
    PeriodItemsFrom(rows, url, urljoin);
  }

  /** The body of the row loop of `parse`: the record one row yields, if any. */
  method ParseRow(row: seq<Anchor>, url: string, urljoin: string -> string) returns (r: Option<Item>)
    ensures r == RowPeriod(row, url, urljoin)
  {
    r := None;
    if row != [] {
      var href := FirstHref(row);
      var text := row[0].text;
      if Truthy(href) && text != "" && Contains(text, "Wahlperiode") {
        r := Some(PeriodItem(text, href.value, url, urljoin));
      }
    }
  }

  /** The row loop of `parse`: the records of the rows that pass the filter, in row order. */
  method ParseRows(rows: seq<seq<Anchor>>, url: string, urljoin: string -> string) returns (items: seq<Item>)
    ensures items == PeriodItems(rows, url, urljoin)
  {
    items := [];
    for i := 0 to |rows|
      invariant items == PeriodItems(rows[..i], url, urljoin)
    {
      assert rows[..i + 1][..i] == rows[..i];
      var r := ParseRow(rows[i], url, urljoin);
      if r.Some? {
        items := items + [r.value];
      }
    }
    assert rows[..|rows|] == rows;
  }

  /**
   * `parse(response)`: the source records first; then, on a Wikipedia domain
   * only, one record per row that passes the filter, in row order.
   */
  method Parse(spider: SourceMixin, resp: Response, rows: seq<seq<Anchor>>, urljoin: string -> string)
    returns (items: seq<Item>)
    modifies spider
    ensures spider.seenDomains == old(spider.seenDomains) + {spider.netloc(resp.url)}
    ensures spider.missingLog == old(spider.missingLog)
    ensures items == SourceItems(old(spider.seenDomains), resp, spider.netloc(resp.url))
                     + (if Contains(spider.netloc(resp.url), "wikipedia.org") then PeriodItems(rows, resp.url, urljoin) else [])
  {
    items := spider.AddSourcePage(resp);
    var domain := spider.GetDomain(resp);
    if !Contains(domain, "wikipedia.org") {
      return;
    }
    var periods := ParseRows(rows, resp.url, urljoin);
    items := items + periods;
  }
}
