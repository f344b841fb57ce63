/**
 * `PoliticianContentSpider` (bundestags_scraper/spiders/politician_contant_spider.py):
 * splits a politician's Wikipedia article into sections keyed by their `h2`
 * titles and yields one content record per section.
 *
 * The article is given as the children of the content containers, in document
 * order, each as what the spider reads of it (see `Elem`). The Neo4j query that
 * lists the detail pages is given as its sorted result.
 */
module PoliticianContentSpider {
  import opened Wrappers
  import opened PyStr
  import opened Items
  import opened BaseSpider

  // ----- start_requests ---------------------------------------------------------

  const BatchSize := 2000

  /**
   * `SKIP $skip LIMIT $limit` over the sorted detail pages; None for a negative
   * skip, which the database refuses.
   */
  function Page(urls: seq<string>, batch: int): (r: Option<seq<string>>)
    ensures r.Some? <==> batch >= 0
    ensures r.Some? ==> |r.value| <= BatchSize
  {
    var skip, limit := batch * BatchSize, BatchSize;
    if skip < 0 then None
    else if skip >= |urls| then Some([])
    else if skip + limit >= |urls| then Some(urls[skip..])
    else Some(urls[skip..skip + limit])
  }

  /** The batches `0 .. n - 1` together request every detail page of the first `n` windows, once and in order. */
  lemma {:induction false} PagesCover(urls: seq<string>, n: nat)
    ensures Pages(urls, n) == urls[..if n * BatchSize <= |urls| then n * BatchSize else |urls|]
  {
    if n > 0 {
      PagesCover(urls, n - 1);
      var lo := (n - 1) * BatchSize;
      var hi := n * BatchSize;
      if lo >= |urls| {
      } else if hi >= |urls| {
        assert urls[..lo] + urls[lo..] == urls[..|urls|];
      } else {
        assert urls[..lo] + urls[lo..hi] == urls[..hi];
      }
    }
  }

  /** The pages of batches `0 .. n - 1`, concatenated. */
  function Pages(urls: seq<string>, n: nat): seq<string> {
    if n == 0 then [] else Pages(urls, n - 1) + Page(urls, n - 1).value
  }

  // ----- parse ------------------------------------------------------------------

  /**
   * A child of the content container: its tag, its `id` attribute, the first text
   * inside an `h2` below it (None when it has no `h2`, "" when the `h2` holds no
   * text) and its string value.
   */
  datatype Elem = Elem(tag: string, id: Value, h2: Option<string>, text: string)

  const Normdaten := "normdaten"
  const FirstHeader := "#"

  /** The loop state of `parse`: the current section, the sections in insertion order and their pieces. */
  datatype Grouping = Grouping(current: string, order: seq<string>, pieces: map<string, seq<string>>)

  /** Distinct entries. */
  predicate Distinct(s: seq<string>) {
    forall i, j :: 0 <= i < j < |s| ==> s[i] != s[j]
  }

  /** The shape `parse` keeps: '#' first, each section once, pieces for exactly the listed ones. */
  ghost predicate ValidGrouping(g: Grouping) {
    && |g.order| > 0 && g.order[0] == FirstHeader
    && Distinct(g.order)
    && (forall h :: h in g.pieces <==> h in g.order)
    && g.current in g.pieces
  }

  const Start := Grouping(FirstHeader, [FirstHeader], map[FirstHeader := []])

  /** A `div` with an `h2` below it: a section heading. */
  predicate IsHeading(e: Elem) {
    e.tag == "div" && e.h2.Some?
  }

  /** `sections[current] = []` after `current = title`: a new section keeps the first position of its title. */
  function Open(g: Grouping, title: string): Grouping {
    Grouping(title, if title in g.pieces then g.order else g.order + [title], g.pieces[title := []])
  }

  /** One child of the loop, before the `normdaten` check. */
  function Step(g: Grouping, e: Elem): (r: Grouping)
    requires g.current in g.pieces
    ensures r.current in r.pieces
  {
    if IsHeading(e) then
      var title := Strip(e.h2.value);
      if title != "" then Open(g, title) else g
    else if e.text != "" then
      g.(pieces := g.pieces[g.current := g.pieces[g.current] + [NormalizeWs(e.text)]])
    else g
  }

  /** Every step keeps the grouping valid. */
  lemma StepValid(g: Grouping, e: Elem)
    requires ValidGrouping(g)
    ensures ValidGrouping(Step(g, e))
  {
    if IsHeading(e) && Strip(e.h2.value) != "" {
      var t := Strip(e.h2.value);
      if t !in g.pieces {
        var o := g.order + [t];
        forall i, j | 0 <= i < j < |o| ensures o[i] != o[j] {
          if j == |g.order| {
            assert o[i] == g.order[i] && g.order[i] in g.pieces;
          }
        }
      }
    }
  }

  /** The children before the first `normdaten` one. */
  function UntilNormdaten(es: seq<Elem>): (r: seq<Elem>)
    ensures r <= es
    ensures forall k :: 0 <= k < |r| ==> r[k].id != Some(Normdaten)
    ensures |r| < |es| ==> es[|r|].id == Some(Normdaten)
  {
    if es == [] || es[0].id == Some(Normdaten) then []
    else
      var rest := UntilNormdaten(es[1..]);
      assert forall k :: 1 <= k <= |rest| ==> es[k] == es[1..][k - 1];
      [es[0]] + rest
  }

  /** The grouping after the steps over `es`. */
  function Fold(es: seq<Elem>): (g: Grouping)
    ensures g.current in g.pieces
  {
    if es == [] then Start else Step(Fold(es[..|es| - 1]), es[|es| - 1])
  }

  lemma {:induction false} FoldValid(es: seq<Elem>)
    ensures ValidGrouping(Fold(es))
  {
    if es != [] {
      FoldValid(es[..|es| - 1]);
      StepValid(Fold(es[..|es| - 1]), es[|es| - 1]);
    }
  }

  /** The grouping `parse` builds from the children. */
  function Scan(children: seq<Elem>): Grouping {
    Fold(UntilNormdaten(children))
  }

  /** Children from the first `normdaten` one on contribute nothing. */
  lemma ScanStopsAtNormdaten(before: seq<Elem>, stop: Elem, after: seq<Elem>)
    requires forall k :: 0 <= k < |before| ==> before[k].id != Some(Normdaten)
    requires stop.id == Some(Normdaten)
    ensures Scan(before + [stop] + after) == Fold(before)
  {
    var es := before + [stop] + after;
    var u := UntilNormdaten(es);
    assert es[|before|] == stop;
    assert u == before;
  }

  /** A heading with a non-empty title opens its section empty; its own text is never kept. */
  lemma HeadingResets(g: Grouping, e: Elem)
    requires g.current in g.pieces && IsHeading(e) && Strip(e.h2.value) != ""
    ensures Step(g, e).current == Strip(e.h2.value)
    ensures Step(g, e).pieces == g.pieces[Strip(e.h2.value) := []]
    ensures Strip(e.h2.value) in g.pieces ==> Step(g, e).order == g.order
  {
  }

  /** A heading with an empty title changes nothing. */
  lemma EmptyHeadingIgnored(g: Grouping, e: Elem)
    requires g.current in g.pieces && IsHeading(e) && Strip(e.h2.value) == ""
    ensures Step(g, e) == g
  {
  }

  /** Any other child with text appends its normalised text to the current section, and only there. */
  lemma TextAppends(g: Grouping, e: Elem)
    requires g.current in g.pieces && !IsHeading(e) && e.text != ""
    ensures Step(g, e).current == g.current && Step(g, e).order == g.order
    ensures Step(g, e).pieces[g.current] == g.pieces[g.current] + [NormalizeWs(e.text)]
    ensures forall h :: h in g.pieces && h != g.current ==> Step(g, e).pieces[h] == g.pieces[h]
  {
  }

  /** A section's content: its pieces on separate lines, stripped. */
  function SectionText(pieces: seq<string>): string {
    Strip(Join(pieces, "\n"))
  }

  /** The content record of one section. */
  function ContentItem(url: string, header: string, content: string): (r: Item)
    ensures r.cls == PoliticianContent && WellFormed(r)
    ensures Get(r.data, "item_type") == Some("politician_content")
    ensures Get(r.data, "source_page") == Some(url)
    ensures Get(r.data, "section_header") == Some(header)
    ensures Get(r.data, "section_content") == Some(content)
  {
    Item(PoliticianContent, map["item_type" := Some("politician_content"), "source_page" := Some(url),
                                "section_header" := Some(header), "section_content" := Some(content)])
  }

  /** One record per section, in insertion order. */
  function GroupItems(url: string, order: seq<string>, pieces: map<string, seq<string>>): (items: seq<Item>)
    requires forall h :: h in order ==> h in pieces
    ensures |items| == |order|
  {
    seq(|order|, k requires 0 <= k < |order| => ContentItem(url, order[k], SectionText(pieces[order[k]])))
  }

  /** The content records of a page with these container children: none without children. */
  function SectionItems(url: string, children: seq<Elem>): seq<Item> {
    if children == [] then []
    else
      var g := Scan(children);
      FoldValid(UntilNormdaten(children));
      GroupItems(url, g.order, g.pieces)
  }

  /**
   * A page with children yields one record per distinct section header, the
   * first for '#', each with the page's URL.
   */
  lemma SectionItemsHeaders(url: string, children: seq<Elem>)
    requires children != []
    ensures |SectionItems(url, children)| == |Scan(children).order| >= 1
    ensures Get(SectionItems(url, children)[0].data, "section_header") == Some(FirstHeader)
    ensures forall i, j :: 0 <= i < j < |SectionItems(url, children)| ==>
              Get(SectionItems(url, children)[i].data, "section_header") != Get(SectionItems(url, children)[j].data, "section_header")
    ensures forall i :: 0 <= i < |SectionItems(url, children)| ==>
              Get(SectionItems(url, children)[i].data, "source_page") == Some(url)
  {
    var g := Scan(children);
    FoldValid(UntilNormdaten(children));
    var items := SectionItems(url, children);
    forall i | 0 <= i < |items| ensures Get(items[i].data, "section_header") == Some(g.order[i]) {
    }
  }

  /** The children of all content containers, in document order. */
  function Children(containers: seq<seq<Elem>>): seq<Elem> {
    if containers == [] then [] else Children(containers[..|containers| - 1]) + containers[|containers| - 1]
  }

  /** The container children: none without a container, none when every container is empty. */
  lemma {:induction false} ChildrenEmpty(containers: seq<seq<Elem>>)
    ensures Children(containers) == [] <==> (forall k :: 0 <= k < |containers| ==> containers[k] == [])
  {
    if containers != [] {
      ChildrenEmpty(containers[..|containers| - 1]);
      var front := containers[..|containers| - 1];
      assert forall k :: 0 <= k < |front| ==> front[k] == containers[k];
    }
  }

  /** The first loop of `parse`: group the children up to the first `normdaten` one. */
  method GroupSections(children: seq<Elem>) returns (current: string, order: seq<string>, sections: map<string, seq<string>>)
    ensures Grouping(current, order, sections) == Scan(children)
  {
    current := FirstHeader;
    order := [FirstHeader];
    sections := map[FirstHeader := []];
    var i := 0;
    while i < |children|
      invariant 0 <= i <= |children|
      invariant forall k :: 0 <= k < i ==> children[k].id != Some(Normdaten)
      invariant Grouping(current, order, sections) == Fold(children[..i])
    {
      var elem := children[i];
      if elem.id == Some(Normdaten) {
        break;
      }
      assert children[..i + 1][..i] == children[..i];
      var g := Step(Grouping(current, order, sections), elem);
      current, order, sections := g.current, g.order, g.pieces;
      i := i + 1;
    }
    assert UntilNormdaten(children) == children[..i] by {
      var u := UntilNormdaten(children);
      assert |u| == i;
    }
  }

  /** The second loop of `parse`: every section's pieces joined into its content. */
  method JoinSections(order: seq<string>, sections: map<string, seq<string>>) returns (contents: map<string, string>)
    requires forall h :: h in order ==> h in sections
    ensures forall h :: h in contents <==> h in order
    ensures forall h :: h in contents ==> contents[h] == SectionText(sections[h])
  {
    contents := map[];
    for k := 0 to |order|
      invariant forall h :: h in contents <==> h in order[..k]
      invariant forall h :: h in contents ==> contents[h] == SectionText(sections[h])
    {
      assert order[..k + 1] == order[..k] + [order[k]];
      contents := contents[order[k] := SectionText(sections[order[k]])];
    }
    assert order[..|order|] == order;
  }

  /** The last loop of `parse`: one content record per section, in insertion order. */
  method YieldSections(url: string, order: seq<string>, sections: map<string, seq<string>>, contents: map<string, string>)
    returns (items: seq<Item>)
    requires forall h :: h in order ==> h in sections && h in contents && contents[h] == SectionText(sections[h])
    ensures items == GroupItems(url, order, sections)
  {
    items := [];
    for k := 0 to |order|
      invariant |items| == k
      invariant forall m :: 0 <= m < k ==> items[m] == ContentItem(url, order[m], SectionText(sections[order[m]]))
    {
      items := items + [ContentItem(url, order[k], contents[order[k]])];
    }
  }

  /**
   * `parse(response)`: the source records, then, when the containers have
   * children, one content record per section in insertion order.
   */
  method Parse(spider: SourceMixin, resp: Response, containers: seq<seq<Elem>>) returns (items: seq<Item>)
    modifies spider
    ensures spider.seenDomains == old(spider.seenDomains) + {spider.netloc(resp.url)}
    ensures spider.missingLog == old(spider.missingLog)
    ensures items == SourceItems(old(spider.seenDomains), resp, spider.netloc(resp.url))
                     + SectionItems(resp.url, Children(containers))
  {
    items := spider.AddSourcePage(resp);
    var children := Children(containers);
    if children == [] {
      return;
    }
    var current, order, sections := GroupSections(children);
    FoldValid(UntilNormdaten(children));
    var contents := JoinSections(order, sections);
    var records := YieldSections(resp.url, order, sections, contents);
    items := items + records;
  }
}
