/**
 * Properties of the write helpers of `Neo4jPipeline`
 * (bundestags_scraper/pipelines.py): what each leaves in the graph, which fields a
 * repeat sighting fills and which it never touches, which edges depend on nodes
 * written by earlier items, idempotence and growth.
 */
module PipelineProperties {
  import opened Wrappers
  import opened PyStr
  import opened Items
  import opened Identity
  import opened GraphStore
  import opened PipelinePlans

  // ---------------------------------------------------------------------
  // _ensure_page
  // ---------------------------------------------------------------------

  lemma RunAll3(g: Graph, a: Statement, b: Statement, c: Statement)
    ensures RunAll(g, [a, b, c]) == Apply(Apply(Apply(g, a), b), c)
  {
    assert [a, b, c] == [a] + ([b] + ([c] + []));
    RunAllCons(g, a, [b] + ([c] + []));
    RunAllCons(Apply(g, a), b, [c] + []);
    RunAllCons(Apply(Apply(g, a), b), c, []);
  }

  /** The page statement in `_ensure_page`: the title is filled when absent, the html only set on creation. */
  function EnsuredPage(g: Graph, url: string, title: Attr, html: Attr): PageNode {
    if url in g.pages then PageNode(Coalesce(g.pages[url].title, title), g.pages[url].html)
    else PageNode(title, html)
  }

  /**
   * After `_ensure_page(url, title, html)` there is a Domain named after the URL's
   * host, a Page with that URL and the BELONGS_TO_DOMAIN edge; nothing else changes.
   */
  lemma EnsurePageEffect(g: Graph, netloc: string -> string, url: string, title: Attr, html: Attr)
    ensures var h := RunAll(g, EnsurePagePlan(netloc, url, title, html));
            var domain := netloc(url);
            && domain in h.domains && url in h.pages
            && Edge(BelongsToDomain, PageRef(url), DomainRef(domain)) in h.edges
            && h.pages == g.pages[url := EnsuredPage(g, url, title, html)]
            && h.domains == (if domain in g.domains then g.domains else g.domains[domain := DomainNode(None)])
            && h.edges == g.edges + {Edge(BelongsToDomain, PageRef(url), DomainRef(domain))}
            && h.periods == g.periods && h.politicians == g.politicians && h.mandates == g.mandates
            && h.contents == g.contents && h.parties == g.parties && h.states == g.states
            && h.constituencies == g.constituencies
  {
    var domain := netloc(url);
    var e := Edge(BelongsToDomain, PageRef(url), DomainRef(domain));
    RunAll3(g, MergeDomain(domain, None), MergePage(url, title, html, false), MatchMerge({e}));
    var g1 := Apply(g, MergeDomain(domain, None));
    assert g1 == g.(domains := if domain in g.domains then g.domains else g.domains[domain := DomainNode(None)]);
    var g2 := Apply(g1, MergePage(url, title, html, false));
    assert g2 == g1.(pages := g.pages[url := EnsuredPage(g, url, title, html)]);
    assert Matches(g2, {e});
  }

  /** `EnsurePagePlan` as a list built from its first statements. */
  lemma EnsurePageUnfold(netloc: string -> string, url: string, title: Attr, html: Attr)
    ensures var domain := netloc(url);
            var e := Edge(BelongsToDomain, PageRef(url), DomainRef(domain));
            EnsurePagePlan(netloc, url, title, html)
              == [MergeDomain(domain, None)] + ([MergePage(url, title, html, false)] + ([MatchMerge({e})] + []))
  {
  }

  /** The nodes and edges `_ensure_page` merges. */
  lemma EnsurePageCreates(netloc: string -> string, url: string, title: Attr, html: Attr)
    ensures CreatedAll(EnsurePagePlan(netloc, url, title, html)) == {DomainRef(netloc(url)), PageRef(url)}
    ensures Labels(EnsurePagePlan(netloc, url, title, html)) == {Domain, Page}
    ensures PartiesOf(EnsurePagePlan(netloc, url, title, html)) == {}
    ensures StatesOf(EnsurePagePlan(netloc, url, title, html)) == {}
    ensures ConstituenciesOf(EnsurePagePlan(netloc, url, title, html)) == {}
    ensures EdgesOf(EnsurePagePlan(netloc, url, title, html)) == {Edge(BelongsToDomain, PageRef(url), DomainRef(netloc(url)))}
  {
    var domain := netloc(url);
    var e := Edge(BelongsToDomain, PageRef(url), DomainRef(domain));
    EnsurePageUnfold(netloc, url, title, html);
    Cons(MergeDomain(domain, None), [MergePage(url, title, html, false)] + ([MatchMerge({e})] + []));
    Cons(MergePage(url, title, html, false), [MatchMerge({e})] + []);
    Cons(MatchMerge({e}), []);
  }

  lemma EnsurePageOrdered(made: set<NodeRef>, netloc: string -> string, url: string, title: Attr, html: Attr, outside: set<NodeRef>)
    ensures WellOrdered(made, EnsurePagePlan(netloc, url, title, html), outside)
  {
    var domain := netloc(url);
    var e := Edge(BelongsToDomain, PageRef(url), DomainRef(domain));
    EnsurePageUnfold(netloc, url, title, html);
    Cons(MergeDomain(domain, None), [MergePage(url, title, html, false)] + ([MatchMerge({e})] + []));
    Cons(MergePage(url, title, html, false), [MatchMerge({e})] + []);
    Cons(MatchMerge({e}), []);
    NeedsOne(e);
  }

  // ---------------------------------------------------------------------
  // _dom
  // ---------------------------------------------------------------------

  /** `_dom` fails exactly on a missing or None domain. */
  lemma DomFails(d: Fields)
    ensures DomPlan(d).Failure? <==> "domain" !in d || d["domain"].None?
    ensures "domain" !in d ==> DomPlan(d) == Failure(KeyError("domain"))
  {
  }

  /** `_dom` creates the Domain with its description, and never changes an existing one. */
  lemma DomEffect(g: Graph, d: Fields)
    requires DomPlan(d).Success?
    ensures var name := d["domain"].value;
            var h := RunAll(g, DomPlan(d).value);
            h == g.(domains := if name in g.domains then g.domains
                               else g.domains[name := DomainNode(Get(d, "description"))])
  {
    RunAllSingle(g, DomPlan(d).value[0]);
    assert DomPlan(d).value == [DomPlan(d).value[0]];
  }

  // ---------------------------------------------------------------------
  // _page
  // ---------------------------------------------------------------------

  lemma PageFails(p: Fields)
    ensures PagePlan(p).Failure? <==> "url" !in p || "source_domain" !in p || p["url"].None?
    ensures "url" !in p ==> PagePlan(p) == Failure(KeyError("url"))
  {
  }

  /** The page statement in `_page`: title and html are both filled when absent. */
  function FilledPage(g: Graph, url: string, title: Attr, html: Attr): PageNode {
    if url in g.pages then PageNode(Coalesce(g.pages[url].title, title), Coalesce(g.pages[url].html, html))
    else PageNode(title, html)
  }

  /**
   * `_page` always merges the Page, filling title and html when absent, and adds
   * the BELONGS_TO_DOMAIN edge, and no other edge, only when the named Domain
   * already exists.
   */
  lemma PageEffect(g: Graph, p: Fields)
    requires Valid(g)
    requires PagePlan(p).Success?
    ensures var url := p["url"].value;
            var dom := p["source_domain"];
            var h := RunAll(g, PagePlan(p).value);
            && h.pages == g.pages[url := FilledPage(g, url, Get(p, "title"), Get(p, "full_html"))]
            && h.domains == g.domains
            && (dom.Some? ==> (Edge(BelongsToDomain, PageRef(url), DomainRef(dom.value)) in h.edges <==> dom.value in g.domains))
            && (dom.Some? ==> h.edges == g.edges + (if dom.value in g.domains then {Edge(BelongsToDomain, PageRef(url), DomainRef(dom.value))} else {}))
            && (dom.None? ==> h.edges == g.edges)
            && h.periods == g.periods && h.politicians == g.politicians && h.mandates == g.mandates
            && h.contents == g.contents
  {
    var url := p["url"].value;
    var dom := p["source_domain"];
    var s0 := MergePage(url, Get(p, "title"), Get(p, "full_html"), true);
    var ss := PagePlan(p).value;
    var g1 := Apply(g, s0);
    assert g1 == g.(pages := g.pages[url := FilledPage(g, url, Get(p, "title"), Get(p, "full_html"))]);
    if dom.Some? {
      var e := Edge(BelongsToDomain, PageRef(url), DomainRef(dom.value));
      assert ss == [s0] + ([MatchMerge({e})] + []);
      RunAllCons(g, s0, [MatchMerge({e})] + []);
      RunAllCons(g1, MatchMerge({e}), []);
      EdgeStep(g1, {e});
      var h := Apply(g1, MatchMerge({e}));
      assert RunAll(g, ss) == h;
      assert Matches(g1, {e}) <==> dom.value in g.domains;
      if e in g.edges {
        assert Present(g, DomainRef(dom.value));
      }
    } else {
      assert ss == [s0] + [];
      RunAllCons(g, s0, []);
    }
  }

  /** Page{url: U, title: None} and then Page{url: U, title: "T"}: the second fills the title. */
  lemma PageTitleFilledLater(g: Graph, u: string, dom: string)
    requires u !in g.pages && Valid(g)
    ensures var first := map["url" := Some(u), "title" := None, "source_domain" := Some(dom)];
            var second := map["url" := Some(u), "title" := Some("T"), "source_domain" := Some(dom)];
            var h1 := RunAll(g, PagePlan(first).value);
            var h2 := RunAll(h1, PagePlan(second).value);
            u in h1.pages && u in h2.pages && h1.pages[u].title == None && h2.pages[u].title == Some("T")
  {
    var first := map["url" := Some(u), "title" := None, "source_domain" := Some(dom)];
    var second := map["url" := Some(u), "title" := Some("T"), "source_domain" := Some(dom)];
    PageEffect(g, first);
    var h1 := RunAll(g, PagePlan(first).value);
    RunAllValid(g, PagePlan(first).value);
    PageEffect(h1, second);
  }

  // ---------------------------------------------------------------------
  // _merge_page
  // ---------------------------------------------------------------------

  /** `_merge_page` is `_ensure_page` on the item's URL, title and html; it fails on a missing or None URL. */
  lemma MergePageFails(netloc: string -> string, p: Fields)
    ensures MergePagePlan(netloc, p).Failure? <==> "url" !in p || p["url"].None?
    ensures MergePagePlan(netloc, p).Success? ==>
              MergePagePlan(netloc, p).value == EnsurePagePlan(netloc, p["url"].value, Get(p, "title"), Get(p, "full_html"))
  {
  }

  // ---------------------------------------------------------------------
  // _period
  // ---------------------------------------------------------------------

  lemma PeriodFails(netloc: string -> string, pr: Fields)
    ensures PeriodPlan(netloc, pr).Failure? <==>
              "period_number" !in pr || "name" !in pr || "start_date" !in pr || "end_date" !in pr
              || pr["period_number"].None?
    ensures "period_number" !in pr ==> PeriodPlan(netloc, pr) == Failure(KeyError("period_number"))
  {
  }

  /** Only pages and domains are merged by a page block, whose edge statements need `needed` and its own page. */
  predicate PageBlock(ss: seq<Statement>) {
    && Labels(ss) <= {Domain, Page}
    && (forall n :: n in CreatedAll(ss) ==> n.DomainRef? || n.PageRef?)
    && PartiesOf(ss) == {} && StatesOf(ss) == {} && ConstituenciesOf(ss) == {}
  }

  /** Page blocks compose. */
  lemma PageBlockConcat(a: seq<Statement>, b: seq<Statement>)
    requires PageBlock(a) && PageBlock(b)
    ensures PageBlock(a + b)
  {
    CreatedAllConcat(a, b);
    LabelsConcat(a, b);
  }

  /** A lone edge statement is a page block. */
  lemma PageBlockEdges(es: set<Edge>)
    ensures PageBlock([MatchMerge(es)])
  {
    ConsSets(MatchMerge(es), []);
    assert [MatchMerge(es)] == [MatchMerge(es)] + [];
  }

  /** `_ensure_page` is a page block. */
  lemma EnsurePageBlock(netloc: string -> string, url: string, title: Attr, html: Attr)
    ensures PageBlock(EnsurePagePlan(netloc, url, title, html))
  {
    EnsurePageCreates(netloc, url, title, html);
  }

  /** A lone page statement is a page block. */
  lemma PageBlockPage(url: string, title: Attr, html: Attr, fillHtml: bool)
    ensures PageBlock([MergePage(url, title, html, fillHtml)])
  {
    ConsSets(MergePage(url, title, html, fillHtml), []);
    assert [MergePage(url, title, html, fillHtml)] == [MergePage(url, title, html, fillHtml)] + [];
  }

  lemma PeriodSourceFacts(g: Graph, netloc: string -> string, nr: string, src: Value, made: set<NodeRef>, outside: set<NodeRef>)
    requires PeriodRef(nr) in made
    ensures PageBlock(PeriodSourcePlan(netloc, nr, src))
    ensures WellOrdered(made, PeriodSourcePlan(netloc, nr, src), outside)
    ensures Truthy(src) && nr in g.periods ==>
              var h := RunAll(g, PeriodSourcePlan(netloc, nr, src));
              src.value in h.pages && Edge(HasSourcePage, PeriodRef(nr), PageRef(src.value)) in h.edges
  {
    PeriodSourceShape(netloc, nr, src, made, outside);
    if Truthy(src) && nr in g.periods {
      PeriodSourceEffect(g, netloc, nr, src.value);
    }
  }

  lemma PeriodSourceShape(netloc: string -> string, nr: string, src: Value, made: set<NodeRef>, outside: set<NodeRef>)
    requires PeriodRef(nr) in made
    ensures PageBlock(PeriodSourcePlan(netloc, nr, src))
    ensures WellOrdered(made, PeriodSourcePlan(netloc, nr, src), outside)
  {
    if Truthy(src) {
      PeriodSourceBlock(netloc, nr, src.value);
      PeriodSourceOrdered(netloc, nr, src.value, made, outside);
    }
  }

  lemma PeriodSourceBlock(netloc: string -> string, nr: string, url: string)
    requires url != ""
    ensures PageBlock(PeriodSourcePlan(netloc, nr, Some(url)))
  {
    var e := Edge(HasSourcePage, PeriodRef(nr), PageRef(url));
    var ens := EnsurePagePlan(netloc, url, None, None);
    assert PeriodSourcePlan(netloc, nr, Some(url)) == ens + [MergePage(url, None, None, false)] + [MatchMerge({e})];
    EnsurePageBlock(netloc, url, None, None);
    PageBlockPage(url, None, None, false);
    PageBlockEdges({e});
    PageBlockConcat(ens, [MergePage(url, None, None, false)]);
    PageBlockConcat(ens + [MergePage(url, None, None, false)], [MatchMerge({e})]);
  }

  lemma PeriodSourceOrdered(netloc: string -> string, nr: string, url: string, made: set<NodeRef>, outside: set<NodeRef>)
    requires PeriodRef(nr) in made && url != ""
    ensures WellOrdered(made, PeriodSourcePlan(netloc, nr, Some(url)), outside)
  {
    var e := Edge(HasSourcePage, PeriodRef(nr), PageRef(url));
    var ens := EnsurePagePlan(netloc, url, None, None);
    var tail := [MergePage(url, None, None, false)] + ([MatchMerge({e})] + []);
    assert PeriodSourcePlan(netloc, nr, Some(url)) == ens + tail;
    EnsurePageCreates(netloc, url, None, None);
    ConsOrder(MergePage(url, None, None, false), [MatchMerge({e})] + []);
    ConsOrder(MatchMerge({e}), []);
    EnsurePageOrdered(made, netloc, url, None, None, outside);
    NeedsOne(e);
    WellOrderedConcat(made, ens, tail, outside);
  }

  lemma PeriodSourceEffect(g: Graph, netloc: string -> string, nr: string, url: string)
    requires nr in g.periods && url != ""
    ensures var h := RunAll(g, PeriodSourcePlan(netloc, nr, Some(url)));
            url in h.pages && Edge(HasSourcePage, PeriodRef(nr), PageRef(url)) in h.edges
  {
    var e := Edge(HasSourcePage, PeriodRef(nr), PageRef(url));
    var ens := EnsurePagePlan(netloc, url, None, None);
    var tail := [MergePage(url, None, None, false)] + ([MatchMerge({e})] + []);
    assert PeriodSourcePlan(netloc, nr, Some(url)) == ens + tail;
    EnsurePageEffect(g, netloc, url, None, None);
    var g1 := RunAll(g, ens);
    RunAllConcat(g, ens, tail);
    RunAllCons(g1, MergePage(url, None, None, false), [MatchMerge({e})] + []);
    var g2 := Apply(g1, MergePage(url, None, None, false));
    RunAllCons(g2, MatchMerge({e}), []);
    assert Matches(g2, {e});
  }

  lemma PeriodDetailFacts(g: Graph, netloc: string -> string, nr: string, det: Value, made: set<NodeRef>, outside: set<NodeRef>)
    requires PeriodRef(nr) in made
    ensures PageBlock(PeriodDetailPlan(netloc, nr, det))
    ensures WellOrdered(made, PeriodDetailPlan(netloc, nr, det), outside)
    ensures Truthy(det) && nr in g.periods ==>
              var h := RunAll(g, PeriodDetailPlan(netloc, nr, det));
              det.value in h.pages && Edge(HasDetailPage, PeriodRef(nr), PageRef(det.value)) in h.edges
  {
    if Truthy(det) {
      PeriodDetailBlock(netloc, nr, det.value);
      PeriodDetailOrdered(netloc, nr, det.value, made, outside);
      if nr in g.periods {
        PeriodDetailEffect(g, netloc, nr, det.value);
      }
    }
  }

  lemma PeriodDetailBlock(netloc: string -> string, nr: string, url: string)
    requires url != ""
    ensures PageBlock(PeriodDetailPlan(netloc, nr, Some(url)))
  {
    var e := Edge(HasDetailPage, PeriodRef(nr), PageRef(url));
    var ens := EnsurePagePlan(netloc, url, None, None);
    EnsurePageBlock(netloc, url, None, None);
    PageBlockEdges({e});
    PageBlockConcat(ens, [MatchMerge({e})]);
  }

  lemma PeriodDetailOrdered(netloc: string -> string, nr: string, url: string, made: set<NodeRef>, outside: set<NodeRef>)
    requires PeriodRef(nr) in made && url != ""
    ensures WellOrdered(made, PeriodDetailPlan(netloc, nr, Some(url)), outside)
  {
    var e := Edge(HasDetailPage, PeriodRef(nr), PageRef(url));
    var ens := EnsurePagePlan(netloc, url, None, None);
    var tail := [MatchMerge({e})] + [];
    assert PeriodDetailPlan(netloc, nr, Some(url)) == ens + tail;
    EnsurePageCreates(netloc, url, None, None);
    ConsOrder(MatchMerge({e}), []);
    EnsurePageOrdered(made, netloc, url, None, None, outside);
    NeedsOne(e);
    WellOrderedConcat(made, ens, tail, outside);
  }

  lemma PeriodDetailEffect(g: Graph, netloc: string -> string, nr: string, url: string)
    requires nr in g.periods && url != ""
    ensures var h := RunAll(g, PeriodDetailPlan(netloc, nr, Some(url)));
            url in h.pages && Edge(HasDetailPage, PeriodRef(nr), PageRef(url)) in h.edges
  {
    var e := Edge(HasDetailPage, PeriodRef(nr), PageRef(url));
    var ens := EnsurePagePlan(netloc, url, None, None);
    var tail := [MatchMerge({e})] + [];
    assert PeriodDetailPlan(netloc, nr, Some(url)) == ens + tail;
    EnsurePageEffect(g, netloc, url, None, None);
    var g1 := RunAll(g, ens);
    RunAllConcat(g, ens, tail);
    RunAllCons(g1, MatchMerge({e}), []);
    assert Matches(g1, {e});
  }

  /** The statements `_period` runs once the record's fields are read. */
  lemma PeriodPlanStatements(netloc: string -> string, pr: Fields)
    requires PeriodPlan(netloc, pr).Success?
    ensures PeriodPlan(netloc, pr).value ==
              PeriodStatements(netloc, pr["period_number"].value, pr["name"], pr["start_date"], pr["end_date"],
                               Get(pr, "source_page"), Get(pr, "detail_page"))
  {
  }

  lemma PeriodBlocks(netloc: string -> string, nr: string, src: Value, det: Value)
    ensures PageBlock(PeriodSourcePlan(netloc, nr, src))
    ensures PageBlock(PeriodDetailPlan(netloc, nr, det))
  {
    PeriodSourceFacts(EmptyGraph, netloc, nr, src, {PeriodRef(nr)}, {});
    PeriodDetailFacts(EmptyGraph, netloc, nr, det, {PeriodRef(nr)}, {});
  }

  /** `_period` runs the Period statement, then the source page block, then the detail page block. */
  lemma PeriodDecompose(g: Graph, netloc: string -> string, nr: string, name: Attr, st: Attr, end: Attr, src: Value, det: Value)
    ensures RunAll(g, PeriodStatements(netloc, nr, name, st, end, src, det)) ==
              RunAll(RunAll(Apply(g, MergePeriod(nr, name, st, end)), PeriodSourcePlan(netloc, nr, src)), PeriodDetailPlan(netloc, nr, det))
  {
    var s0 := MergePeriod(nr, name, st, end);
    var a := PeriodSourcePlan(netloc, nr, src);
    var b := PeriodDetailPlan(netloc, nr, det);
    RunAllConcat(g, [s0] + a, b);
    RunAllConcat(g, [s0], a);
    RunAllSingle(g, s0);
  }

  /** `_period` merges the Period, whose fields are set only when it is created, and no other node but pages and domains. */
  lemma PeriodNodeEffect(g: Graph, netloc: string -> string, nr: string, name: Attr, st: Attr, end: Attr, src: Value, det: Value)
    ensures var h := RunAll(g, PeriodStatements(netloc, nr, name, st, end, src, det));
            && h.periods == g.periods[nr := if nr in g.periods then g.periods[nr] else PeriodNode(name, st, end)]
            && h.politicians == g.politicians && h.mandates == g.mandates && h.contents == g.contents
  {
    var g1 := Apply(g, MergePeriod(nr, name, st, end));
    var a := PeriodSourcePlan(netloc, nr, src);
    var b := PeriodDetailPlan(netloc, nr, det);
    PeriodDecompose(g, netloc, nr, name, st, end, src, det);
    PeriodBlocks(netloc, nr, src, det);
    RunAllFrame(g1, a);
    RunAllFrame(RunAll(g1, a), b);
  }

  /** `_period` links a truthy source page and a truthy detail page to the Period. */
  lemma PeriodEdgeEffect(g: Graph, netloc: string -> string, nr: string, name: Attr, st: Attr, end: Attr, src: Value, det: Value)
    ensures var h := RunAll(g, PeriodStatements(netloc, nr, name, st, end, src, det));
            && (Truthy(src) ==> src.value in h.pages && Edge(HasSourcePage, PeriodRef(nr), PageRef(src.value)) in h.edges)
            && (Truthy(det) ==> det.value in h.pages && Edge(HasDetailPage, PeriodRef(nr), PageRef(det.value)) in h.edges)
  {
    var g1 := Apply(g, MergePeriod(nr, name, st, end));
    var a := PeriodSourcePlan(netloc, nr, src);
    var b := PeriodDetailPlan(netloc, nr, det);
    var g2 := RunAll(g1, a);
    var h := RunAll(g2, b);
    PeriodDecompose(g, netloc, nr, name, st, end, src, det);
    assert nr in g1.periods;
    if Truthy(src) {
      PeriodSourceEffect(g1, netloc, nr, src.value);
      PeriodSourceBlock(netloc, nr, src.value);
      RunAllFrame(g1, a);
      RunAllExtends(g2, b);
      ExtendsPresent(g2, h, PageRef(src.value));
    }
    assert nr in g2.periods;
    if Truthy(det) {
      PeriodDetailEffect(g2, netloc, nr, det.value);
    }
  }

  lemma PeriodOrdered(netloc: string -> string, nr: string, name: Attr, st: Attr, end: Attr, src: Value, det: Value)
    ensures WellOrdered({}, PeriodStatements(netloc, nr, name, st, end, src, det), {})
  {
    var s0 := MergePeriod(nr, name, st, end);
    var a := PeriodSourcePlan(netloc, nr, src);
    var b := PeriodDetailPlan(netloc, nr, det);
    Cons(s0, []);
    var m1 := {} + CreatedAll([s0]);
    PeriodSourceFacts(EmptyGraph, netloc, nr, src, m1, {});
    WellOrderedConcat({}, [s0], a, {});
    CreatedAllConcat([s0], a);
    var m2 := {} + CreatedAll([s0] + a);
    PeriodDetailFacts(EmptyGraph, netloc, nr, det, m2, {});
    WellOrderedConcat({}, [s0] + a, b, {});
  }
}
