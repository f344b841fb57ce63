/**
 * `Neo4jPipeline.process_item` (bundestags_scraper/pipelines.py) over whole items:
 * every write transaction only grows the graph and keeps its edges between existing
 * nodes, writing an item twice is writing it once, and the edges that join records
 * of different items depend on the order in which the items arrive.
 */
module PipelineItems {
  import opened Wrappers
  import opened PyStr
  import opened Items
  import opened Identity
  import opened GraphStore
  import opened PipelinePlans
  import opened PipelineProperties
  import opened PoliticianWrites

  // ---------------------------------------------------------------------
  // Idempotence of each writer
  // ---------------------------------------------------------------------

  lemma DomIdempotent(g: Graph, d: Fields)
    requires DomPlan(d).Success?
    ensures var ss := DomPlan(d).value; RunAll(RunAll(g, ss), ss) == RunAll(g, ss)
  {
    var ss := DomPlan(d).value;
    assert ss == [ss[0]] + [];
    Cons(ss[0], []);
    RunAllIdempotent(g, ss, {});
  }

  /** `_page` creates only its Page; its edge needs the Domain named by the item, which `_page` never merges. */
  lemma PageIdempotent(g: Graph, p: Fields)
    requires PagePlan(p).Success?
    ensures var ss := PagePlan(p).value; RunAll(RunAll(g, ss), ss) == RunAll(g, ss)
  {
    var ss := PagePlan(p).value;
    var url := p["url"].value;
    var dom := p["source_domain"];
    var s0 := MergePage(url, Get(p, "title"), Get(p, "full_html"), true);
    if dom.Some? {
      var e := Edge(BelongsToDomain, PageRef(url), DomainRef(dom.value));
      assert ss == [s0] + ([MatchMerge({e})] + []);
      Cons(s0, [MatchMerge({e})] + []);
      Cons(MatchMerge({e}), []);
      NeedsOne(e);
      RunAllIdempotent(g, ss, {DomainRef(dom.value)});
    } else {
      assert ss == [s0] + [];
      Cons(s0, []);
      RunAllIdempotent(g, ss, {});
    }
  }

  lemma PeriodIdempotent(g: Graph, netloc: string -> string, pr: Fields)
    requires PeriodPlan(netloc, pr).Success?
    ensures var ss := PeriodPlan(netloc, pr).value; RunAll(RunAll(g, ss), ss) == RunAll(g, ss)
  {
    PeriodPlanStatements(netloc, pr);
    PeriodOrdered(netloc, pr["period_number"].value, pr["name"], pr["start_date"], pr["end_date"],
                  Get(pr, "source_page"), Get(pr, "detail_page"));
    RunAllIdempotent(g, PeriodPlan(netloc, pr).value, {});
  }

  /** `process_item` twice on the same item leaves the graph as once. */
  lemma ItemIdempotent(sha1: string -> string, netloc: string -> string, g: Graph, item: Item)
    requires ProcessItem(sha1, netloc, g, item).Success?
    ensures ProcessItem(sha1, netloc, ProcessItem(sha1, netloc, g, item).value, item) == ProcessItem(sha1, netloc, g, item)
  {
    var d := item.data;
    match item.cls
    case SourceDomainItem => DomIdempotent(g, d);
    case SourcePageItem => PageIdempotent(g, d);
    case LegislativePeriodItem => PeriodIdempotent(g, netloc, d);
    case PoliticianItem =>
      PoliticianPlanStatements(sha1, netloc, d);
      PoliticianIdempotent(g, sha1, netloc, d["detail_page"].value, d["full_name"], Get(d, "firstname"),
                           Get(d, "lastname"), Get(d, "birth_year"), Get(d, "death_year"), d["source_page"],
                           Get(d, "legislative_period_number"), d["political_party"], Get(d, "federate_state"),
                           Get(d, "constituency"));
    case PoliticianContent =>
      ContentPlanStatements(sha1, netloc, d);
      ContentIdempotent(g, netloc, ContentId(sha1, d["source_page"], d["section_header"]), d["source_page"].value,
                        d["section_header"], d["section_content"]);
    case PoliticianBiography =>
  }

  /**
   * A successful `process_item` only adds nodes, fills absent properties and adds
   * edges, and keeps every edge between existing nodes; a failed one changes nothing.
   */
  lemma ItemGrows(sha1: string -> string, netloc: string -> string, g: Graph, item: Item)
    ensures ProcessItem(sha1, netloc, g, item).Success? <==> ItemPlan(sha1, netloc, item).Success?
    ensures ProcessItem(sha1, netloc, g, item).Success? ==>
              var h := ProcessItem(sha1, netloc, g, item).value;
              Extends(g, h) && (Valid(g) ==> Valid(h))
  {
    var plan := ItemPlan(sha1, netloc, item);
    if plan.Success? {
      RunAllExtends(g, plan.value);
      if Valid(g) {
        RunAllValid(g, plan.value);
      }
    }
  }

  /** A biography item writes nothing. */
  lemma BiographyWritesNothing(sha1: string -> string, netloc: string -> string, g: Graph, item: Item)
    requires item.cls == PoliticianBiography
    ensures ProcessItem(sha1, netloc, g, item) == Success(g)
  {
  }

  // ---------------------------------------------------------------------
  // Order dependence between a Period and a Politician
  // ---------------------------------------------------------------------

  lemma PeriodSourceEdges(netloc: string -> string, nr: string, src: Value)
    ensures EdgesOf(PeriodSourcePlan(netloc, nr, src)) ==
              (if Truthy(src) then {Edge(BelongsToDomain, PageRef(src.value), DomainRef(netloc(src.value))),
                                    Edge(HasSourcePage, PeriodRef(nr), PageRef(src.value))} else {})
  {
    if Truthy(src) {
      var e := Edge(HasSourcePage, PeriodRef(nr), PageRef(src.value));
      var tail := [MergePage(src.value, None, None, false)] + ([MatchMerge({e})] + []);
      assert PeriodSourcePlan(netloc, nr, src) == EnsurePagePlan(netloc, src.value, None, None) + tail;
      EnsurePageCreates(netloc, src.value, None, None);
      EdgesOfConcat(EnsurePagePlan(netloc, src.value, None, None), tail);
      Cons(MergePage(src.value, None, None, false), [MatchMerge({e})] + []);
      Cons(MatchMerge({e}), []);
    }
  }

  lemma PeriodDetailEdges(netloc: string -> string, nr: string, det: Value)
    ensures EdgesOf(PeriodDetailPlan(netloc, nr, det)) ==
              (if Truthy(det) then {Edge(BelongsToDomain, PageRef(det.value), DomainRef(netloc(det.value))),
                                    Edge(HasDetailPage, PeriodRef(nr), PageRef(det.value))} else {})
  {
    if Truthy(det) {
      var e := Edge(HasDetailPage, PeriodRef(nr), PageRef(det.value));
      var tail := [MatchMerge({e})] + [];
      assert PeriodDetailPlan(netloc, nr, det) == EnsurePagePlan(netloc, det.value, None, None) + tail;
      EnsurePageCreates(netloc, det.value, None, None);
      EdgesOfConcat(EnsurePagePlan(netloc, det.value, None, None), tail);
      Cons(MatchMerge({e}), []);
    }
  }

  /** `_period` adds only page edges: BELONGS_TO_DOMAIN, HAS_SOURCE_PAGE and HAS_DETAIL_PAGE. */
  lemma PeriodEdgeRels(netloc: string -> string, nr: string, name: Attr, st: Attr, end: Attr, src: Value, det: Value)
    ensures forall e :: e in EdgesOf(PeriodStatements(netloc, nr, name, st, end, src, det)) ==>
              e.rel == BelongsToDomain || e.rel == HasSourcePage || e.rel == HasDetailPage
  {
    var s0 := MergePeriod(nr, name, st, end);
    var a := PeriodSourcePlan(netloc, nr, src);
    var b := PeriodDetailPlan(netloc, nr, det);
    EdgesOfConcat([s0] + a, b);
    Cons(s0, a);
    PeriodSourceEdges(netloc, nr, src);
    PeriodDetailEdges(netloc, nr, det);
  }

  /** A Period written before a Politician of that period: SERVED_DURING is there. */
  lemma PeriodThenPolitician(g: Graph, sha1: string -> string, netloc: string -> string,
                             nr: string, name: Attr, st: Attr, end: Attr, psrc: Value, pdet: Value,
                             det: string, full: Attr, first: Attr, last: Attr, birth: Attr, death: Attr, src: Value,
                             rawParty: Value, state: Value, co: Value)
    requires Valid(g) && nr != ""
    ensures var g1 := RunAll(g, PeriodStatements(netloc, nr, name, st, end, psrc, pdet));
            var h := RunAll(g1, PoliticianStatements(sha1, netloc, det, full, first, last, birth, death, src, Some(nr), rawParty, state, co));
            Edge(ServedDuring, PoliticianRef(det), PeriodRef(nr)) in h.edges
  {
    var g1 := RunAll(g, PeriodStatements(netloc, nr, name, st, end, psrc, pdet));
    PeriodNodeEffect(g, netloc, nr, name, st, end, psrc, pdet);
    RunAllValid(g, PeriodStatements(netloc, nr, name, st, end, psrc, pdet));
    PoliticianPeriodLinks(g1, sha1, netloc, det, full, first, last, birth, death, src, Some(nr), rawParty, state, co);
  }

  /**
   * A Politician written before its Period: the Period exists afterwards but
   * SERVED_DURING does not, because the Period's own transaction adds no such edge.
   */
  lemma PoliticianThenPeriod(g: Graph, sha1: string -> string, netloc: string -> string,
                             nr: string, name: Attr, st: Attr, end: Attr, psrc: Value, pdet: Value,
                             det: string, full: Attr, first: Attr, last: Attr, birth: Attr, death: Attr, src: Value,
                             rawParty: Value, state: Value, co: Value)
    requires Valid(g) && nr != "" && nr !in g.periods
    ensures var g1 := RunAll(g, PoliticianStatements(sha1, netloc, det, full, first, last, birth, death, src, Some(nr), rawParty, state, co));
            var h := RunAll(g1, PeriodStatements(netloc, nr, name, st, end, psrc, pdet));
            nr in h.periods && Edge(ServedDuring, PoliticianRef(det), PeriodRef(nr)) !in h.edges
  {
    var g1 := RunAll(g, PoliticianStatements(sha1, netloc, det, full, first, last, birth, death, src, Some(nr), rawParty, state, co));
    var ps := PeriodStatements(netloc, nr, name, st, end, psrc, pdet);
    PoliticianPeriodLinks(g, sha1, netloc, det, full, first, last, birth, death, src, Some(nr), rawParty, state, co);
    RunAllEdges(g1, ps);
    PeriodEdgeRels(netloc, nr, name, st, end, psrc, pdet);
    PeriodNodeEffect(g1, netloc, nr, name, st, end, psrc, pdet);
  }

  // ---------------------------------------------------------------------
  // One Mandate per politician and period
  // ---------------------------------------------------------------------

  /**
   * Two politician records with the same detail page and period number leave one
   * Mandate, however their other fields differ.
   */
  lemma OneMandatePerPeriod(g: Graph, sha1: string -> string, netloc: string -> string, det: string, nr: string,
                            full1: Attr, first1: Attr, last1: Attr, birth1: Attr, death1: Attr, src1: Value,
                            party1: Value, state1: Value, co1: Value,
                            full2: Attr, first2: Attr, last2: Attr, birth2: Attr, death2: Attr, src2: Value,
                            party2: Value, state2: Value, co2: Value)
    requires nr != ""
    ensures var g1 := RunAll(g, PoliticianStatements(sha1, netloc, det, full1, first1, last1, birth1, death1, src1, Some(nr), party1, state1, co1));
            var h := RunAll(g1, PoliticianStatements(sha1, netloc, det, full2, first2, last2, birth2, death2, src2, Some(nr), party2, state2, co2));
            h.mandates.Keys == g.mandates.Keys + {MandateId(sha1, nr, det)}
  {
    var g1 := RunAll(g, PoliticianStatements(sha1, netloc, det, full1, first1, last1, birth1, death1, src1, Some(nr), party1, state1, co1));
    PoliticianMandateEffect(g, sha1, netloc, det, full1, first1, last1, birth1, death1, src1, Some(nr), party1, state1, co1);
    PoliticianMandateEffect(g1, sha1, netloc, det, full2, first2, last2, birth2, death2, src2, Some(nr), party2, state2, co2);
  }

  // ---------------------------------------------------------------------
  // A period and one of its members, in that order
  // ---------------------------------------------------------------------

  const PeriodRecord: Item :=
    Item(LegislativePeriodItem, map["period_number" := Some("20"), "name" := Some("20. Wahlperiode"),
                                    "start_date" := None, "end_date" := None])

  const MemberRecord: Item :=
    Item(PoliticianItem, map["legislative_period_number" := Some("20"), "full_name" := Some("A B"),
                             "detail_page" := Some("https://d/a"), "source_page" := Some("https://d/list"),
                             "political_party" := None])

  /** The Period record alone: one Period and nothing else but pages and domains. */
  lemma PeriodRecordWrites(sha1: string -> string, netloc: string -> string)
    ensures ProcessItem(sha1, netloc, EmptyGraph, PeriodRecord).Success?
    ensures var g1 := ProcessItem(sha1, netloc, EmptyGraph, PeriodRecord).value;
            && Valid(g1) && g1.periods.Keys == {"20"} && g1.politicians == map[] && g1.mandates == map[]
  {
    var ps := PeriodStatements(netloc, "20", Some("20. Wahlperiode"), None, None, None, None);
    assert PeriodPlan(netloc, PeriodRecord.data) == Success(ps);
    PeriodNodeEffect(EmptyGraph, netloc, "20", Some("20. Wahlperiode"), None, None, None, None);
    RunAllValid(EmptyGraph, ps);
  }

  /** How the member record is read: every field but the name, the pages and the period number is None. */
  lemma MemberRecordPlan(sha1: string -> string, netloc: string -> string, g: Graph)
    ensures ProcessItem(sha1, netloc, g, MemberRecord)
            == Success(RunAll(g, PoliticianStatements(sha1, netloc, "https://d/a", Some("A B"), None, None, None, None,
                                                      Some("https://d/list"), Some("20"), None, None, None)))
  {
    var qs := PoliticianStatements(sha1, netloc, "https://d/a", Some("A B"), None, None, None, None,
                                   Some("https://d/list"), Some("20"), None, None, None);
    MemberRecordFields();
    assert PoliticianPlan(sha1, netloc, MemberRecord.data) == Success(qs);
  }

  /** The fields `_politician` reads off the member record. */
  lemma MemberRecordFields()
    ensures var d := MemberRecord.data;
            && Field(d, "source_page") == Success(Some("https://d/list"))
            && Field(d, "detail_page") == Success(Some("https://d/a"))
            && Field(d, "political_party") == Success(None)
            && Field(d, "full_name") == Success(Some("A B"))
            && MergeKey(Some("https://d/a"), "Politician") == Success("https://d/a")
            && Get(d, "legislative_period_number") == Some("20")
            && Get(d, "firstname") == None && Get(d, "lastname") == None
            && Get(d, "birth_year") == None && Get(d, "death_year") == None
            && Get(d, "federate_state") == None && Get(d, "constituency") == None
  {
    var d := MemberRecord.data;
    assert "firstname" !in d && "lastname" !in d && "birth_year" !in d && "death_year" !in d;
    assert "federate_state" !in d && "constituency" !in d;
  }

  /** The member record written into a graph that holds only period 20: what it leaves. */
  lemma MemberWrites(sha1: string -> string, netloc: string -> string, g1: Graph)
    requires netloc("https://d/a") == "d"
    requires Valid(g1) && g1.periods.Keys == {"20"} && g1.politicians == map[] && g1.mandates == map[]
    ensures var h := RunAll(g1, PoliticianStatements(sha1, netloc, "https://d/a", Some("A B"), None, None, None, None,
                                                     Some("https://d/list"), Some("20"), None, None, None));
            var mid := MandateId(sha1, "20", "https://d/a");
            && "d" in h.domains
            && "https://d/a" in h.pages && "https://d/list" in h.pages
            && h.politicians.Keys == {"https://d/a"} && h.politicians["https://d/a"].fullName == Some("A B")
            && h.mandates.Keys == {mid} && h.periods.Keys == {"20"}
            && Edge(ServedDuring, PoliticianRef("https://d/a"), PeriodRef("20")) in h.edges
            && Edge(HasMandate, PoliticianRef("https://d/a"), MandateRef(mid)) in h.edges
            && Edge(InPeriod, MandateRef(mid), PeriodRef("20")) in h.edges
  {
    var det := "https://d/a";
    PoliticianNodeEffect(g1, sha1, netloc, det, Some("A B"), None, None, None, None, Some("https://d/list"), Some("20"), None, None, None);
    PoliticianPageEffect(g1, sha1, netloc, det, Some("A B"), None, None, None, None, Some("https://d/list"), Some("20"), None, None, None);
    PoliticianMandateEffect(g1, sha1, netloc, det, Some("A B"), None, None, None, None, Some("https://d/list"), Some("20"), None, None, None);
    PoliticianPeriodLinks(g1, sha1, netloc, det, Some("A B"), None, None, None, None, Some("https://d/list"), Some("20"), None, None, None);
  }

  /**
   * Writing the Period and then its member into an empty graph leaves the Domain,
   * both Pages, the Politician, its one Mandate of period 20, and the SERVED_DURING,
   * HAS_MANDATE and IN_PERIOD edges.
   */
  lemma PeriodMemberScenario(sha1: string -> string, netloc: string -> string)
    requires netloc("https://d/a") == "d"
    ensures ProcessItem(sha1, netloc, EmptyGraph, PeriodRecord).Success?
    ensures var g1 := ProcessItem(sha1, netloc, EmptyGraph, PeriodRecord).value;
            ProcessItem(sha1, netloc, g1, MemberRecord).Success?
    ensures var g1 := ProcessItem(sha1, netloc, EmptyGraph, PeriodRecord).value;
            var h := ProcessItem(sha1, netloc, g1, MemberRecord).value;
            var mid := MandateId(sha1, "20", "https://d/a");
            && "d" in h.domains
            && "https://d/a" in h.pages && "https://d/list" in h.pages
            && h.politicians.Keys == {"https://d/a"} && h.politicians["https://d/a"].fullName == Some("A B")
            && h.mandates.Keys == {mid} && h.periods.Keys == {"20"}
            && Edge(ServedDuring, PoliticianRef("https://d/a"), PeriodRef("20")) in h.edges
            && Edge(HasMandate, PoliticianRef("https://d/a"), MandateRef(mid)) in h.edges
            && Edge(InPeriod, MandateRef(mid), PeriodRef("20")) in h.edges
  {
    PeriodRecordWrites(sha1, netloc);
    var g1 := ProcessItem(sha1, netloc, EmptyGraph, PeriodRecord).value;
    MemberRecordPlan(sha1, netloc, g1);
    MemberWrites(sha1, netloc, g1);
  }
}
