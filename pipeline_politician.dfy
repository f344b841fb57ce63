/**
 * Properties of `_politician` and `_content` in bundestags_scraper/pipelines.py:
 * which nodes they merge and fill, which edges they add, and which of those edges
 * depend on a Period or a Politician that only an earlier item can have written.
 */
module PoliticianWrites {
  import opened Wrappers
  import opened PyStr
  import opened Items
  import opened Identity
  import opened GraphStore
  import opened PipelinePlans
  import opened PipelineProperties

  // ---------------------------------------------------------------------
  // Building blocks
  // ---------------------------------------------------------------------

  /** `_ensure_page(url)` then an edge from `owner`: the page exists afterwards and, if `owner` does, the edge. */
  lemma LinkedPageFacts(g: Graph, netloc: string -> string, rel: Rel, owner: NodeRef, url: string,
                        made: set<NodeRef>, outside: set<NodeRef>)
    requires owner in made
    ensures CreatedAll(LinkedPagePlan(netloc, rel, owner, url)) == {DomainRef(netloc(url)), PageRef(url)}
    ensures PageBlock(LinkedPagePlan(netloc, rel, owner, url))
    ensures WellOrdered(made, LinkedPagePlan(netloc, rel, owner, url), outside)
    ensures Present(g, owner) ==>
              var h := RunAll(g, LinkedPagePlan(netloc, rel, owner, url));
              url in h.pages && netloc(url) in h.domains && Edge(rel, owner, PageRef(url)) in h.edges
  {
    LinkedPageBlock(netloc, rel, owner, url);
    LinkedPageOrdered(netloc, rel, owner, url, made, outside);
    if Present(g, owner) {
      LinkedPageEffect(g, netloc, rel, owner, url);
    }
  }

  lemma LinkedPageBlock(netloc: string -> string, rel: Rel, owner: NodeRef, url: string)
    ensures CreatedAll(LinkedPagePlan(netloc, rel, owner, url)) == {DomainRef(netloc(url)), PageRef(url)}
    ensures PageBlock(LinkedPagePlan(netloc, rel, owner, url))
  {
    LinkedPageCreated(netloc, rel, owner, url);
    var ens := EnsurePagePlan(netloc, url, None, None);
    var e := Edge(rel, owner, PageRef(url));
    EnsurePageBlock(netloc, url, None, None);
    PageBlockEdges({e});
    PageBlockConcat(ens, [MatchMerge({e})]);
  }

  lemma LinkedPageCreated(netloc: string -> string, rel: Rel, owner: NodeRef, url: string)
    ensures CreatedAll(LinkedPagePlan(netloc, rel, owner, url)) == {DomainRef(netloc(url)), PageRef(url)}
  {
    var e := Edge(rel, owner, PageRef(url));
    var ens := EnsurePagePlan(netloc, url, None, None);
    EnsurePageCreates(netloc, url, None, None);
    ConsSets(MatchMerge({e}), []);
    assert [MatchMerge({e})] == [MatchMerge({e})] + [];
    CreatedAllConcat(ens, [MatchMerge({e})]);
  }

  lemma LinkedPageOrdered(netloc: string -> string, rel: Rel, owner: NodeRef, url: string,
                          made: set<NodeRef>, outside: set<NodeRef>)
    requires owner in made
    ensures WellOrdered(made, LinkedPagePlan(netloc, rel, owner, url), outside)
  {
    var e := Edge(rel, owner, PageRef(url));
    var ens := EnsurePagePlan(netloc, url, None, None);
    var tail := [MatchMerge({e})] + [];
    assert LinkedPagePlan(netloc, rel, owner, url) == ens + tail;
    EnsurePageCreates(netloc, url, None, None);
    ConsOrder(MatchMerge({e}), []);
    EnsurePageOrdered(made, netloc, url, None, None, outside);
    NeedsOne(e);
    WellOrderedConcat(made, ens, tail, outside);
  }

  lemma LinkedPageEffect(g: Graph, netloc: string -> string, rel: Rel, owner: NodeRef, url: string)
    requires Present(g, owner)
    ensures var h := RunAll(g, LinkedPagePlan(netloc, rel, owner, url));
            url in h.pages && netloc(url) in h.domains && Edge(rel, owner, PageRef(url)) in h.edges
  {
    var e := Edge(rel, owner, PageRef(url));
    var ens := EnsurePagePlan(netloc, url, None, None);
    var tail := [MatchMerge({e})] + [];
    assert LinkedPagePlan(netloc, rel, owner, url) == ens + tail;
    EnsurePageEffect(g, netloc, url, None, None);
    var g1 := RunAll(g, ens);
    RunAllExtends(g, ens);
    ExtendsPresent(g, g1, owner);
    RunAllConcat(g, ens, tail);
    RunAllCons(g1, MatchMerge({e}), []);
    assert Matches(g1, {e});
  }

  /** A Party, State or Constituency statement with its edge from the Mandate. */
  predicate TagStatement(tag: Statement, e: Edge) {
    && (tag.MergeParty? || tag.MergeState? || tag.MergeConstituency?)
    && Created(tag) == {e.dst}
  }

  lemma TagFacts(g: Graph, tag: Statement, e: Edge, made: set<NodeRef>, outside: set<NodeRef>)
    requires TagStatement(tag, e) && e.src in made
    ensures CreatedAll(TagPlan(tag, e)) == {e.dst}
    ensures Labels(TagPlan(tag, e)) == LabelOf(tag)
    ensures PartiesOf(TagPlan(tag, e)) == PartyOf(tag)
    ensures StatesOf(TagPlan(tag, e)) == StateOf(tag)
    ensures ConstituenciesOf(TagPlan(tag, e)) == ConstituencyOf(tag)
    ensures WellOrdered(made, TagPlan(tag, e), outside)
    ensures Present(g, e.src) ==> e in RunAll(g, TagPlan(tag, e)).edges
  {
    TagShape(tag, e);
    TagOrdered(tag, e, made, outside);
    if Present(g, e.src) {
      TagEffect(g, tag, e);
    }
  }

  lemma TagShape(tag: Statement, e: Edge)
    requires TagStatement(tag, e)
    ensures CreatedAll(TagPlan(tag, e)) == {e.dst}
    ensures Labels(TagPlan(tag, e)) == LabelOf(tag)
    ensures PartiesOf(TagPlan(tag, e)) == PartyOf(tag)
    ensures StatesOf(TagPlan(tag, e)) == StateOf(tag)
    ensures ConstituenciesOf(TagPlan(tag, e)) == ConstituencyOf(tag)
  {
    assert TagPlan(tag, e) == [tag] + ([MatchMerge({e})] + []);
    Cons(tag, [MatchMerge({e})] + []);
    Cons(MatchMerge({e}), []);
  }

  lemma TagOrdered(tag: Statement, e: Edge, made: set<NodeRef>, outside: set<NodeRef>)
    requires TagStatement(tag, e) && e.src in made
    ensures WellOrdered(made, TagPlan(tag, e), outside)
  {
    assert TagPlan(tag, e) == [tag] + ([MatchMerge({e})] + []);
    Cons(tag, [MatchMerge({e})] + []);
    Cons(MatchMerge({e}), []);
    NeedsOne(e);
  }

  lemma TagEffect(g: Graph, tag: Statement, e: Edge)
    requires TagStatement(tag, e) && Present(g, e.src)
    ensures e in RunAll(g, TagPlan(tag, e)).edges
  {
    assert TagPlan(tag, e) == [tag] + ([MatchMerge({e})] + []);
    RunAllCons(g, tag, [MatchMerge({e})] + []);
    var g1 := Apply(g, tag);
    ApplyCreates(g, tag);
    ApplyExtends(g, tag);
    ExtendsPresent(g, g1, e.src);
    RunAllCons(g1, MatchMerge({e}), []);
    assert Matches(g1, {e});
  }

  // ---------------------------------------------------------------------
  // _politician: reads and the page block
  // ---------------------------------------------------------------------

  /**
   * `_politician` reads source_page, detail_page, political_party and full_name with
   * `pol[...]`, and a None detail_page cannot be the key of a MERGE.
   */
  lemma PoliticianFails(sha1: string -> string, netloc: string -> string, pol: Fields)
    ensures PoliticianPlan(sha1, netloc, pol).Failure? <==>
              "source_page" !in pol || "detail_page" !in pol || "political_party" !in pol
              || "full_name" !in pol || pol["detail_page"].None?
    ensures "source_page" !in pol ==> PoliticianPlan(sha1, netloc, pol) == Failure(KeyError("source_page"))
    ensures ("source_page" in pol && "detail_page" in pol && "political_party" in pol && "full_name" in pol
             && pol["detail_page"].None?) ==> PoliticianPlan(sha1, netloc, pol) == Failure(NullMergeKey("Politician"))
  {
  }

  lemma PoliticianPlanStatements(sha1: string -> string, netloc: string -> string, pol: Fields)
    requires PoliticianPlan(sha1, netloc, pol).Success?
    ensures PoliticianPlan(sha1, netloc, pol).value ==
              PoliticianStatements(sha1, netloc, pol["detail_page"].value, pol["full_name"], Get(pol, "firstname"),
                                   Get(pol, "lastname"), Get(pol, "birth_year"), Get(pol, "death_year"),
                                   pol["source_page"], Get(pol, "legislative_period_number"),
                                   pol["political_party"], Get(pol, "federate_state"), Get(pol, "constituency"))
  {
  }

  function SourceBlock(netloc: string -> string, det: string, src: Value): seq<Statement> {
    if Truthy(src) then LinkedPagePlan(netloc, HasSourcePage, PoliticianRef(det), src.value) else []
  }

  function LinkBlock(det: string, src: Value): seq<Statement> {
    if Truthy(src) then [MatchMerge({Edge(LinksToDetail, PageRef(src.value), PageRef(det))})] else []
  }

  lemma PagesSplit(netloc: string -> string, det: string, src: Value)
    ensures PoliticianPagesPlan(netloc, det, src) ==
              SourceBlock(netloc, det, src) + LinkedPagePlan(netloc, HasDetailPage, PoliticianRef(det), det) + LinkBlock(det, src)
  {
  }

  lemma PagesShape(netloc: string -> string, det: string, src: Value, made: set<NodeRef>, outside: set<NodeRef>)
    requires PoliticianRef(det) in made
    ensures PageBlock(PoliticianPagesPlan(netloc, det, src))
    ensures WellOrdered(made, PoliticianPagesPlan(netloc, det, src), outside)
  {
    PagesBlock(netloc, det, src);
    PagesOrdered(netloc, det, src, made, outside);
  }

  lemma PagesBlock(netloc: string -> string, det: string, src: Value)
    ensures PageBlock(PoliticianPagesPlan(netloc, det, src))
  {
    var x := SourceBlock(netloc, det, src);
    var y := LinkedPagePlan(netloc, HasDetailPage, PoliticianRef(det), det);
    var w := LinkBlock(det, src);
    PagesSplit(netloc, det, src);
    if Truthy(src) {
      LinkedPageBlock(netloc, HasSourcePage, PoliticianRef(det), src.value);
      PageBlockEdges({Edge(LinksToDetail, PageRef(src.value), PageRef(det))});
    } else {
      assert PageBlock([]);
    }
    LinkedPageBlock(netloc, HasDetailPage, PoliticianRef(det), det);
    PageBlockConcat(x, y);
    PageBlockConcat(x + y, w);
  }

  lemma PagesOrdered(netloc: string -> string, det: string, src: Value, made: set<NodeRef>, outside: set<NodeRef>)
    requires PoliticianRef(det) in made
    ensures WellOrdered(made, PoliticianPagesPlan(netloc, det, src), outside)
  {
    var x := SourceBlock(netloc, det, src);
    var y := LinkedPagePlan(netloc, HasDetailPage, PoliticianRef(det), det);
    var w := LinkBlock(det, src);
    PagesSplit(netloc, det, src);
    if Truthy(src) {
      LinkedPageBlock(netloc, HasSourcePage, PoliticianRef(det), src.value);
      LinkedPageOrdered(netloc, HasSourcePage, PoliticianRef(det), src.value, made, outside);
    }
    var m1 := made + CreatedAll(x);
    LinkedPageBlock(netloc, HasDetailPage, PoliticianRef(det), det);
    LinkedPageOrdered(netloc, HasDetailPage, PoliticianRef(det), det, m1, outside);
    WellOrderedConcat(made, x, y, outside);
    CreatedAllConcat(x, y);
    if Truthy(src) {
      var l := Edge(LinksToDetail, PageRef(src.value), PageRef(det));
      assert w == [MatchMerge({l})] + [];
      ConsOrder(MatchMerge({l}), []);
      NeedsOne(l);
    }
    WellOrderedConcat(made, x + y, w, outside);
  }

  lemma SourceBlockEffect(g: Graph, netloc: string -> string, det: string, src: Value)
    requires det in g.politicians
    ensures var g1 := RunAll(g, SourceBlock(netloc, det, src));
            && Extends(g, g1) && det in g1.politicians
            && (Truthy(src) ==> src.value in g1.pages && Edge(HasSourcePage, PoliticianRef(det), PageRef(src.value)) in g1.edges)
  {
    RunAllExtends(g, SourceBlock(netloc, det, src));
    if Truthy(src) {
      LinkedPageFacts(g, netloc, HasSourcePage, PoliticianRef(det), src.value, {PoliticianRef(det)}, {});
    }
  }

  lemma DetailBlockEffect(g: Graph, netloc: string -> string, det: string)
    requires det in g.politicians
    ensures var g2 := RunAll(g, LinkedPagePlan(netloc, HasDetailPage, PoliticianRef(det), det));
            Extends(g, g2) && det in g2.pages && netloc(det) in g2.domains
            && Edge(HasDetailPage, PoliticianRef(det), PageRef(det)) in g2.edges
  {
    RunAllExtends(g, LinkedPagePlan(netloc, HasDetailPage, PoliticianRef(det), det));
    LinkedPageFacts(g, netloc, HasDetailPage, PoliticianRef(det), det, {PoliticianRef(det)}, {});
  }

  lemma LinkBlockEffect(g: Graph, det: string, src: Value)
    requires det in g.pages && (Truthy(src) ==> src.value in g.pages)
    ensures var h := RunAll(g, LinkBlock(det, src));
            Extends(g, h) && (Truthy(src) ==> Edge(LinksToDetail, PageRef(src.value), PageRef(det)) in h.edges)
  {
    RunAllExtends(g, LinkBlock(det, src));
    if Truthy(src) {
      EdgeAdded(g, Edge(LinksToDetail, PageRef(src.value), PageRef(det)));
    }
  }

  /** With the Politician in the graph, the page block leaves both pages and the three page edges. */
  lemma PagesEffect(g: Graph, netloc: string -> string, det: string, src: Value)
    requires det in g.politicians
    ensures var h := RunAll(g, PoliticianPagesPlan(netloc, det, src));
            && det in h.pages && netloc(det) in h.domains && Edge(HasDetailPage, PoliticianRef(det), PageRef(det)) in h.edges
            && (Truthy(src) ==>
                  && src.value in h.pages
                  && Edge(HasSourcePage, PoliticianRef(det), PageRef(src.value)) in h.edges
                  && Edge(LinksToDetail, PageRef(src.value), PageRef(det)) in h.edges)
  {
    var x := SourceBlock(netloc, det, src);
    var y := LinkedPagePlan(netloc, HasDetailPage, PoliticianRef(det), det);
    var w := LinkBlock(det, src);
    PagesSplit(netloc, det, src);
    RunAllConcat(g, x + y, w);
    RunAllConcat(g, x, y);
    var g1 := RunAll(g, x);
    var g2 := RunAll(g1, y);
    SourceBlockEffect(g, netloc, det, src);
    DetailBlockEffect(g1, netloc, det);
    if Truthy(src) {
      ExtendsPresent(g1, g2, PageRef(src.value));
    }
    LinkBlockEffect(g2, det, src);
    var h := RunAll(g2, w);
    ExtendsPresent(g2, h, PageRef(det));
    ExtendsPresent(g2, h, DomainRef(netloc(det)));
    if Truthy(src) {
      ExtendsPresent(g2, h, PageRef(src.value));
    }
  }

  // ---------------------------------------------------------------------
  // _politician: the Mandate block
  // ---------------------------------------------------------------------

  /** The Mandate statement: each field is filled when absent. */
  function MergedMandate(g: Graph, mid: string, party: Attr, state: Attr, co: Attr): MandateNode {
    if mid in g.mandates then
      MandateNode(Coalesce(g.mandates[mid].party, party), Coalesce(g.mandates[mid].federateState, state),
                  Coalesce(g.mandates[mid].constituency, co))
    else MandateNode(party, state, co)
  }

  function PartyBlock(mid: string, party: Attr): seq<Statement> {
    if party.Some? then TagPlan(MergeParty(party.value), Edge(AffiliatedWith, MandateRef(mid), PartyRef(party.value)))
    else []
  }

  function StateBlock(mid: string, state: Value): seq<Statement> {
    if Truthy(state) then TagPlan(MergeState(state.value), Edge(RepresentsState, MandateRef(mid), StateRef(state.value)))
    else []
  }

  function ConstituencyBlock(mid: string, co: Value): seq<Statement> {
    if Truthy(co) then
      TagPlan(MergeConstituency(co.value), Edge(RepresentsConstituency, MandateRef(mid), ConstituencyRef(co.value)))
    else []
  }

  function MandateHead(mid: string, det: string, nr: string, party: Attr, state: Value, co: Value): seq<Statement> {
    [ MergeMandate(mid, party, state, co),
      MatchMerge({Edge(HasMandate, PoliticianRef(det), MandateRef(mid)), Edge(InPeriod, MandateRef(mid), PeriodRef(nr))}) ]
  }

  lemma MandateSplit(mid: string, det: string, nr: string, party: Attr, state: Value, co: Value)
    ensures MandatePlan(mid, det, nr, party, state, co) ==
              MandateHead(mid, det, nr, party, state, co) + PartyBlock(mid, party) + StateBlock(mid, state)
              + ConstituencyBlock(mid, co)
  {
  }

  /** The tag blocks merge only their tag and add only their edge, once the Mandate exists. */
  lemma PartyBlockFacts(g: Graph, mid: string, party: Attr, made: set<NodeRef>, outside: set<NodeRef>)
    requires MandateRef(mid) in made
    ensures Labels(PartyBlock(mid, party)) <= {Party}
    ensures PartiesOf(PartyBlock(mid, party)) == (if party.Some? then {party.value} else {})
    ensures StatesOf(PartyBlock(mid, party)) == {} && ConstituenciesOf(PartyBlock(mid, party)) == {}
    ensures forall n :: n in CreatedAll(PartyBlock(mid, party)) ==> n.PartyRef?
    ensures WellOrdered(made, PartyBlock(mid, party), outside)
    ensures mid in g.mandates && party.Some? ==>
              Edge(AffiliatedWith, MandateRef(mid), PartyRef(party.value)) in RunAll(g, PartyBlock(mid, party)).edges
  {
    PartyBlockShape(mid, party);
    if party.Some? {
      TagOrdered(MergeParty(party.value), Edge(AffiliatedWith, MandateRef(mid), PartyRef(party.value)), made, outside);
      if mid in g.mandates {
        TagEffect(g, MergeParty(party.value), Edge(AffiliatedWith, MandateRef(mid), PartyRef(party.value)));
      }
    }
  }

  lemma PartyBlockShape(mid: string, party: Attr)
    ensures Labels(PartyBlock(mid, party)) <= {Party}
    ensures PartiesOf(PartyBlock(mid, party)) == (if party.Some? then {party.value} else {})
    ensures StatesOf(PartyBlock(mid, party)) == {} && ConstituenciesOf(PartyBlock(mid, party)) == {}
    ensures forall n :: n in CreatedAll(PartyBlock(mid, party)) ==> n.PartyRef?
  {
    if party.Some? {
      TagShape(MergeParty(party.value), Edge(AffiliatedWith, MandateRef(mid), PartyRef(party.value)));
    }
  }

  lemma StateBlockFacts(g: Graph, mid: string, state: Value, made: set<NodeRef>, outside: set<NodeRef>)
    requires MandateRef(mid) in made
    ensures Labels(StateBlock(mid, state)) <= {State}
    ensures StatesOf(StateBlock(mid, state)) == (if Truthy(state) then {state.value} else {})
    ensures PartiesOf(StateBlock(mid, state)) == {} && ConstituenciesOf(StateBlock(mid, state)) == {}
    ensures forall n :: n in CreatedAll(StateBlock(mid, state)) ==> n.StateRef?
    ensures WellOrdered(made, StateBlock(mid, state), outside)
    ensures mid in g.mandates && Truthy(state) ==>
              Edge(RepresentsState, MandateRef(mid), StateRef(state.value)) in RunAll(g, StateBlock(mid, state)).edges
  {
    StateBlockShape(mid, state);
    if Truthy(state) {
      TagOrdered(MergeState(state.value), Edge(RepresentsState, MandateRef(mid), StateRef(state.value)), made, outside);
      if mid in g.mandates {
        TagEffect(g, MergeState(state.value), Edge(RepresentsState, MandateRef(mid), StateRef(state.value)));
      }
    }
  }

  lemma StateBlockShape(mid: string, state: Value)
    ensures Labels(StateBlock(mid, state)) <= {State}
    ensures StatesOf(StateBlock(mid, state)) == (if Truthy(state) then {state.value} else {})
    ensures PartiesOf(StateBlock(mid, state)) == {} && ConstituenciesOf(StateBlock(mid, state)) == {}
    ensures forall n :: n in CreatedAll(StateBlock(mid, state)) ==> n.StateRef?
  {
    if Truthy(state) {
      TagShape(MergeState(state.value), Edge(RepresentsState, MandateRef(mid), StateRef(state.value)));
    }
  }

  lemma ConstituencyBlockFacts(g: Graph, mid: string, co: Value, made: set<NodeRef>, outside: set<NodeRef>)
    requires MandateRef(mid) in made
    ensures Labels(ConstituencyBlock(mid, co)) <= {Constituency}
    ensures ConstituenciesOf(ConstituencyBlock(mid, co)) == (if Truthy(co) then {co.value} else {})
    ensures PartiesOf(ConstituencyBlock(mid, co)) == {} && StatesOf(ConstituencyBlock(mid, co)) == {}
    ensures forall n :: n in CreatedAll(ConstituencyBlock(mid, co)) ==> n.ConstituencyRef?
    ensures WellOrdered(made, ConstituencyBlock(mid, co), outside)
    ensures mid in g.mandates && Truthy(co) ==>
              Edge(RepresentsConstituency, MandateRef(mid), ConstituencyRef(co.value)) in RunAll(g, ConstituencyBlock(mid, co)).edges
  {
    ConstituencyBlockShape(mid, co);
    if Truthy(co) {
      TagOrdered(MergeConstituency(co.value), Edge(RepresentsConstituency, MandateRef(mid), ConstituencyRef(co.value)), made, outside);
      if mid in g.mandates {
        TagEffect(g, MergeConstituency(co.value), Edge(RepresentsConstituency, MandateRef(mid), ConstituencyRef(co.value)));
      }
    }
  }

  lemma ConstituencyBlockShape(mid: string, co: Value)
    ensures Labels(ConstituencyBlock(mid, co)) <= {Constituency}
    ensures ConstituenciesOf(ConstituencyBlock(mid, co)) == (if Truthy(co) then {co.value} else {})
    ensures PartiesOf(ConstituencyBlock(mid, co)) == {} && StatesOf(ConstituencyBlock(mid, co)) == {}
    ensures forall n :: n in CreatedAll(ConstituencyBlock(mid, co)) ==> n.ConstituencyRef?
  {
    if Truthy(co) {
      TagShape(MergeConstituency(co.value), Edge(RepresentsConstituency, MandateRef(mid), ConstituencyRef(co.value)));
    }
  }

  lemma MandateHeadFacts(mid: string, det: string, nr: string, party: Attr, state: Value, co: Value,
                         made: set<NodeRef>, outside: set<NodeRef>)
    requires PoliticianRef(det) in made && (PeriodRef(nr) in made || PeriodRef(nr) in outside)
    ensures CreatedAll(MandateHead(mid, det, nr, party, state, co)) == {MandateRef(mid)}
    ensures Labels(MandateHead(mid, det, nr, party, state, co)) == {Mandate}
    ensures PartiesOf(MandateHead(mid, det, nr, party, state, co)) == {}
    ensures StatesOf(MandateHead(mid, det, nr, party, state, co)) == {}
    ensures ConstituenciesOf(MandateHead(mid, det, nr, party, state, co)) == {}
    ensures WellOrdered(made, MandateHead(mid, det, nr, party, state, co), outside)
  {
    var m := MergeMandate(mid, party, state, co);
    var hm := Edge(HasMandate, PoliticianRef(det), MandateRef(mid));
    var ip := Edge(InPeriod, MandateRef(mid), PeriodRef(nr));
    assert MandateHead(mid, det, nr, party, state, co) == [m] + ([MatchMerge({hm, ip})] + []);
    Cons(m, [MatchMerge({hm, ip})] + []);
    Cons(MatchMerge({hm, ip}), []);
    NeedsTwo(hm, ip);
  }

  lemma MandateStep(g: Graph, mid: string, party: Attr, state: Attr, co: Attr)
    ensures Apply(g, MergeMandate(mid, party, state, co)) == g.(mandates := g.mandates[mid := MergedMandate(g, mid, party, state, co)])
  {
  }

  lemma MandateHeadEffect(g: Graph, mid: string, det: string, nr: string, party: Attr, state: Value, co: Value)
    ensures var h := RunAll(g, MandateHead(mid, det, nr, party, state, co));
            && Extends(g, h)
            && h.mandates == g.mandates[mid := MergedMandate(g, mid, party, state, co)]
            && (det in g.politicians && nr in g.periods ==>
                  Edge(HasMandate, PoliticianRef(det), MandateRef(mid)) in h.edges
                  && Edge(InPeriod, MandateRef(mid), PeriodRef(nr)) in h.edges)
  {
    var m := MergeMandate(mid, party, state, co);
    var hm := Edge(HasMandate, PoliticianRef(det), MandateRef(mid));
    var ip := Edge(InPeriod, MandateRef(mid), PeriodRef(nr));
    var mm := MatchMerge({hm, ip});
    var g1 := Apply(g, m);
    var g2 := Apply(g1, mm);
    assert RunAll(g, MandateHead(mid, det, nr, party, state, co)) == g2 by {
      assert MandateHead(mid, det, nr, party, state, co) == [m] + ([mm] + []);
      RunAllCons(g, m, [mm] + []);
      RunAllCons(g1, mm, []);
    }
    ApplyExtends(g, m);
    ApplyExtends(g1, mm);
    ExtendsTrans(g, g1, g2);
    MandateStep(g, mid, party, state, co);
    EdgeStep(g1, {hm, ip});
    if det in g.politicians && nr in g.periods {
      assert Present(g1, PoliticianRef(det)) && Present(g1, PeriodRef(nr)) && Present(g1, MandateRef(mid));
      assert Matches(g1, {hm, ip});
    }
  }

  function TagBlocks(mid: string, party: Attr, state: Value, co: Value): seq<Statement> {
    PartyBlock(mid, party) + StateBlock(mid, state) + ConstituencyBlock(mid, co)
  }

  predicate TagRef(n: NodeRef) {
    n.PartyRef? || n.StateRef? || n.ConstituencyRef?
  }

  lemma TagBlocksLabels(mid: string, party: Attr, state: Value, co: Value)
    ensures Labels(TagBlocks(mid, party, state, co)) <= {Party, State, Constituency}
    ensures forall n :: n in CreatedAll(TagBlocks(mid, party, state, co)) ==> TagRef(n)
  {
    var p := PartyBlock(mid, party);
    var t := StateBlock(mid, state);
    var c := ConstituencyBlock(mid, co);
    PartyBlockShape(mid, party);
    StateBlockShape(mid, state);
    ConstituencyBlockShape(mid, co);
    CreatedAllConcat(p, t);
    LabelsConcat(p, t);
    CreatedAllConcat(p + t, c);
    LabelsConcat(p + t, c);
  }

  lemma TagBlocksNames(mid: string, party: Attr, state: Value, co: Value)
    ensures PartiesOf(TagBlocks(mid, party, state, co)) == (if party.Some? then {party.value} else {})
    ensures StatesOf(TagBlocks(mid, party, state, co)) == (if Truthy(state) then {state.value} else {})
    ensures ConstituenciesOf(TagBlocks(mid, party, state, co)) == (if Truthy(co) then {co.value} else {})
  {
    TagBlocksParties(mid, party, state, co);
    TagBlocksStates(mid, party, state, co);
    TagBlocksConstituencies(mid, party, state, co);
  }

  lemma TagBlocksParties(mid: string, party: Attr, state: Value, co: Value)
    ensures PartiesOf(TagBlocks(mid, party, state, co)) == (if party.Some? then {party.value} else {})
  {
    var p := PartyBlock(mid, party);
    var t := StateBlock(mid, state);
    var c := ConstituencyBlock(mid, co);
    PartyBlockShape(mid, party);
    StateBlockShape(mid, state);
    ConstituencyBlockShape(mid, co);
    PartiesConcat(p, t);
    PartiesConcat(p + t, c);
    assert PartiesOf(TagBlocks(mid, party, state, co)) == PartiesOf(p) + PartiesOf(t) + PartiesOf(c);
  }

  lemma TagBlocksStates(mid: string, party: Attr, state: Value, co: Value)
    ensures StatesOf(TagBlocks(mid, party, state, co)) == (if Truthy(state) then {state.value} else {})
  {
    var p := PartyBlock(mid, party);
    var t := StateBlock(mid, state);
    var c := ConstituencyBlock(mid, co);
    PartyBlockShape(mid, party);
    StateBlockShape(mid, state);
    ConstituencyBlockShape(mid, co);
    StatesConcat(p, t);
    StatesConcat(p + t, c);
    assert StatesOf(TagBlocks(mid, party, state, co)) == StatesOf(p) + StatesOf(t) + StatesOf(c);
  }

  lemma TagBlocksConstituencies(mid: string, party: Attr, state: Value, co: Value)
    ensures ConstituenciesOf(TagBlocks(mid, party, state, co)) == (if Truthy(co) then {co.value} else {})
  {
    var p := PartyBlock(mid, party);
    var t := StateBlock(mid, state);
    var c := ConstituencyBlock(mid, co);
    PartyBlockShape(mid, party);
    StateBlockShape(mid, state);
    ConstituencyBlockShape(mid, co);
    ConstituenciesConcat(p, t);
    ConstituenciesConcat(p + t, c);
    assert ConstituenciesOf(TagBlocks(mid, party, state, co)) == ConstituenciesOf(p) + ConstituenciesOf(t) + ConstituenciesOf(c);
  }

  /** The Mandate block merges only the Mandate and its tags. */
  lemma MandateShape(mid: string, det: string, nr: string, party: Attr, state: Value, co: Value)
    ensures Labels(MandatePlan(mid, det, nr, party, state, co)) <= {Mandate, Party, State, Constituency}
    ensures forall n :: n in CreatedAll(MandatePlan(mid, det, nr, party, state, co)) ==> n.MandateRef? || TagRef(n)
    ensures PartiesOf(MandatePlan(mid, det, nr, party, state, co)) ==
              (if party.Some? then {party.value} else {})
    ensures StatesOf(MandatePlan(mid, det, nr, party, state, co)) == (if Truthy(state) then {state.value} else {})
    ensures ConstituenciesOf(MandatePlan(mid, det, nr, party, state, co)) == (if Truthy(co) then {co.value} else {})
  {
    MandateLabels(mid, det, nr, party, state, co);
    MandateNames(mid, det, nr, party, state, co);
  }

  lemma MandateLabels(mid: string, det: string, nr: string, party: Attr, state: Value, co: Value)
    ensures Labels(MandatePlan(mid, det, nr, party, state, co)) <= {Mandate, Party, State, Constituency}
    ensures forall n :: n in CreatedAll(MandatePlan(mid, det, nr, party, state, co)) ==> n.MandateRef? || TagRef(n)
  {
    var a := MandateHead(mid, det, nr, party, state, co);
    var tags := TagBlocks(mid, party, state, co);
    MandateSplit(mid, det, nr, party, state, co);
    assert MandatePlan(mid, det, nr, party, state, co) == a + tags;
    MandateHeadFacts(mid, det, nr, party, state, co, {PoliticianRef(det), PeriodRef(nr)}, {});
    TagBlocksLabels(mid, party, state, co);
    CreatedAllConcat(a, tags);
    LabelsConcat(a, tags);
  }

  lemma MandateNames(mid: string, det: string, nr: string, party: Attr, state: Value, co: Value)
    ensures PartiesOf(MandatePlan(mid, det, nr, party, state, co)) ==
              (if party.Some? then {party.value} else {})
    ensures StatesOf(MandatePlan(mid, det, nr, party, state, co)) == (if Truthy(state) then {state.value} else {})
    ensures ConstituenciesOf(MandatePlan(mid, det, nr, party, state, co)) == (if Truthy(co) then {co.value} else {})
  {
    MandatePartyNames(mid, det, nr, party, state, co);
    MandateStateNames(mid, det, nr, party, state, co);
    MandateConstituencyNames(mid, det, nr, party, state, co);
  }

  lemma MandatePartyNames(mid: string, det: string, nr: string, party: Attr, state: Value, co: Value)
    ensures PartiesOf(MandatePlan(mid, det, nr, party, state, co)) == (if party.Some? then {party.value} else {})
  {
    var a := MandateHead(mid, det, nr, party, state, co);
    var tags := TagBlocks(mid, party, state, co);
    MandateSplit(mid, det, nr, party, state, co);
    assert MandatePlan(mid, det, nr, party, state, co) == a + tags;
    MandateHeadNames(mid, det, nr, party, state, co);
    PartiesConcat(a, tags);
    TagBlocksParties(mid, party, state, co);
  }

  lemma MandateStateNames(mid: string, det: string, nr: string, party: Attr, state: Value, co: Value)
    ensures StatesOf(MandatePlan(mid, det, nr, party, state, co)) == (if Truthy(state) then {state.value} else {})
  {
    var a := MandateHead(mid, det, nr, party, state, co);
    var tags := TagBlocks(mid, party, state, co);
    MandateSplit(mid, det, nr, party, state, co);
    assert MandatePlan(mid, det, nr, party, state, co) == a + tags;
    MandateHeadNames(mid, det, nr, party, state, co);
    StatesConcat(a, tags);
    TagBlocksStates(mid, party, state, co);
  }

  lemma MandateConstituencyNames(mid: string, det: string, nr: string, party: Attr, state: Value, co: Value)
    ensures ConstituenciesOf(MandatePlan(mid, det, nr, party, state, co)) == (if Truthy(co) then {co.value} else {})
  {
    var a := MandateHead(mid, det, nr, party, state, co);
    var tags := TagBlocks(mid, party, state, co);
    MandateSplit(mid, det, nr, party, state, co);
    assert MandatePlan(mid, det, nr, party, state, co) == a + tags;
    MandateHeadNames(mid, det, nr, party, state, co);
    ConstituenciesConcat(a, tags);
    TagBlocksConstituencies(mid, party, state, co);
  }

  lemma MandateHeadNames(mid: string, det: string, nr: string, party: Attr, state: Value, co: Value)
    ensures PartiesOf(MandateHead(mid, det, nr, party, state, co)) == {}
    ensures StatesOf(MandateHead(mid, det, nr, party, state, co)) == {}
    ensures ConstituenciesOf(MandateHead(mid, det, nr, party, state, co)) == {}
  {
    var m := MergeMandate(mid, party, state, co);
    var hm := Edge(HasMandate, PoliticianRef(det), MandateRef(mid));
    var ip := Edge(InPeriod, MandateRef(mid), PeriodRef(nr));
    assert MandateHead(mid, det, nr, party, state, co) == [m] + ([MatchMerge({hm, ip})] + []);
    Cons(m, [MatchMerge({hm, ip})] + []);
    Cons(MatchMerge({hm, ip}), []);
  }

  /** The edges of the Mandate block need the Politician and the Period, and otherwise only what the block merges. */
  lemma MandateOrdered(mid: string, det: string, nr: string, party: Attr, state: Value, co: Value,
                       made: set<NodeRef>, outside: set<NodeRef>)
    requires PoliticianRef(det) in made && (PeriodRef(nr) in made || PeriodRef(nr) in outside)
    ensures WellOrdered(made, MandatePlan(mid, det, nr, party, state, co), outside)
  {
    var a := MandateHead(mid, det, nr, party, state, co);
    var p := PartyBlock(mid, party);
    var t := StateBlock(mid, state);
    var c := ConstituencyBlock(mid, co);
    MandateSplit(mid, det, nr, party, state, co);
    MandateHeadFacts(mid, det, nr, party, state, co, made, outside);
    var m1 := made + CreatedAll(a);
    PartyBlockFacts(EmptyGraph, mid, party, m1, outside);
    WellOrderedConcat(made, a, p, outside);
    CreatedAllConcat(a, p);
    var m2 := made + CreatedAll(a + p);
    StateBlockFacts(EmptyGraph, mid, state, m2, outside);
    WellOrderedConcat(made, a + p, t, outside);
    CreatedAllConcat(a + p, t);
    var m3 := made + CreatedAll(a + p + t);
    ConstituencyBlockFacts(EmptyGraph, mid, co, m3, outside);
    WellOrderedConcat(made, a + p + t, c, outside);
  }

  lemma TagBlocksEffect(g: Graph, mid: string, party: Attr, state: Value, co: Value)
    requires mid in g.mandates
    ensures var h := RunAll(g, TagBlocks(mid, party, state, co));
            && (party.Some? ==> Edge(AffiliatedWith, MandateRef(mid), PartyRef(party.value)) in h.edges)
            && (Truthy(state) ==> Edge(RepresentsState, MandateRef(mid), StateRef(state.value)) in h.edges)
            && (Truthy(co) ==> Edge(RepresentsConstituency, MandateRef(mid), ConstituencyRef(co.value)) in h.edges)
  {
    var p := PartyBlock(mid, party);
    var t := StateBlock(mid, state);
    var c := ConstituencyBlock(mid, co);
    RunAllConcat(g, p + t, c);
    RunAllConcat(g, p, t);
    var g1 := RunAll(g, p);
    var g2 := RunAll(g1, t);
    TagBlocksKeepMandate(g, mid, party, state);
    RunAllEdgesGrow(g1, t);
    RunAllEdgesGrow(g2, c);
    if party.Some? {
      TagEffect(g, MergeParty(party.value), Edge(AffiliatedWith, MandateRef(mid), PartyRef(party.value)));
    }
    if Truthy(state) {
      TagEffect(g1, MergeState(state.value), Edge(RepresentsState, MandateRef(mid), StateRef(state.value)));
    }
    if Truthy(co) {
      TagEffect(g2, MergeConstituency(co.value), Edge(RepresentsConstituency, MandateRef(mid), ConstituencyRef(co.value)));
    }
  }

  /** The Party and State blocks leave the Mandate in place for the blocks after them. */
  lemma TagBlocksKeepMandate(g: Graph, mid: string, party: Attr, state: Value)
    requires mid in g.mandates
    ensures mid in RunAll(g, PartyBlock(mid, party)).mandates
    ensures mid in RunAll(RunAll(g, PartyBlock(mid, party)), StateBlock(mid, state)).mandates
  {
    PartyBlockShape(mid, party);
    StateBlockShape(mid, state);
    RunAllFrame(g, PartyBlock(mid, party));
    RunAllFrame(RunAll(g, PartyBlock(mid, party)), StateBlock(mid, state));
  }

  /**
   * The Mandate block merges the Mandate, filling its absent fields; it links the
   * Mandate to its Party, State and Constituency when those are given, and to the
   * Politician and the Period when both exist.
   */
  lemma MandateEffect(g: Graph, mid: string, det: string, nr: string, party: Attr, state: Value, co: Value)
    ensures var h := RunAll(g, MandatePlan(mid, det, nr, party, state, co));
            && Extends(g, h)
            && h.mandates == g.mandates[mid := MergedMandate(g, mid, party, state, co)]
            && (det in g.politicians && nr in g.periods ==>
                  Edge(HasMandate, PoliticianRef(det), MandateRef(mid)) in h.edges
                  && Edge(InPeriod, MandateRef(mid), PeriodRef(nr)) in h.edges)
            && (party.Some? ==> Edge(AffiliatedWith, MandateRef(mid), PartyRef(party.value)) in h.edges)
            && (Truthy(state) ==> Edge(RepresentsState, MandateRef(mid), StateRef(state.value)) in h.edges)
            && (Truthy(co) ==> Edge(RepresentsConstituency, MandateRef(mid), ConstituencyRef(co.value)) in h.edges)
  {
    RunAllExtends(g, MandatePlan(mid, det, nr, party, state, co));
    MandateEffectMandate(g, mid, det, nr, party, state, co);
    if det in g.politicians && nr in g.periods {
      MandateEffectLinks(g, mid, det, nr, party, state, co);
    }
    MandateEffectTags(g, mid, det, nr, party, state, co);
  }

  lemma MandateEffectMandate(g: Graph, mid: string, det: string, nr: string, party: Attr, state: Value, co: Value)
    ensures RunAll(g, MandatePlan(mid, det, nr, party, state, co)).mandates ==
              g.mandates[mid := MergedMandate(g, mid, party, state, co)]
  {
    var a := MandateHead(mid, det, nr, party, state, co);
    var tags := TagBlocks(mid, party, state, co);
    MandateSplit(mid, det, nr, party, state, co);
    assert MandatePlan(mid, det, nr, party, state, co) == a + tags;
    RunAllConcat(g, a, tags);
    MandateHeadEffect(g, mid, det, nr, party, state, co);
    TagBlocksLabels(mid, party, state, co);
    RunAllFrame(RunAll(g, a), tags);
  }

  lemma MandateEffectLinks(g: Graph, mid: string, det: string, nr: string, party: Attr, state: Value, co: Value)
    requires det in g.politicians && nr in g.periods
    ensures var h := RunAll(g, MandatePlan(mid, det, nr, party, state, co));
            && Edge(HasMandate, PoliticianRef(det), MandateRef(mid)) in h.edges
            && Edge(InPeriod, MandateRef(mid), PeriodRef(nr)) in h.edges
  {
    var a := MandateHead(mid, det, nr, party, state, co);
    var tags := TagBlocks(mid, party, state, co);
    MandateSplit(mid, det, nr, party, state, co);
    assert MandatePlan(mid, det, nr, party, state, co) == a + tags;
    RunAllConcat(g, a, tags);
    MandateHeadEffect(g, mid, det, nr, party, state, co);
    RunAllEdgesGrow(RunAll(g, a), tags);
  }

  lemma MandateEffectTags(g: Graph, mid: string, det: string, nr: string, party: Attr, state: Value, co: Value)
    ensures var h := RunAll(g, MandatePlan(mid, det, nr, party, state, co));
            && (party.Some? ==> Edge(AffiliatedWith, MandateRef(mid), PartyRef(party.value)) in h.edges)
            && (Truthy(state) ==> Edge(RepresentsState, MandateRef(mid), StateRef(state.value)) in h.edges)
            && (Truthy(co) ==> Edge(RepresentsConstituency, MandateRef(mid), ConstituencyRef(co.value)) in h.edges)
  {
    var a := MandateHead(mid, det, nr, party, state, co);
    var tags := TagBlocks(mid, party, state, co);
    MandateSplit(mid, det, nr, party, state, co);
    assert MandatePlan(mid, det, nr, party, state, co) == a + tags;
    RunAllConcat(g, a, tags);
    MandateHeadEffect(g, mid, det, nr, party, state, co);
    TagBlocksEffect(RunAll(g, a), mid, party, state, co);
  }

  // ---------------------------------------------------------------------
  // _politician: the period block
  // ---------------------------------------------------------------------

  /** The Period the period block links to when the record names one: a node `_politician` never merges. */
  function PeriodOutside(nr: Value): set<NodeRef> {
    if Truthy(nr) then {PeriodRef(nr.value)} else {}
  }

  lemma PeriodPartSplit(sha1: string -> string, det: string, nr: Value, rawParty: Value, state: Value, co: Value)
    requires Truthy(nr)
    ensures PoliticianPeriodPlan(sha1, det, nr, rawParty, state, co) ==
              [MatchMerge({Edge(ServedDuring, PoliticianRef(det), PeriodRef(nr.value))})] + ([] +
              MandatePlan(MandateId(sha1, nr.value, det), det, nr.value, MandateParty(rawParty), state, co))
  {
  }

  lemma PeriodPartShape(sha1: string -> string, det: string, nr: Value, rawParty: Value, state: Value, co: Value)
    ensures Labels(PoliticianPeriodPlan(sha1, det, nr, rawParty, state, co)) <= {Mandate, Party, State, Constituency}
    ensures forall n :: n in CreatedAll(PoliticianPeriodPlan(sha1, det, nr, rawParty, state, co)) ==> n.MandateRef? || TagRef(n)
  {
    if Truthy(nr) {
      var sd := MatchMerge({Edge(ServedDuring, PoliticianRef(det), PeriodRef(nr.value))});
      var m := MandatePlan(MandateId(sha1, nr.value, det), det, nr.value, MandateParty(rawParty), state, co);
      PeriodPartSplit(sha1, det, nr, rawParty, state, co);
      assert [] + m == m;
      Cons(sd, m);
      MandateShape(MandateId(sha1, nr.value, det), det, nr.value, MandateParty(rawParty), state, co);
    }
  }

  lemma PeriodPartNames(sha1: string -> string, det: string, nr: Value, rawParty: Value, state: Value, co: Value)
    ensures PartiesOf(PoliticianPeriodPlan(sha1, det, nr, rawParty, state, co)) ==
              (if Truthy(nr) && Truthy(rawParty) then {NormalizePartyName(rawParty)} else {})
    ensures StatesOf(PoliticianPeriodPlan(sha1, det, nr, rawParty, state, co)) ==
              (if Truthy(nr) && Truthy(state) then {state.value} else {})
    ensures ConstituenciesOf(PoliticianPeriodPlan(sha1, det, nr, rawParty, state, co)) ==
              (if Truthy(nr) && Truthy(co) then {co.value} else {})
  {
    if Truthy(nr) {
      var sd := MatchMerge({Edge(ServedDuring, PoliticianRef(det), PeriodRef(nr.value))});
      var m := MandatePlan(MandateId(sha1, nr.value, det), det, nr.value, MandateParty(rawParty), state, co);
      PeriodPartSplit(sha1, det, nr, rawParty, state, co);
      assert [] + m == m;
      Cons(sd, m);
      MandateShape(MandateId(sha1, nr.value, det), det, nr.value, MandateParty(rawParty), state, co);
    }
  }

  lemma PeriodPartOrdered(sha1: string -> string, det: string, nr: Value, rawParty: Value, state: Value, co: Value,
                          made: set<NodeRef>)
    requires PoliticianRef(det) in made
    ensures WellOrdered(made, PoliticianPeriodPlan(sha1, det, nr, rawParty, state, co), PeriodOutside(nr))
  {
    if Truthy(nr) {
      var e := Edge(ServedDuring, PoliticianRef(det), PeriodRef(nr.value));
      var m := MandatePlan(MandateId(sha1, nr.value, det), det, nr.value, MandateParty(rawParty), state, co);
      PeriodPartSplit(sha1, det, nr, rawParty, state, co);
      assert [] + m == m;
      Cons(MatchMerge({e}), m);
      NeedsOne(e);
      MandateOrdered(MandateId(sha1, nr.value, det), det, nr.value, MandateParty(rawParty), state, co,
                     made + Created(MatchMerge({e})), PeriodOutside(nr));
    }
  }

  /** The period block changes no Domain, Page, Period, Politician or Content. */
  lemma PeriodPartFrame(g: Graph, sha1: string -> string, det: string, nr: Value, rawParty: Value, state: Value, co: Value)
    ensures var h := RunAll(g, PoliticianPeriodPlan(sha1, det, nr, rawParty, state, co));
            && h.domains == g.domains && h.pages == g.pages && h.periods == g.periods
            && h.politicians == g.politicians && h.contents == g.contents
  {
    var plan := PoliticianPeriodPlan(sha1, det, nr, rawParty, state, co);
    PeriodPartShape(sha1, det, nr, rawParty, state, co);
    assert Domain !in Labels(plan) && Page !in Labels(plan) && Period !in Labels(plan);
    assert Politician !in Labels(plan) && Content !in Labels(plan);
    RunAllFrame(g, plan);
  }

  /** The period block, once the Politician exists. */
  lemma PeriodPartEffect(g: Graph, sha1: string -> string, det: string, nr: Value, rawParty: Value, state: Value, co: Value)
    requires det in g.politicians
    ensures var h := RunAll(g, PoliticianPeriodPlan(sha1, det, nr, rawParty, state, co));
            && Extends(g, h)
            && (!Truthy(nr) ==> h == g)
            && (Truthy(nr) ==>
                  var mid := MandateId(sha1, nr.value, det);
                  && h.mandates == g.mandates[mid := MergedMandate(g, mid, MandateParty(rawParty), state, co)]
                  && (nr.value in g.periods ==>
                        && Edge(ServedDuring, PoliticianRef(det), PeriodRef(nr.value)) in h.edges
                        && Edge(HasMandate, PoliticianRef(det), MandateRef(mid)) in h.edges
                        && Edge(InPeriod, MandateRef(mid), PeriodRef(nr.value)) in h.edges)
                  && (Truthy(rawParty) ==>
                        Edge(AffiliatedWith, MandateRef(mid), PartyRef(NormalizePartyName(rawParty))) in h.edges)
                  && (Truthy(state) ==> Edge(RepresentsState, MandateRef(mid), StateRef(state.value)) in h.edges)
                  && (Truthy(co) ==> Edge(RepresentsConstituency, MandateRef(mid), ConstituencyRef(co.value)) in h.edges))
  {
    RunAllExtends(g, PoliticianPeriodPlan(sha1, det, nr, rawParty, state, co));
    if Truthy(nr) {
      PeriodPartMandate(g, sha1, det, nr, rawParty, state, co);
      PeriodPartTags(g, sha1, det, nr, rawParty, state, co);
    }
  }

  /** The period block runs the ServedDuring statement and then the Mandate block. */
  lemma PeriodPartRun(g: Graph, sha1: string -> string, det: string, nr: Value, rawParty: Value, state: Value, co: Value)
    requires Truthy(nr)
    ensures var e := Edge(ServedDuring, PoliticianRef(det), PeriodRef(nr.value));
            var g1 := Apply(g, MatchMerge({e}));
            && RunAll(g, PoliticianPeriodPlan(sha1, det, nr, rawParty, state, co)) ==
                 RunAll(g1, MandatePlan(MandateId(sha1, nr.value, det), det, nr.value, MandateParty(rawParty), state, co))
            && g1 == g.(edges := g1.edges)
            && (nr.value in g.periods && det in g.politicians ==> e in g1.edges)
  {
    var e := Edge(ServedDuring, PoliticianRef(det), PeriodRef(nr.value));
    var m := MandatePlan(MandateId(sha1, nr.value, det), det, nr.value, MandateParty(rawParty), state, co);
    PeriodPartSplit(sha1, det, nr, rawParty, state, co);
    assert [] + m == m;
    RunAllCons(g, MatchMerge({e}), m);
    EdgeStep(g, {e});
    if nr.value in g.periods && det in g.politicians {
      assert Matches(g, {e});
    }
  }

  lemma PeriodPartMandate(g: Graph, sha1: string -> string, det: string, nr: Value, rawParty: Value, state: Value, co: Value)
    requires det in g.politicians && Truthy(nr)
    ensures var h := RunAll(g, PoliticianPeriodPlan(sha1, det, nr, rawParty, state, co));
            var mid := MandateId(sha1, nr.value, det);
            && h.mandates == g.mandates[mid := MergedMandate(g, mid, MandateParty(rawParty), state, co)]
            && (nr.value in g.periods ==>
                  && Edge(ServedDuring, PoliticianRef(det), PeriodRef(nr.value)) in h.edges
                  && Edge(HasMandate, PoliticianRef(det), MandateRef(mid)) in h.edges
                  && Edge(InPeriod, MandateRef(mid), PeriodRef(nr.value)) in h.edges)
  {
    var mid := MandateId(sha1, nr.value, det);
    var e := Edge(ServedDuring, PoliticianRef(det), PeriodRef(nr.value));
    var g1 := Apply(g, MatchMerge({e}));
    var m := MandatePlan(mid, det, nr.value, MandateParty(rawParty), state, co);
    PeriodPartRun(g, sha1, det, nr, rawParty, state, co);
    MandateEffectMandate(g1, mid, det, nr.value, MandateParty(rawParty), state, co);
    assert MergedMandate(g1, mid, MandateParty(rawParty), state, co) == MergedMandate(g, mid, MandateParty(rawParty), state, co);
    if nr.value in g.periods {
      MandateEffectLinks(g1, mid, det, nr.value, MandateParty(rawParty), state, co);
      RunAllEdgesGrow(g1, m);
    }
  }

  lemma PeriodPartTags(g: Graph, sha1: string -> string, det: string, nr: Value, rawParty: Value, state: Value, co: Value)
    requires Truthy(nr)
    ensures var h := RunAll(g, PoliticianPeriodPlan(sha1, det, nr, rawParty, state, co));
            var mid := MandateId(sha1, nr.value, det);
            && (Truthy(rawParty) ==>
                  Edge(AffiliatedWith, MandateRef(mid), PartyRef(NormalizePartyName(rawParty))) in h.edges)
            && (Truthy(state) ==> Edge(RepresentsState, MandateRef(mid), StateRef(state.value)) in h.edges)
            && (Truthy(co) ==> Edge(RepresentsConstituency, MandateRef(mid), ConstituencyRef(co.value)) in h.edges)
  {
    var mid := MandateId(sha1, nr.value, det);
    var e := Edge(ServedDuring, PoliticianRef(det), PeriodRef(nr.value));
    PeriodPartRun(g, sha1, det, nr, rawParty, state, co);
    MandateEffectTags(Apply(g, MatchMerge({e})), mid, det, nr.value, MandateParty(rawParty), state, co);
    if Truthy(rawParty) {
      assert MandateParty(rawParty).value == NormalizePartyName(rawParty);
    }
  }

  // ---------------------------------------------------------------------
  // _politician: the whole transaction
  // ---------------------------------------------------------------------

  /** The Politician statement: full_name is filled when absent, the other fields are set only on creation. */
  function MergedPolitician(g: Graph, det: string, full: Attr, first: Attr, last: Attr, birth: Attr, death: Attr): PoliticianNode {
    if det in g.politicians then g.politicians[det].(fullName := Coalesce(g.politicians[det].fullName, full))
    else PoliticianNode(full, first, last, birth, death)
  }

  lemma PoliticianDecompose(g: Graph, sha1: string -> string, netloc: string -> string, det: string, full: Attr,
                            first: Attr, last: Attr, birth: Attr, death: Attr, src: Value,
                            nr: Value, rawParty: Value, state: Value, co: Value)
    ensures var g1 := Apply(g, MergePolitician(det, full, first, last, birth, death));
            var g2 := RunAll(g1, PoliticianPagesPlan(netloc, det, src));
            && g1 == g.(politicians := g.politicians[det := MergedPolitician(g, det, full, first, last, birth, death)])
            && RunAll(g, PoliticianStatements(sha1, netloc, det, full, first, last, birth, death, src, nr, rawParty, state, co))
                 == RunAll(g2, PoliticianPeriodPlan(sha1, det, nr, rawParty, state, co))
            && g2.politicians == g1.politicians && g2.periods == g.periods && g2.mandates == g.mandates
            && g2.contents == g.contents && g2.parties == g.parties && g2.states == g.states
            && g2.constituencies == g.constituencies
  {
    var g1 := Apply(g, MergePolitician(det, full, first, last, birth, death));
    PoliticianMerged(g, det, full, first, last, birth, death);
    PoliticianRunSplit(g, sha1, netloc, det, full, first, last, birth, death, src, nr, rawParty, state, co);
    PagesFrame(g1, netloc, det, src);
  }

  lemma PoliticianMerged(g: Graph, det: string, full: Attr, first: Attr, last: Attr, birth: Attr, death: Attr)
    ensures Apply(g, MergePolitician(det, full, first, last, birth, death))
              == g.(politicians := g.politicians[det := MergedPolitician(g, det, full, first, last, birth, death)])
  {
  }

  lemma PoliticianRunSplit(g: Graph, sha1: string -> string, netloc: string -> string, det: string, full: Attr,
                           first: Attr, last: Attr, birth: Attr, death: Attr, src: Value,
                           nr: Value, rawParty: Value, state: Value, co: Value)
    ensures var g1 := Apply(g, MergePolitician(det, full, first, last, birth, death));
            RunAll(g, PoliticianStatements(sha1, netloc, det, full, first, last, birth, death, src, nr, rawParty, state, co))
              == RunAll(RunAll(g1, PoliticianPagesPlan(netloc, det, src)), PoliticianPeriodPlan(sha1, det, nr, rawParty, state, co))
  {
    var s0 := MergePolitician(det, full, first, last, birth, death);
    var a := PoliticianPagesPlan(netloc, det, src);
    var b := PoliticianPeriodPlan(sha1, det, nr, rawParty, state, co);
    RunAllConcat(g, [s0] + a, b);
    RunAllConcat(g, [s0], a);
    RunAllSingle(g, s0);
  }

  /** The page block changes no Politician, Period, Mandate, Content, Party, State or Constituency. */
  lemma PagesFrame(g: Graph, netloc: string -> string, det: string, src: Value)
    ensures var h := RunAll(g, PoliticianPagesPlan(netloc, det, src));
            && h.politicians == g.politicians && h.periods == g.periods && h.mandates == g.mandates
            && h.contents == g.contents && h.parties == g.parties && h.states == g.states
            && h.constituencies == g.constituencies
  {
    var a := PoliticianPagesPlan(netloc, det, src);
    PagesShape(netloc, det, src, {PoliticianRef(det)}, {});
    RunAllFrame(g, a);
  }

  /** `_politician` merges the Politician, filling an absent full_name, and merges no Period and no Content. */
  lemma PoliticianNodeEffect(g: Graph, sha1: string -> string, netloc: string -> string, det: string, full: Attr,
                             first: Attr, last: Attr, birth: Attr, death: Attr, src: Value,
                             nr: Value, rawParty: Value, state: Value, co: Value)
    ensures var h := RunAll(g, PoliticianStatements(sha1, netloc, det, full, first, last, birth, death, src, nr, rawParty, state, co));
            && h.politicians == g.politicians[det := MergedPolitician(g, det, full, first, last, birth, death)]
            && h.periods == g.periods && h.contents == g.contents
  {
    var g1 := Apply(g, MergePolitician(det, full, first, last, birth, death));
    var g2 := RunAll(g1, PoliticianPagesPlan(netloc, det, src));
    PoliticianDecompose(g, sha1, netloc, det, full, first, last, birth, death, src, nr, rawParty, state, co);
    PeriodPartFrame(g2, sha1, det, nr, rawParty, state, co);
  }

  /** `_politician` leaves the detail page and, for a truthy source page, the source page, with their edges. */
  lemma PoliticianPageEffect(g: Graph, sha1: string -> string, netloc: string -> string, det: string, full: Attr,
                             first: Attr, last: Attr, birth: Attr, death: Attr, src: Value,
                             nr: Value, rawParty: Value, state: Value, co: Value)
    ensures var h := RunAll(g, PoliticianStatements(sha1, netloc, det, full, first, last, birth, death, src, nr, rawParty, state, co));
            && det in h.pages && netloc(det) in h.domains && Edge(HasDetailPage, PoliticianRef(det), PageRef(det)) in h.edges
            && (Truthy(src) ==>
                  && src.value in h.pages
                  && Edge(HasSourcePage, PoliticianRef(det), PageRef(src.value)) in h.edges
                  && Edge(LinksToDetail, PageRef(src.value), PageRef(det)) in h.edges)
  {
    var g1 := Apply(g, MergePolitician(det, full, first, last, birth, death));
    var g2 := RunAll(g1, PoliticianPagesPlan(netloc, det, src));
    var h := RunAll(g2, PoliticianPeriodPlan(sha1, det, nr, rawParty, state, co));
    PoliticianDecompose(g, sha1, netloc, det, full, first, last, birth, death, src, nr, rawParty, state, co);
    PagesEffect(g1, netloc, det, src);
    PeriodPartEffect(g2, sha1, det, nr, rawParty, state, co);
    ExtendsPresent(g2, h, PageRef(det));
    ExtendsPresent(g2, h, DomainRef(netloc(det)));
    if Truthy(src) {
      ExtendsPresent(g2, h, PageRef(src.value));
    }
  }

  /**
   * With a truthy period number `_politician` merges the Mandate of that period and
   * politician, filling its absent fields, and the truthy Party, State and
   * Constituency with their edges; without one it merges none of them.
   */
  lemma PoliticianMandateEffect(g: Graph, sha1: string -> string, netloc: string -> string, det: string, full: Attr,
                                first: Attr, last: Attr, birth: Attr, death: Attr, src: Value,
                                nr: Value, rawParty: Value, state: Value, co: Value)
    ensures var h := RunAll(g, PoliticianStatements(sha1, netloc, det, full, first, last, birth, death, src, nr, rawParty, state, co));
            && (!Truthy(nr) ==> h.mandates == g.mandates)
            && h.parties == g.parties + (if Truthy(nr) && Truthy(rawParty) then {NormalizePartyName(rawParty)} else {})
            && h.states == g.states + (if Truthy(nr) && Truthy(state) then {state.value} else {})
            && h.constituencies == g.constituencies + (if Truthy(nr) && Truthy(co) then {co.value} else {})
            && (Truthy(nr) ==>
                  var mid := MandateId(sha1, nr.value, det);
                  && h.mandates == g.mandates[mid := MergedMandate(g, mid, MandateParty(rawParty), state, co)]
                  && (Truthy(rawParty) ==>
                        Edge(AffiliatedWith, MandateRef(mid), PartyRef(NormalizePartyName(rawParty))) in h.edges)
                  && (Truthy(state) ==> Edge(RepresentsState, MandateRef(mid), StateRef(state.value)) in h.edges)
                  && (Truthy(co) ==> Edge(RepresentsConstituency, MandateRef(mid), ConstituencyRef(co.value)) in h.edges))
  {
    var g1 := Apply(g, MergePolitician(det, full, first, last, birth, death));
    var g2 := RunAll(g1, PoliticianPagesPlan(netloc, det, src));
    PoliticianDecompose(g, sha1, netloc, det, full, first, last, birth, death, src, nr, rawParty, state, co);
    PeriodPartEffect(g2, sha1, det, nr, rawParty, state, co);
    PeriodPartNames(sha1, det, nr, rawParty, state, co);
    RunAllFrame(g2, PoliticianPeriodPlan(sha1, det, nr, rawParty, state, co));
    if Truthy(nr) {
      var mid := MandateId(sha1, nr.value, det);
      assert MergedMandate(g2, mid, MandateParty(rawParty), state, co) == MergedMandate(g, mid, MandateParty(rawParty), state, co);
    }
  }

  /** `_politician` merges no Period and no Content. */
  lemma PoliticianCreates(sha1: string -> string, netloc: string -> string, det: string, full: Attr,
                          first: Attr, last: Attr, birth: Attr, death: Attr, src: Value,
                          nr: Value, rawParty: Value, state: Value, co: Value)
    ensures forall n :: n in CreatedAll(PoliticianStatements(sha1, netloc, det, full, first, last, birth, death, src, nr, rawParty, state, co))
              ==> !n.PeriodRef? && !n.ContentRef?
  {
    var s0 := MergePolitician(det, full, first, last, birth, death);
    var a := PoliticianPagesPlan(netloc, det, src);
    var b := PoliticianPeriodPlan(sha1, det, nr, rawParty, state, co);
    var ss := PoliticianStatements(sha1, netloc, det, full, first, last, birth, death, src, nr, rawParty, state, co);
    assert CreatedAll(ss) == Created(s0) + CreatedAll(a) + CreatedAll(b) by {
      CreatedAllConcat([s0] + a, b);
      ConsSets(s0, a);
    }
    PagesShape(netloc, det, src, {PoliticianRef(det)}, {});
    PeriodPartShape(sha1, det, nr, rawParty, state, co);
    forall n | n in CreatedAll(ss) ensures !n.PeriodRef? && !n.ContentRef? {
      if n in CreatedAll(a) {
        assert n.DomainRef? || n.PageRef?;
      } else if n in CreatedAll(b) {
        assert n.MandateRef? || TagRef(n);
      }
    }
  }

  /** Every edge of `_politician` needs only nodes merged before it, or the record's Period. */
  lemma PoliticianOrdered(sha1: string -> string, netloc: string -> string, det: string, full: Attr,
                          first: Attr, last: Attr, birth: Attr, death: Attr, src: Value,
                          nr: Value, rawParty: Value, state: Value, co: Value)
    ensures WellOrdered({}, PoliticianStatements(sha1, netloc, det, full, first, last, birth, death, src, nr, rawParty, state, co),
                        PeriodOutside(nr))
  {
    var s0 := MergePolitician(det, full, first, last, birth, death);
    var a := PoliticianPagesPlan(netloc, det, src);
    var b := PoliticianPeriodPlan(sha1, det, nr, rawParty, state, co);
    Cons(s0, []);
    var m1 := {} + CreatedAll([s0]);
    PagesShape(netloc, det, src, m1, PeriodOutside(nr));
    WellOrderedConcat({}, [s0], a, PeriodOutside(nr));
    CreatedAllConcat([s0], a);
    var m2 := {} + CreatedAll([s0] + a);
    PeriodPartOrdered(sha1, det, nr, rawParty, state, co, m2);
    WellOrderedConcat({}, [s0] + a, b, PeriodOutside(nr));
  }

  /** A linked page adds only page and domain edges, so it never adds an edge into another kind of node. */
  lemma LinkedPageGuarded(netloc: string -> string, rel: Rel, owner: NodeRef, url: string, e: Edge, n: NodeRef)
    requires !e.dst.PageRef? && !e.dst.DomainRef?
    ensures GuardedBy(LinkedPagePlan(netloc, rel, owner, url), e, n)
  {
  }

  /** A tag block adds only its own edge. */
  lemma TagPlanGuarded(tag: Statement, f: Edge, e: Edge, n: NodeRef)
    requires !tag.MatchMerge? && e != f
    ensures GuardedBy(TagPlan(tag, f), e, n)
  {
  }

  /** The page statements of `_politician` add no edge into a Mandate. */
  lemma PagesGuarded(netloc: string -> string, det: string, src: Value, e: Edge, n: NodeRef)
    requires e.dst.MandateRef?
    ensures GuardedBy(PoliticianPagesPlan(netloc, det, src), e, n)
  {
    PagesSplit(netloc, det, src);
    var a, b, c := SourceBlock(netloc, det, src), LinkedPagePlan(netloc, HasDetailPage, PoliticianRef(det), det), LinkBlock(det, src);
    if Truthy(src) {
      LinkedPageGuarded(netloc, HasSourcePage, PoliticianRef(det), src.value, e, n);
    }
    LinkedPageGuarded(netloc, HasDetailPage, PoliticianRef(det), det, e, n);
    assert GuardedBy(c, e, n);
    GuardedByConcat(a, b, e, n);
    GuardedByConcat(a + b, c, e, n);
  }

  /** The only statement of `_politician` that adds HAS_MANDATE also MATCHes the record's Period. */
  lemma HasMandateGuarded(sha1: string -> string, netloc: string -> string, det: string, full: Attr,
                          first: Attr, last: Attr, birth: Attr, death: Attr, src: Value,
                          nr: Value, rawParty: Value, state: Value, co: Value)
    requires Truthy(nr)
    ensures GuardedBy(PoliticianStatements(sha1, netloc, det, full, first, last, birth, death, src, nr, rawParty, state, co),
                      Edge(HasMandate, PoliticianRef(det), MandateRef(MandateId(sha1, nr.value, det))), PeriodRef(nr.value))
  {
    var mid := MandateId(sha1, nr.value, det);
    var hm := Edge(HasMandate, PoliticianRef(det), MandateRef(mid));
    var per := PeriodRef(nr.value);
    var party := MandateParty(rawParty);
    var s0 := MergePolitician(det, full, first, last, birth, death);
    var pages := PoliticianPagesPlan(netloc, det, src);
    PagesGuarded(netloc, det, src, hm, per);
    var sd := [MatchMerge({Edge(ServedDuring, PoliticianRef(det), per)})];
    var head := MandateHead(mid, det, nr.value, party, state, co);
    assert GuardedBy(head, hm, per) by {
      assert Edge(InPeriod, MandateRef(mid), per) in head[1].edges;
    }
    var pb, sb, cb := PartyBlock(mid, party), StateBlock(mid, state), ConstituencyBlock(mid, co);
    if party.Some? {
      TagPlanGuarded(MergeParty(party.value), Edge(AffiliatedWith, MandateRef(mid), PartyRef(party.value)), hm, per);
    }
    if Truthy(state) {
      TagPlanGuarded(MergeState(state.value), Edge(RepresentsState, MandateRef(mid), StateRef(state.value)), hm, per);
    }
    if Truthy(co) {
      TagPlanGuarded(MergeConstituency(co.value),
                     Edge(RepresentsConstituency, MandateRef(mid), ConstituencyRef(co.value)), hm, per);
    }
    GuardedByConcat(head, pb, hm, per);
    GuardedByConcat(head + pb, sb, hm, per);
    GuardedByConcat(head + pb + sb, cb, hm, per);
    MandateSplit(mid, det, nr.value, party, state, co);
    PeriodPartSplit(sha1, det, nr, rawParty, state, co);
    var mandate := MandatePlan(mid, det, nr.value, party, state, co);
    assert [] + mandate == mandate;
    GuardedByConcat(sd, mandate, hm, per);
    GuardedByConcat([s0], pages, hm, per);
    GuardedByConcat([s0] + pages, sd + mandate, hm, per);
  }

  /**
   * SERVED_DURING and IN_PERIOD need the record's Period: in a graph whose edges join
   * existing nodes, `_politician` leaves them exactly when that Period was written
   * before. HAS_MANDATE is then added too; without the Period it is added only
   * if it was there already.
   */
  lemma PoliticianPeriodLinks(g: Graph, sha1: string -> string, netloc: string -> string, det: string, full: Attr,
                              first: Attr, last: Attr, birth: Attr, death: Attr, src: Value,
                              nr: Value, rawParty: Value, state: Value, co: Value)
    requires Valid(g) && Truthy(nr)
    ensures var h := RunAll(g, PoliticianStatements(sha1, netloc, det, full, first, last, birth, death, src, nr, rawParty, state, co));
            var mid := MandateId(sha1, nr.value, det);
            && (Edge(ServedDuring, PoliticianRef(det), PeriodRef(nr.value)) in h.edges <==> nr.value in g.periods)
            && (Edge(InPeriod, MandateRef(mid), PeriodRef(nr.value)) in h.edges <==> nr.value in g.periods)
            && (nr.value in g.periods ==> Edge(HasMandate, PoliticianRef(det), MandateRef(mid)) in h.edges)
            && (nr.value !in g.periods ==>
                  (Edge(HasMandate, PoliticianRef(det), MandateRef(mid)) in h.edges
                   <==> Edge(HasMandate, PoliticianRef(det), MandateRef(mid)) in g.edges))
  {
    var ss := PoliticianStatements(sha1, netloc, det, full, first, last, birth, death, src, nr, rawParty, state, co);
    var h := RunAll(g, ss);
    var per := PeriodRef(nr.value);
    if nr.value in g.periods {
      var g1 := Apply(g, MergePolitician(det, full, first, last, birth, death));
      var g2 := RunAll(g1, PoliticianPagesPlan(netloc, det, src));
      PoliticianDecompose(g, sha1, netloc, det, full, first, last, birth, death, src, nr, rawParty, state, co);
      PeriodPartEffect(g2, sha1, det, nr, rawParty, state, co);
    } else {
      PoliticianCreates(sha1, netloc, det, full, first, last, birth, death, src, nr, rawParty, state, co);
      RunAllAbsent(g, ss, per);
      RunAllValid(g, ss);
      HasMandateGuarded(sha1, netloc, det, full, first, last, birth, death, src, nr, rawParty, state, co);
      RunAllGuarded(g, ss, Edge(HasMandate, PoliticianRef(det), MandateRef(MandateId(sha1, nr.value, det))), per);
    }
  }

  /** Writing the same politician record twice leaves the graph as writing it once. */
  lemma PoliticianIdempotent(g: Graph, sha1: string -> string, netloc: string -> string, det: string, full: Attr,
                             first: Attr, last: Attr, birth: Attr, death: Attr, src: Value,
                             nr: Value, rawParty: Value, state: Value, co: Value)
    ensures var ss := PoliticianStatements(sha1, netloc, det, full, first, last, birth, death, src, nr, rawParty, state, co);
            RunAll(RunAll(g, ss), ss) == RunAll(g, ss)
  {
    var ss := PoliticianStatements(sha1, netloc, det, full, first, last, birth, death, src, nr, rawParty, state, co);
    PoliticianOrdered(sha1, netloc, det, full, first, last, birth, death, src, nr, rawParty, state, co);
    PoliticianCreates(sha1, netloc, det, full, first, last, birth, death, src, nr, rawParty, state, co);
    RunAllIdempotent(g, ss, PeriodOutside(nr));
  }

  // ---------------------------------------------------------------------
  // _content
  // ---------------------------------------------------------------------

  /**
   * `_content` reads source_page and section_header for the id, cannot MERGE a Page
   * on a None URL, and then reads section_content.
   */
  lemma ContentFails(sha1: string -> string, netloc: string -> string, pc: Fields)
    ensures ContentPlan(sha1, netloc, pc).Failure? <==>
              "source_page" !in pc || "section_header" !in pc || pc["source_page"].None? || "section_content" !in pc
    ensures "source_page" !in pc ==> ContentPlan(sha1, netloc, pc) == Failure(KeyError("source_page"))
    ensures "source_page" in pc && "section_header" in pc && pc["source_page"].None? ==>
              ContentPlan(sha1, netloc, pc) == Failure(NullMergeKey("Page"))
  {
  }

  lemma ContentPlanStatements(sha1: string -> string, netloc: string -> string, pc: Fields)
    requires ContentPlan(sha1, netloc, pc).Success?
    ensures ContentPlan(sha1, netloc, pc).value ==
              ContentStatements(netloc, ContentId(sha1, pc["source_page"], pc["section_header"]), pc["source_page"].value,
                                pc["section_header"], pc["section_content"])
  {
  }

  /** The Content statement: section_content is filled when absent, the header set only on creation. */
  function MergedContent(g: Graph, cid: string, hdr: Attr, txt: Attr): ContentNode {
    if cid in g.contents then g.contents[cid].(sectionContent := Coalesce(g.contents[cid].sectionContent, txt))
    else ContentNode(hdr, txt)
  }

  function ContentTail(cid: string, url: string, hdr: Attr, txt: Attr): seq<Statement> {
    [MergeContent(cid, hdr, txt)]
    + ([MatchMerge({Edge(HasSourcePage, ContentRef(cid), PageRef(url))})]
    + ([MatchMerge({Edge(HasContent, PoliticianRef(url), ContentRef(cid))})] + []))
  }

  lemma ContentSplit(netloc: string -> string, cid: string, url: string, hdr: Attr, txt: Attr)
    ensures ContentStatements(netloc, cid, url, hdr, txt) == EnsurePagePlan(netloc, url, None, None) + ContentTail(cid, url, hdr, txt)
  {
  }

  /** `_content` merges no Period, Politician or Mandate. */
  lemma ContentCreates(netloc: string -> string, cid: string, url: string, hdr: Attr, txt: Attr)
    ensures CreatedAll(ContentStatements(netloc, cid, url, hdr, txt)) == {DomainRef(netloc(url)), PageRef(url), ContentRef(cid)}
    ensures Labels(ContentStatements(netloc, cid, url, hdr, txt)) == {Domain, Page, Content}
  {
    var ens := EnsurePagePlan(netloc, url, None, None);
    var tail := ContentTail(cid, url, hdr, txt);
    ContentSplit(netloc, cid, url, hdr, txt);
    EnsurePageCreates(netloc, url, None, None);
    ContentTailShape(cid, url, hdr, txt);
    CreatedAllConcat(ens, tail);
    LabelsConcat(ens, tail);
  }

  lemma ContentTailShape(cid: string, url: string, hdr: Attr, txt: Attr)
    ensures CreatedAll(ContentTail(cid, url, hdr, txt)) == {ContentRef(cid)}
    ensures Labels(ContentTail(cid, url, hdr, txt)) == {Content}
  {
    var hs := Edge(HasSourcePage, ContentRef(cid), PageRef(url));
    var hc := Edge(HasContent, PoliticianRef(url), ContentRef(cid));
    ConsSets(MergeContent(cid, hdr, txt), [MatchMerge({hs})] + ([MatchMerge({hc})] + []));
    ConsSets(MatchMerge({hs}), [MatchMerge({hc})] + []);
    ConsSets(MatchMerge({hc}), []);
  }

  /** Every edge of `_content` needs only nodes merged before it, or the Politician whose detail page the URL is. */
  lemma ContentOrdered(netloc: string -> string, cid: string, url: string, hdr: Attr, txt: Attr)
    ensures WellOrdered({}, ContentStatements(netloc, cid, url, hdr, txt), {PoliticianRef(url)})
  {
    var ens := EnsurePagePlan(netloc, url, None, None);
    var hs := Edge(HasSourcePage, ContentRef(cid), PageRef(url));
    var hc := Edge(HasContent, PoliticianRef(url), ContentRef(cid));
    ContentSplit(netloc, cid, url, hdr, txt);
    EnsurePageCreates(netloc, url, None, None);
    EnsurePageOrdered({}, netloc, url, None, None, {PoliticianRef(url)});
    ConsOrder(MergeContent(cid, hdr, txt), [MatchMerge({hs})] + ([MatchMerge({hc})] + []));
    ConsOrder(MatchMerge({hs}), [MatchMerge({hc})] + []);
    ConsOrder(MatchMerge({hc}), []);
    NeedsOne(hs);
    NeedsOne(hc);
    WellOrderedConcat({}, ens, ContentTail(cid, url, hdr, txt), {PoliticianRef(url)});
  }

  lemma ContentTailEffect(g: Graph, cid: string, url: string, hdr: Attr, txt: Attr)
    requires url in g.pages
    ensures var h := RunAll(g, ContentTail(cid, url, hdr, txt));
            && h == g.(contents := g.contents[cid := MergedContent(g, cid, hdr, txt)], edges := h.edges)
            && Edge(HasSourcePage, ContentRef(cid), PageRef(url)) in h.edges
            && (url in g.politicians ==> Edge(HasContent, PoliticianRef(url), ContentRef(cid)) in h.edges)
  {
    var hs := Edge(HasSourcePage, ContentRef(cid), PageRef(url));
    var hc := Edge(HasContent, PoliticianRef(url), ContentRef(cid));
    var g2 := Apply(g, MergeContent(cid, hdr, txt));
    var g3 := Apply(g2, MatchMerge({hs}));
    var g4 := Apply(g3, MatchMerge({hc}));
    assert RunAll(g, ContentTail(cid, url, hdr, txt)) == g4 by {
      RunAllCons(g, MergeContent(cid, hdr, txt), [MatchMerge({hs})] + ([MatchMerge({hc})] + []));
      RunAllCons(g2, MatchMerge({hs}), [MatchMerge({hc})] + []);
      RunAllCons(g3, MatchMerge({hc}), []);
    }
    assert g2 == g.(contents := g.contents[cid := MergedContent(g, cid, hdr, txt)]);
    EdgeStep(g2, {hs});
    assert Matches(g2, {hs});
    EdgeStep(g3, {hc});
    if url in g.politicians {
      assert Matches(g3, {hc});
    }
  }

  /**
   * `_content` leaves the Page, merges the Content (filling an absent text) with its
   * HAS_SOURCE_PAGE edge, and adds HAS_CONTENT when a Politician with that detail page exists.
   */
  lemma ContentEffect(g: Graph, netloc: string -> string, cid: string, url: string, hdr: Attr, txt: Attr)
    ensures var h := RunAll(g, ContentStatements(netloc, cid, url, hdr, txt));
            && h.contents == g.contents[cid := MergedContent(g, cid, hdr, txt)]
            && url in h.pages && Edge(HasSourcePage, ContentRef(cid), PageRef(url)) in h.edges
            && (url in g.politicians ==> Edge(HasContent, PoliticianRef(url), ContentRef(cid)) in h.edges)
            && h.politicians == g.politicians && h.periods == g.periods && h.mandates == g.mandates
  {
    var ens := EnsurePagePlan(netloc, url, None, None);
    ContentSplit(netloc, cid, url, hdr, txt);
    RunAllConcat(g, ens, ContentTail(cid, url, hdr, txt));
    EnsurePageEffect(g, netloc, url, None, None);
    var g1 := RunAll(g, ens);
    ContentTailEffect(g1, cid, url, hdr, txt);
  }

  /** In a graph whose edges join existing nodes, HAS_CONTENT is there afterwards exactly when the Politician was written before. */
  lemma ContentLinks(g: Graph, netloc: string -> string, cid: string, url: string, hdr: Attr, txt: Attr)
    requires Valid(g)
    ensures (Edge(HasContent, PoliticianRef(url), ContentRef(cid)) in RunAll(g, ContentStatements(netloc, cid, url, hdr, txt)).edges)
            == (url in g.politicians)
  {
    var ss := ContentStatements(netloc, cid, url, hdr, txt);
    if url in g.politicians {
      ContentEffect(g, netloc, cid, url, hdr, txt);
    } else {
      ContentCreates(netloc, cid, url, hdr, txt);
      RunAllAbsent(g, ss, PoliticianRef(url));
      RunAllValid(g, ss);
    }
  }

  /** Writing the same content record twice leaves the graph as writing it once. */
  lemma ContentIdempotent(g: Graph, netloc: string -> string, cid: string, url: string, hdr: Attr, txt: Attr)
    ensures var ss := ContentStatements(netloc, cid, url, hdr, txt);
            RunAll(RunAll(g, ss), ss) == RunAll(g, ss)
  {
    ContentOrdered(netloc, cid, url, hdr, txt);
    ContentCreates(netloc, cid, url, hdr, txt);
    RunAllIdempotent(g, ContentStatements(netloc, cid, url, hdr, txt), {PoliticianRef(url)});
  }
}
