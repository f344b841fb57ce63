/**
 * The property graph the pipeline writes (bundestags_scraper/pipelines.py), and
 * the Cypher statements it runs on it, as values.
 *
 * A node property is an `Attr`: `None` when the property is absent. Neo4j's
 * `SET p.x = null` leaves the property absent, and `coalesce(p.x, $v)` keeps a
 * present value and otherwise takes `$v`. `MERGE` on a key finds the node or
 * creates it (running the `ON CREATE SET` or `ON MATCH SET` part); a `MATCH` on a
 * key that names no node matches nothing, and the `MERGE` of an edge after it is
 * then skipped without error.
 */
module GraphStore {
  import opened Wrappers

  type Attr = Option<string>

  /** Cypher `coalesce(current, incoming)`. */
  function Coalesce(current: Attr, incoming: Attr): (r: Attr)
    ensures current.Some? ==> r == current
    ensures current.None? ==> r == incoming
  {
    if current.Some? then current else incoming
  }

  datatype DomainNode = DomainNode(description: Attr)
  datatype PageNode = PageNode(title: Attr, html: Attr)
  datatype PeriodNode = PeriodNode(periodName: Attr, startDate: Attr, endDate: Attr)
  datatype PoliticianNode = PoliticianNode(fullName: Attr, firstname: Attr, lastname: Attr, birthYear: Attr, deathYear: Attr)
  datatype MandateNode = MandateNode(party: Attr, federateState: Attr, constituency: Attr)
  datatype ContentNode = ContentNode(sectionHeader: Attr, sectionContent: Attr)

  /** A node, by its label and its key property. */
  datatype NodeRef =
    | DomainRef(key: string)
    | PageRef(key: string)
    | PeriodRef(key: string)
    | PoliticianRef(key: string)
    | MandateRef(key: string)
    | PartyRef(key: string)
    | StateRef(key: string)
    | ConstituencyRef(key: string)
    | ContentRef(key: string)

  datatype Rel =
    | BelongsToDomain
    | HasSourcePage
    | HasDetailPage
    | LinksToDetail
    | ServedDuring
    | HasMandate
    | InPeriod
    | AffiliatedWith
    | RepresentsState
    | RepresentsConstituency
    | HasContent

  datatype Edge = Edge(rel: Rel, src: NodeRef, dst: NodeRef)

  /** Nodes of each label keyed by their key property, and the set of edges. */
  datatype Graph = Graph(
    domains: map<string, DomainNode>,
    pages: map<string, PageNode>,
    periods: map<string, PeriodNode>,
    politicians: map<string, PoliticianNode>,
    mandates: map<string, MandateNode>,
    parties: set<string>,
    states: set<string>,
    constituencies: set<string>,
    contents: map<string, ContentNode>,
    edges: set<Edge>)

  const EmptyGraph := Graph(map[], map[], map[], map[], map[], {}, {}, {}, map[], {})

  predicate Present(g: Graph, n: NodeRef) {
    match n
    case DomainRef(k) => k in g.domains
    case PageRef(k) => k in g.pages
    case PeriodRef(k) => k in g.periods
    case PoliticianRef(k) => k in g.politicians
    case MandateRef(k) => k in g.mandates
    case PartyRef(k) => k in g.parties
    case StateRef(k) => k in g.states
    case ConstituencyRef(k) => k in g.constituencies
    case ContentRef(k) => k in g.contents
  }

  /** Every edge joins two nodes of the graph. */
  predicate Valid(g: Graph) {
    forall e :: e in g.edges ==> Present(g, e.src) && Present(g, e.dst)
  }

  /**
   * One Cypher statement. `MergeX` is `MERGE` of one node with its `ON CREATE SET`
   * and `ON MATCH SET` parts; `MatchMerge(es)` matches the endpoints of `es` and
   * merges those edges, doing nothing when an endpoint is missing.
   */
  datatype Statement =
    | MergeDomain(domain: string, description: Attr)
    | MergePage(url: string, title: Attr, html: Attr, fillHtml: bool)
    | MergePeriod(number: string, periodName: Attr, startDate: Attr, endDate: Attr)
    | MergePolitician(detailPage: string, fullName: Attr, firstname: Attr, lastname: Attr, birthYear: Attr, deathYear: Attr)
    | MergeMandate(mandateId: string, party: Attr, federateState: Attr, constituency: Attr)
    | MergeParty(partyName: string)
    | MergeState(stateName: string)
    | MergeConstituency(constituencyName: string)
    | MergeContent(contentId: string, sectionHeader: Attr, sectionContent: Attr)
    | MatchMerge(edges: set<Edge>)

  /** All endpoints of `es` are nodes of `g`. */
  predicate Matches(g: Graph, es: set<Edge>) {
    forall e :: e in es ==> Present(g, e.src) && Present(g, e.dst)
  }

  /** Running one statement. */
  function Apply(g: Graph, s: Statement): Graph {
    match s
    case MergeDomain(k, desc) =>
      g.(domains := if k in g.domains then g.domains else g.domains[k := DomainNode(desc)])
    case MergePage(k, title, html, fillHtml) => g.(pages := MergedPages(g.pages, k, title, html, fillHtml))
    case MergePeriod(k, name, st, end) =>
      g.(periods := if k in g.periods then g.periods else g.periods[k := PeriodNode(name, st, end)])
    case MergePolitician(k, full, first, last, birth, death) =>
      g.(politicians := MergedPoliticians(g.politicians, k, full, first, last, birth, death))
    case MergeMandate(k, party, st, co) => g.(mandates := MergedMandates(g.mandates, k, party, st, co))
    case MergeParty(k) => g.(parties := g.parties + {k})
    case MergeState(k) => g.(states := g.states + {k})
    case MergeConstituency(k) => g.(constituencies := g.constituencies + {k})
    case MergeContent(k, hdr, txt) => g.(contents := MergedContents(g.contents, k, hdr, txt))
    case MatchMerge(es) => g.(edges := if Matches(g, es) then g.edges + es else g.edges)
  }

  /** `MERGE (p:Page {url: k})`, filling an absent title (and html when asked). */
  function MergedPages(pages: map<string, PageNode>, k: string, title: Attr, html: Attr, fillHtml: bool): map<string, PageNode> {
    if k in pages then
      var p := pages[k];
      pages[k := PageNode(Coalesce(p.title, title), if fillHtml then Coalesce(p.html, html) else p.html)]
    else pages[k := PageNode(title, html)]
  }

  /** `MERGE (p:Politician {detail_page: k})`, filling an absent full_name on a match. */
  function MergedPoliticians(politicians: map<string, PoliticianNode>, k: string, full: Attr, first: Attr, last: Attr,
                             birth: Attr, death: Attr): map<string, PoliticianNode> {
    if k in politicians then
      var p := politicians[k];
      politicians[k := p.(fullName := Coalesce(p.fullName, full))]
    else politicians[k := PoliticianNode(full, first, last, birth, death)]
  }

  /** `MERGE (m:Mandate {mandate_id: k})`, filling its absent fields. */
  function MergedMandates(mandates: map<string, MandateNode>, k: string, party: Attr, st: Attr, co: Attr): map<string, MandateNode> {
    if k in mandates then
      var m := mandates[k];
      mandates[k := MandateNode(Coalesce(m.party, party), Coalesce(m.federateState, st), Coalesce(m.constituency, co))]
    else mandates[k := MandateNode(party, st, co)]
  }

  /** `MERGE (c:Content {content_id: k})`, filling an absent section_content on a match. */
  function MergedContents(contents: map<string, ContentNode>, k: string, hdr: Attr, txt: Attr): map<string, ContentNode> {
    if k in contents then
      var c := contents[k];
      contents[k := c.(sectionContent := Coalesce(c.sectionContent, txt))]
    else contents[k := ContentNode(hdr, txt)]
  }

  /** Running the statements of one transaction in order. */
  function RunAll(g: Graph, ss: seq<Statement>): Graph
    decreases |ss|
  {
    if ss == [] then g else RunAll(Apply(g, ss[0]), ss[1..])
  }

  lemma {:induction false} RunAllConcat(g: Graph, a: seq<Statement>, b: seq<Statement>)
    ensures RunAll(g, a + b) == RunAll(RunAll(g, a), b)
    decreases |a|
  {
    if a != [] {
      assert (a + b)[0] == a[0];
      assert (a + b)[1..] == a[1..] + b;
      RunAllConcat(Apply(g, a[0]), a[1..], b);
    } else {
      assert a + b == b;
    }
  }

  lemma RunAllSingle(g: Graph, s: Statement)
    ensures RunAll(g, [s]) == Apply(g, s)
  {
    assert [s][1..] == [];
  }

  // ---------------------------------------------------------------------
  // Growth: no statement removes a node, an edge or a present property.
  // ---------------------------------------------------------------------

  predicate Keeps(a: Attr, b: Attr) {
    a.Some? ==> b == a
  }

  predicate DomainKept(a: DomainNode, b: DomainNode) { Keeps(a.description, b.description) }
  predicate PageKept(a: PageNode, b: PageNode) { Keeps(a.title, b.title) && Keeps(a.html, b.html) }
  predicate PeriodKept(a: PeriodNode, b: PeriodNode) { a == b }
  predicate PoliticianKept(a: PoliticianNode, b: PoliticianNode) {
    Keeps(a.fullName, b.fullName) && a.firstname == b.firstname && a.lastname == b.lastname
    && a.birthYear == b.birthYear && a.deathYear == b.deathYear
  }
  predicate MandateKept(a: MandateNode, b: MandateNode) {
    Keeps(a.party, b.party) && Keeps(a.federateState, b.federateState) && Keeps(a.constituency, b.constituency)
  }
  predicate ContentKept(a: ContentNode, b: ContentNode) {
    a.sectionHeader == b.sectionHeader && Keeps(a.sectionContent, b.sectionContent)
  }

  predicate DomainsGrow(a: map<string, DomainNode>, b: map<string, DomainNode>) {
    forall k :: k in a ==> k in b && DomainKept(a[k], b[k])
  }
  predicate PagesGrow(a: map<string, PageNode>, b: map<string, PageNode>) {
    forall k :: k in a ==> k in b && PageKept(a[k], b[k])
  }
  predicate PeriodsGrow(a: map<string, PeriodNode>, b: map<string, PeriodNode>) {
    forall k :: k in a ==> k in b && PeriodKept(a[k], b[k])
  }
  predicate PoliticiansGrow(a: map<string, PoliticianNode>, b: map<string, PoliticianNode>) {
    forall k :: k in a ==> k in b && PoliticianKept(a[k], b[k])
  }
  predicate MandatesGrow(a: map<string, MandateNode>, b: map<string, MandateNode>) {
    forall k :: k in a ==> k in b && MandateKept(a[k], b[k])
  }
  predicate ContentsGrow(a: map<string, ContentNode>, b: map<string, ContentNode>) {
    forall k :: k in a ==> k in b && ContentKept(a[k], b[k])
  }

  /**
   * `b` has every node and edge of `a`, and every property `a` has, with the same
   * value; properties that are only set on creation do not change at all.
   */
  predicate Extends(a: Graph, b: Graph) {
    && DomainsGrow(a.domains, b.domains)
    && PagesGrow(a.pages, b.pages)
    && PeriodsGrow(a.periods, b.periods)
    && PoliticiansGrow(a.politicians, b.politicians)
    && MandatesGrow(a.mandates, b.mandates)
    && a.parties <= b.parties && a.states <= b.states && a.constituencies <= b.constituencies
    && ContentsGrow(a.contents, b.contents)
    && a.edges <= b.edges
  }

  lemma ExtendsTrans(a: Graph, b: Graph, c: Graph)
    requires Extends(a, b) && Extends(b, c)
    ensures Extends(a, c)
  {
  }

  lemma ExtendsPresent(a: Graph, b: Graph, n: NodeRef)
    requires Extends(a, b) && Present(a, n)
    ensures Present(b, n)
  {
  }

  lemma ExtendsRefl(g: Graph)
    ensures Extends(g, g)
  {
  }

  lemma ExtendsPage(g: Graph, k: string, title: Attr, html: Attr, fillHtml: bool)
    ensures Extends(g, Apply(g, MergePage(k, title, html, fillHtml)))
  {
    ExtendsRefl(g);
  }

  lemma ExtendsPolitician(g: Graph, k: string, full: Attr, first: Attr, last: Attr, birth: Attr, death: Attr)
    ensures Extends(g, Apply(g, MergePolitician(k, full, first, last, birth, death)))
  {
    ExtendsRefl(g);
  }

  lemma ExtendsMandate(g: Graph, k: string, party: Attr, st: Attr, co: Attr)
    ensures Extends(g, Apply(g, MergeMandate(k, party, st, co)))
  {
    ExtendsRefl(g);
  }

  lemma ExtendsContent(g: Graph, k: string, hdr: Attr, txt: Attr)
    ensures Extends(g, Apply(g, MergeContent(k, hdr, txt)))
  {
    ExtendsRefl(g);
  }

  lemma ApplyExtends(g: Graph, s: Statement)
    ensures Extends(g, Apply(g, s))
  {
    ExtendsRefl(g);
    match s
    case MergeDomain(k, _) =>
    case MergePage(k, t, h, f) => ExtendsPage(g, k, t, h, f);
    case MergePeriod(k, _, _, _) =>
    case MergePolitician(k, a, b, c, d, e) => ExtendsPolitician(g, k, a, b, c, d, e);
    case MergeMandate(k, a, b, c) => ExtendsMandate(g, k, a, b, c);
    case MergeParty(_) =>
    case MergeState(_) =>
    case MergeConstituency(_) =>
    case MergeContent(k, a, b) => ExtendsContent(g, k, a, b);
    case MatchMerge(_) =>
  }

  lemma {:induction false} RunAllExtends(g: Graph, ss: seq<Statement>)
    ensures Extends(g, RunAll(g, ss))
    decreases |ss|
  {
    if ss != [] {
      ApplyExtends(g, ss[0]);
      RunAllExtends(Apply(g, ss[0]), ss[1..]);
      ExtendsTrans(g, Apply(g, ss[0]), RunAll(g, ss));
    }
  }

  // ---------------------------------------------------------------------
  // The edge invariant: an edge is only created between two existing nodes.
  // ---------------------------------------------------------------------

  lemma ApplyValid(g: Graph, s: Statement)
    requires Valid(g)
    ensures Valid(Apply(g, s))
  {
    var h := Apply(g, s);
    ApplyExtends(g, s);
    forall e | e in h.edges
      ensures Present(h, e.src) && Present(h, e.dst)
    {
      if e in g.edges {
        ExtendsPresent(g, h, e.src);
        ExtendsPresent(g, h, e.dst);
      }
    }
  }

  lemma {:induction false} RunAllValid(g: Graph, ss: seq<Statement>)
    requires Valid(g)
    ensures Valid(RunAll(g, ss))
    decreases |ss|
  {
    if ss != [] {
      ApplyValid(g, ss[0]);
      RunAllValid(Apply(g, ss[0]), ss[1..]);
    }
  }

  // ---------------------------------------------------------------------
  // Which node a statement creates, and which nodes stay absent.
  // ---------------------------------------------------------------------

  /** The node a `MERGE` statement finds or creates. */
  function Created(s: Statement): set<NodeRef> {
    match s
    case MergeDomain(k, _) => {DomainRef(k)}
    case MergePage(k, _, _, _) => {PageRef(k)}
    case MergePeriod(k, _, _, _) => {PeriodRef(k)}
    case MergePolitician(k, _, _, _, _, _) => {PoliticianRef(k)}
    case MergeMandate(k, _, _, _) => {MandateRef(k)}
    case MergeParty(k) => {PartyRef(k)}
    case MergeState(k) => {StateRef(k)}
    case MergeConstituency(k) => {ConstituencyRef(k)}
    case MergeContent(k, _, _) => {ContentRef(k)}
    case MatchMerge(_) => {}
  }

  function CreatedAll(ss: seq<Statement>): set<NodeRef>
    decreases |ss|
  {
    if ss == [] then {} else Created(ss[0]) + CreatedAll(ss[1..])
  }

  lemma {:induction false} CreatedAllConcat(a: seq<Statement>, b: seq<Statement>)
    ensures CreatedAll(a + b) == CreatedAll(a) + CreatedAll(b)
    decreases |a|
  {
    if a != [] {
      assert (a + b)[0] == a[0];
      assert (a + b)[1..] == a[1..] + b;
      CreatedAllConcat(a[1..], b);
    } else {
      assert a + b == b;
    }
  }

  datatype NodeLabel = Domain | Page | Period | Politician | Mandate | Party | State | Constituency | Content

  /** The labels of the nodes a statement may create or change, and the Party, State and Constituency names it merges. */
  function LabelOf(s: Statement): set<NodeLabel> {
    match s
    case MergeDomain(_, _) => {Domain}
    case MergePage(_, _, _, _) => {Page}
    case MergePeriod(_, _, _, _) => {Period}
    case MergePolitician(_, _, _, _, _, _) => {Politician}
    case MergeMandate(_, _, _, _) => {Mandate}
    case MergeParty(_) => {Party}
    case MergeState(_) => {State}
    case MergeConstituency(_) => {Constituency}
    case MergeContent(_, _, _) => {Content}
    case MatchMerge(_) => {}
  }

  function PartyOf(s: Statement): set<string> { if s.MergeParty? then {s.partyName} else {} }
  function StateOf(s: Statement): set<string> { if s.MergeState? then {s.stateName} else {} }
  function ConstituencyOf(s: Statement): set<string> { if s.MergeConstituency? then {s.constituencyName} else {} }

  function Labels(ss: seq<Statement>): set<NodeLabel>
    decreases |ss|
  {
    if ss == [] then {} else LabelOf(ss[0]) + Labels(ss[1..])
  }

  function PartiesOf(ss: seq<Statement>): set<string>
    decreases |ss|
  {
    if ss == [] then {} else PartyOf(ss[0]) + PartiesOf(ss[1..])
  }

  function StatesOf(ss: seq<Statement>): set<string>
    decreases |ss|
  {
    if ss == [] then {} else StateOf(ss[0]) + StatesOf(ss[1..])
  }

  function ConstituenciesOf(ss: seq<Statement>): set<string>
    decreases |ss|
  {
    if ss == [] then {} else ConstituencyOf(ss[0]) + ConstituenciesOf(ss[1..])
  }

  lemma {:induction false} LabelsConcat(a: seq<Statement>, b: seq<Statement>)
    ensures Labels(a + b) == Labels(a) + Labels(b)
    ensures PartiesOf(a + b) == PartiesOf(a) + PartiesOf(b)
    ensures StatesOf(a + b) == StatesOf(a) + StatesOf(b)
    ensures ConstituenciesOf(a + b) == ConstituenciesOf(a) + ConstituenciesOf(b)
    decreases |a|
  {
    if a != [] {
      assert (a + b)[0] == a[0];
      assert (a + b)[1..] == a[1..] + b;
      LabelsConcat(a[1..], b);
    } else {
      assert a + b == b;
    }
  }

  lemma PartiesConcat(a: seq<Statement>, b: seq<Statement>)
    ensures PartiesOf(a + b) == PartiesOf(a) + PartiesOf(b)
  {
    LabelsConcat(a, b);
  }

  lemma StatesConcat(a: seq<Statement>, b: seq<Statement>)
    ensures StatesOf(a + b) == StatesOf(a) + StatesOf(b)
  {
    LabelsConcat(a, b);
  }

  lemma ConstituenciesConcat(a: seq<Statement>, b: seq<Statement>)
    ensures ConstituenciesOf(a + b) == ConstituenciesOf(a) + ConstituenciesOf(b)
  {
    LabelsConcat(a, b);
  }

  /** One statement changes only the nodes of its own label, and the edges. */
  lemma ApplyFrame(g: Graph, s: Statement)
    ensures Domain !in LabelOf(s) ==> Apply(g, s).domains == g.domains
    ensures Page !in LabelOf(s) ==> Apply(g, s).pages == g.pages
    ensures Period !in LabelOf(s) ==> Apply(g, s).periods == g.periods
    ensures Politician !in LabelOf(s) ==> Apply(g, s).politicians == g.politicians
    ensures Mandate !in LabelOf(s) ==> Apply(g, s).mandates == g.mandates
    ensures Content !in LabelOf(s) ==> Apply(g, s).contents == g.contents
    ensures Apply(g, s).parties == g.parties + PartyOf(s)
    ensures Apply(g, s).states == g.states + StateOf(s)
    ensures Apply(g, s).constituencies == g.constituencies + ConstituencyOf(s)
    ensures Apply(g, s).edges <= g.edges + (if s.MatchMerge? then s.edges else {})
  {
  }

  /**
   * A statement list leaves the nodes of every label it merges no node of as they
   * were, and adds exactly the Party, State and Constituency nodes it merges.
   */
  lemma {:induction false} RunAllFrame(g: Graph, ss: seq<Statement>)
    ensures Domain !in Labels(ss) ==> RunAll(g, ss).domains == g.domains
    ensures Page !in Labels(ss) ==> RunAll(g, ss).pages == g.pages
    ensures Period !in Labels(ss) ==> RunAll(g, ss).periods == g.periods
    ensures Politician !in Labels(ss) ==> RunAll(g, ss).politicians == g.politicians
    ensures Mandate !in Labels(ss) ==> RunAll(g, ss).mandates == g.mandates
    ensures Content !in Labels(ss) ==> RunAll(g, ss).contents == g.contents
    ensures RunAll(g, ss).parties == g.parties + PartiesOf(ss)
    ensures RunAll(g, ss).states == g.states + StatesOf(ss)
    ensures RunAll(g, ss).constituencies == g.constituencies + ConstituenciesOf(ss)
    decreases |ss|
  {
    if ss != [] {
      ApplyFrame(g, ss[0]);
      RunAllFrame(Apply(g, ss[0]), ss[1..]);
    }
  }

  /** The edges a statement list can add. */
  function EdgesOf(ss: seq<Statement>): set<Edge>
    decreases |ss|
  {
    if ss == [] then {} else (if ss[0].MatchMerge? then ss[0].edges else {}) + EdgesOf(ss[1..])
  }

  lemma {:induction false} EdgesOfConcat(a: seq<Statement>, b: seq<Statement>)
    ensures EdgesOf(a + b) == EdgesOf(a) + EdgesOf(b)
    decreases |a|
  {
    if a != [] {
      assert (a + b)[0] == a[0];
      assert (a + b)[1..] == a[1..] + b;
      EdgesOfConcat(a[1..], b);
    } else {
      assert a + b == b;
    }
  }

  /** Only the edges of its edge statements are new after a statement list. */
  lemma {:induction false} RunAllEdges(g: Graph, ss: seq<Statement>)
    ensures RunAll(g, ss).edges <= g.edges + EdgesOf(ss)
    decreases |ss|
  {
    if ss != [] {
      ApplyFrame(g, ss[0]);
      RunAllEdges(Apply(g, ss[0]), ss[1..]);
    }
  }

  lemma ApplyCreates(g: Graph, s: Statement)
    ensures forall n :: n in Created(s) ==> Present(Apply(g, s), n)
  {
  }

  lemma ApplyAbsent(g: Graph, s: Statement, n: NodeRef)
    requires !Present(g, n) && n !in Created(s)
    ensures !Present(Apply(g, s), n)
  {
  }

  /** A node that is absent and that no statement merges stays absent. */
  lemma {:induction false} RunAllAbsent(g: Graph, ss: seq<Statement>, n: NodeRef)
    requires !Present(g, n) && n !in CreatedAll(ss)
    ensures !Present(RunAll(g, ss), n)
    decreases |ss|
  {
    if ss != [] {
      ApplyAbsent(g, ss[0], n);
      RunAllAbsent(Apply(g, ss[0]), ss[1..], n);
    }
  }

  /**
   * Every edge statement of `ss` that would add `e` also MATCHes the node `n`: as
   * long as `n` is missing, those statements add nothing.
   */
  ghost predicate GuardedBy(ss: seq<Statement>, e: Edge, n: NodeRef) {
    forall i :: 0 <= i < |ss| && ss[i].MatchMerge? && e in ss[i].edges ==> n in Needs(ss[i])
  }

  lemma GuardedByConcat(a: seq<Statement>, b: seq<Statement>, e: Edge, n: NodeRef)
    requires GuardedBy(a, e, n) && GuardedBy(b, e, n)
    ensures GuardedBy(a + b, e, n)
  {
    forall i | 0 <= i < |a + b| && (a + b)[i].MatchMerge? && e in (a + b)[i].edges
      ensures n in Needs((a + b)[i])
    {
      if i < |a| {
        assert (a + b)[i] == a[i];
      } else {
        assert (a + b)[i] == b[i - |a|];
      }
    }
  }

  /** A statement that needs a missing node adds none of its edges. */
  lemma ApplyGuarded(g: Graph, s: Statement, e: Edge, n: NodeRef)
    requires !Present(g, n) && GuardedBy([s], e, n)
    ensures e in Apply(g, s).edges <==> e in g.edges
  {
    if s.MatchMerge? && e in s.edges {
      assert [s][0] == s;
      assert n in Needs(s);
      var f :| f in s.edges && (f.src == n || f.dst == n);
    }
  }

  /**
   * While `n` is missing and no statement merges it, a run neither adds nor
   * removes an edge guarded by `n`.
   */
  lemma {:induction false} RunAllGuarded(g: Graph, ss: seq<Statement>, e: Edge, n: NodeRef)
    requires !Present(g, n) && n !in CreatedAll(ss) && GuardedBy(ss, e, n)
    ensures e in RunAll(g, ss).edges <==> e in g.edges
    decreases |ss|
  {
    if ss != [] {
      assert GuardedBy([ss[0]], e, n) by {
        assert [ss[0]][0] == ss[0];
      }
      ApplyGuarded(g, ss[0], e, n);
      ApplyAbsent(g, ss[0], n);
      assert GuardedBy(ss[1..], e, n) by {
        forall i | 0 <= i < |ss[1..]| && ss[1..][i].MatchMerge? && e in ss[1..][i].edges
          ensures n in Needs(ss[1..][i])
        {
          assert ss[1..][i] == ss[i + 1];
        }
      }
      RunAllGuarded(Apply(g, ss[0]), ss[1..], e, n);
    }
  }

  lemma {:induction false} RunAllCreates(g: Graph, ss: seq<Statement>)
    ensures forall n :: n in CreatedAll(ss) ==> Present(RunAll(g, ss), n)
    decreases |ss|
  {
    if ss != [] {
      var g1 := Apply(g, ss[0]);
      ApplyCreates(g, ss[0]);
      RunAllCreates(g1, ss[1..]);
      RunAllExtends(g1, ss[1..]);
      forall n | n in Created(ss[0])
        ensures Present(RunAll(g, ss), n)
      {
        ExtendsPresent(g1, RunAll(g1, ss[1..]), n);
      }
    }
  }

  // ---------------------------------------------------------------------
  // Idempotence: running a transaction twice is running it once.
  // ---------------------------------------------------------------------

  /** The nodes a statement needs to exist to take effect. */
  function Needs(s: Statement): set<NodeRef> {
    match s
    case MatchMerge(es) => (set e | e in es :: e.src) + (set e | e in es :: e.dst)
    case _ => {}
  }

  /**
   * Every node an edge statement needs is either merged by an earlier statement
   * (`made` holds those) or one the transaction never merges (`outside`).
   */
  predicate WellOrdered(made: set<NodeRef>, ss: seq<Statement>, outside: set<NodeRef>)
    decreases |ss|
  {
    ss == [] ||
    ((forall n :: n in Needs(ss[0]) ==> n in made || n in outside)
     && WellOrdered(made + Created(ss[0]), ss[1..], outside))
  }

  lemma {:induction false} WellOrderedConcat(made: set<NodeRef>, a: seq<Statement>, b: seq<Statement>, outside: set<NodeRef>)
    requires WellOrdered(made, a, outside) && WellOrdered(made + CreatedAll(a), b, outside)
    ensures WellOrdered(made, a + b, outside)
    decreases |a|
  {
    if a == [] {
      assert made + CreatedAll(a) == made;
      assert a + b == b;
    } else {
      assert (a + b)[1..] == a[1..] + b;
      assert made + Created(a[0]) + CreatedAll(a[1..]) == made + CreatedAll(a);
      WellOrderedConcat(made + Created(a[0]), a[1..], b, outside);
    }
  }

  lemma WellOrderedWeaken(made: set<NodeRef>, more: set<NodeRef>, ss: seq<Statement>, outside: set<NodeRef>)
    requires WellOrdered(made, ss, outside) && made <= more
    ensures WellOrdered(more, ss, outside)
    decreases |ss|
  {
    if ss != [] {
      WellOrderedWeaken(made + Created(ss[0]), more + Created(ss[0]), ss[1..], outside);
    }
  }

  /** A statement whose effect `h` already contains. */
  predicate Settled(h: Graph, s: Statement) {
    match s
    case MergeDomain(k, _) => k in h.domains
    case MergePage(k, title, html, fillHtml) =>
      k in h.pages && (title.Some? ==> h.pages[k].title.Some?) && (fillHtml && html.Some? ==> h.pages[k].html.Some?)
    case MergePeriod(k, _, _, _) => k in h.periods
    case MergePolitician(k, full, _, _, _, _) => k in h.politicians && (full.Some? ==> h.politicians[k].fullName.Some?)
    case MergeMandate(k, party, st, co) =>
      k in h.mandates && (party.Some? ==> h.mandates[k].party.Some?)
      && (st.Some? ==> h.mandates[k].federateState.Some?) && (co.Some? ==> h.mandates[k].constituency.Some?)
    case MergeParty(k) => k in h.parties
    case MergeState(k) => k in h.states
    case MergeConstituency(k) => k in h.constituencies
    case MergeContent(k, _, txt) => k in h.contents && (txt.Some? ==> h.contents[k].sectionContent.Some?)
    case MatchMerge(es) => es <= h.edges || !Matches(h, es)
  }

  lemma SettledNoop(h: Graph, s: Statement)
    requires Settled(h, s)
    ensures Apply(h, s) == h
  {
    match s
    case MergePage(k, _, _, _) =>
      assert h.pages[k := Apply(h, s).pages[k]] == h.pages;
    case MergePolitician(k, _, _, _, _, _) =>
      assert h.politicians[k := Apply(h, s).politicians[k]] == h.politicians;
    case MergeMandate(k, _, _, _) =>
      assert h.mandates[k := Apply(h, s).mandates[k]] == h.mandates;
    case MergeContent(k, _, _) =>
      assert h.contents[k := Apply(h, s).contents[k]] == h.contents;
    case MatchMerge(es) =>
      if Matches(h, es) {
        assert h.edges + es == h.edges;
      }
    case _ =>
  }

  lemma ApplySettles(g: Graph, s: Statement)
    ensures s.MatchMerge? ==> (Matches(g, s.edges) ==> s.edges <= Apply(g, s).edges)
    ensures !s.MatchMerge? ==> Settled(Apply(g, s), s)
  {
  }

  lemma SettledExtends(a: Graph, b: Graph, s: Statement)
    requires !s.MatchMerge? && Settled(a, s) && Extends(a, b)
    ensures Settled(b, s)
  {
  }

  /** Running statements that are all settled changes nothing. */
  lemma {:induction false} RunAllSettled(h: Graph, ss: seq<Statement>)
    requires forall i :: 0 <= i < |ss| ==> Settled(h, ss[i])
    ensures RunAll(h, ss) == h
    decreases |ss|
  {
    if ss != [] {
      SettledNoop(h, ss[0]);
      RunAllSettled(h, ss[1..]);
    }
  }

  /** After a well-ordered transaction, each of its statements is settled. */
  lemma {:induction false} RunAllSettles(g: Graph, made: set<NodeRef>, ss: seq<Statement>, outside: set<NodeRef>, h: Graph)
    requires WellOrdered(made, ss, outside)
    requires forall n :: n in made ==> Present(g, n)
    requires forall n :: n in outside ==> n !in CreatedAll(ss)
    requires h == RunAll(g, ss)
    ensures forall i :: 0 <= i < |ss| ==> Settled(h, ss[i])
    decreases |ss|
  {
    if ss != [] {
      var s := ss[0];
      var g1 := Apply(g, s);
      ApplyExtends(g, s);
      ApplyCreates(g, s);
      forall n | n in made + Created(s)
        ensures Present(g1, n)
      {
        if n in made {
          ExtendsPresent(g, g1, n);
        }
      }
      RunAllSettles(g1, made + Created(s), ss[1..], outside, h);
      RunAllExtends(g1, ss[1..]);
      ApplySettles(g, s);
      if s.MatchMerge? {
        if !Matches(g, s.edges) {
          var e :| e in s.edges && !(Present(g, e.src) && Present(g, e.dst));
          var n := if Present(g, e.src) then e.dst else e.src;
          assert n in Needs(s);
          RunAllAbsent(g, ss, n);
          assert !Present(h, n);
        }
      } else {
        SettledExtends(g1, h, s);
      }
      assert Settled(h, ss[0]);
      forall i | 0 <= i < |ss|
        ensures Settled(h, ss[i])
      {
        if i > 0 {
          assert ss[i] == ss[1..][i - 1];
        }
      }
    }
  }

  /**
   * A transaction is idempotent when each node an edge statement needs is merged
   * earlier in it or is never merged by it.
   */
  lemma RunAllIdempotent(g: Graph, ss: seq<Statement>, outside: set<NodeRef>)
    requires WellOrdered({}, ss, outside)
    requires forall n :: n in outside ==> n !in CreatedAll(ss)
    ensures RunAll(RunAll(g, ss), ss) == RunAll(g, ss)
  {
    var h := RunAll(g, ss);
    RunAllSettles(g, {}, ss, outside, h);
    RunAllSettled(h, ss);
  }

  /** The list functions on a list with a first statement `s`. */
  lemma Cons(s: Statement, t: seq<Statement>)
    ensures CreatedAll([s] + t) == Created(s) + CreatedAll(t)
    ensures Labels([s] + t) == LabelOf(s) + Labels(t)
    ensures PartiesOf([s] + t) == PartyOf(s) + PartiesOf(t)
    ensures StatesOf([s] + t) == StateOf(s) + StatesOf(t)
    ensures ConstituenciesOf([s] + t) == ConstituencyOf(s) + ConstituenciesOf(t)
    ensures EdgesOf([s] + t) == (if s.MatchMerge? then s.edges else {}) + EdgesOf(t)
    ensures forall made, outside :: WellOrdered(made, [s] + t, outside) <==>
              (forall n :: n in Needs(s) ==> n in made || n in outside) && WellOrdered(made + Created(s), t, outside)
  {
    ConsSets(s, t);
    ConsOrder(s, t);
  }

  /** The node and edge sets of a list with a first statement `s`. */
  lemma ConsSets(s: Statement, t: seq<Statement>)
    ensures CreatedAll([s] + t) == Created(s) + CreatedAll(t)
    ensures Labels([s] + t) == LabelOf(s) + Labels(t)
    ensures PartiesOf([s] + t) == PartyOf(s) + PartiesOf(t)
    ensures StatesOf([s] + t) == StateOf(s) + StatesOf(t)
    ensures ConstituenciesOf([s] + t) == ConstituencyOf(s) + ConstituenciesOf(t)
    ensures EdgesOf([s] + t) == (if s.MatchMerge? then s.edges else {}) + EdgesOf(t)
  {
    assert ([s] + t)[0] == s;
    assert ([s] + t)[1..] == t;
  }

  /** A list with a first statement `s` is well ordered when `s` is and the rest is after it. */
  lemma ConsOrder(s: Statement, t: seq<Statement>)
    ensures forall made, outside :: WellOrdered(made, [s] + t, outside) <==>
              (forall n :: n in Needs(s) ==> n in made || n in outside) && WellOrdered(made + Created(s), t, outside)
  {
    assert ([s] + t)[0] == s;
    assert ([s] + t)[1..] == t;
  }

  lemma RunAllCons(g: Graph, s: Statement, t: seq<Statement>)
    ensures RunAll(g, [s] + t) == RunAll(Apply(g, s), t)
  {
    assert ([s] + t)[0] == s;
    assert ([s] + t)[1..] == t;
  }

  /** The nodes an edge statement needs are the endpoints of its edges. */
  lemma NeedsOne(e: Edge)
    ensures Needs(MatchMerge({e})) == {e.src, e.dst}
  {
    assert (set x | x in {e} :: x.src) == {e.src};
    assert (set x | x in {e} :: x.dst) == {e.dst};
  }

  lemma NeedsTwo(e: Edge, f: Edge)
    ensures Needs(MatchMerge({e, f})) == {e.src, e.dst, f.src, f.dst}
  {
    assert (set x | x in {e, f} :: x.src) == {e.src, f.src};
    assert (set x | x in {e, f} :: x.dst) == {e.dst, f.dst};
  }

  /** An edge statement changes only the edges: it adds all of `es` when their endpoints exist, and nothing otherwise. */
  lemma EdgeStep(g: Graph, es: set<Edge>)
    ensures Apply(g, MatchMerge(es)) == g.(edges := Apply(g, MatchMerge(es)).edges)
    ensures Matches(g, es) ==> Apply(g, MatchMerge(es)).edges == g.edges + es
    ensures !Matches(g, es) ==> Apply(g, MatchMerge(es)) == g
  {
  }

  /** An edge statement whose endpoints are present adds its edge. */
  lemma EdgeAdded(g: Graph, e: Edge)
    requires Present(g, e.src) && Present(g, e.dst)
    ensures e in RunAll(g, [MatchMerge({e})]).edges
  {
    RunAllSingle(g, MatchMerge({e}));
    assert Matches(g, {e});
    EdgeStep(g, {e});
  }

  lemma RunAllEdgesGrow(g: Graph, ss: seq<Statement>)
    ensures g.edges <= RunAll(g, ss).edges
  {
    RunAllExtends(g, ss);
  }
}
