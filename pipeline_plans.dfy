/**
 * What each Cypher helper of `Neo4jPipeline` (bundestags_scraper/pipelines.py)
 * runs for one item: either the error that aborts its write transaction, or the
 * statements it runs, in order. Every error is decided by the item alone (a
 * missing field read with `item[k]`, or a `None` key handed to `MERGE`), so the
 * transaction either runs every statement or none.
 */
module PipelinePlans {
  import opened Wrappers
  import opened PyStr
  import opened Items
  import opened Identity
  import opened GraphStore

  datatype WriteError =
    | KeyError(field: string)      // `item[field]` on a field that was never set
    | NullMergeKey(nodeLabel: string)  // `MERGE (:nodeLabel {key: null})`

  type Plan = Result<seq<Statement>, WriteError>

  /** `item[k]` */
  function Field(d: Fields, k: string): (r: Result<Value, WriteError>)
    ensures r.Success? <==> k in d
    ensures r.Success? ==> r.value == d[k]
    ensures r.Failure? ==> r.error == KeyError(k)
  {
    if k in d then Success(d[k]) else Failure(KeyError(k))
  }

  /** A value handed to `MERGE` as the node key. */
  function MergeKey(v: Value, nodeLabel: string): (r: Result<string, WriteError>)
    ensures r.Success? <==> v.Some?
    ensures r.Success? ==> r.value == v.value
  {
    if v.Some? then Success(v.value) else Failure(NullMergeKey(nodeLabel))
  }

  /** `_ensure_page(tx, url, title, html)`: the page, its domain and the edge between them. */
  function EnsurePagePlan(netloc: string -> string, url: string, title: Attr, html: Attr): seq<Statement> {
    var domain := netloc(url);
    [ MergeDomain(domain, None),
      MergePage(url, title, html, false),
      MatchMerge({Edge(BelongsToDomain, PageRef(url), DomainRef(domain))}) ]
  }

  /** `_dom(tx, d)` */
  function DomPlan(d: Fields): Plan {
    var name :- Field(d, "domain");
    var key :- MergeKey(name, "Domain");
    Success([MergeDomain(key, Get(d, "description"))])
  }

  /** `_page(tx, p)`: a `None` source domain matches no Domain node. */
  function PagePlan(p: Fields): Plan {
    var url :- Field(p, "url");
    var dom :- Field(p, "source_domain");
    var key :- MergeKey(url, "Page");
    Success(
      [MergePage(key, Get(p, "title"), Get(p, "full_html"), true)]
      + if dom.Some? then [MatchMerge({Edge(BelongsToDomain, PageRef(key), DomainRef(dom.value))})] else [])
  }

  /** `_merge_page(tx, p)` */
  function MergePagePlan(netloc: string -> string, p: Fields): Plan {
    var url :- Field(p, "url");
    var key :- MergeKey(url, "Page");
    Success(EnsurePagePlan(netloc, key, Get(p, "title"), Get(p, "full_html")))
  }

  /** `_period(tx, pr)` */
  function PeriodPlan(netloc: string -> string, pr: Fields): Plan {
    var nr :- Field(pr, "period_number");
    var name :- Field(pr, "name");
    var st :- Field(pr, "start_date");
    var end :- Field(pr, "end_date");
    var key :- MergeKey(nr, "Period");
    Success(PeriodStatements(netloc, key, name, st, end, Get(pr, "source_page"), Get(pr, "detail_page")))
  }

  function PeriodStatements(netloc: string -> string, nr: string, name: Attr, st: Attr, end: Attr, src: Value, det: Value): seq<Statement> {
    [MergePeriod(nr, name, st, end)]
    + PeriodSourcePlan(netloc, nr, src)
    + PeriodDetailPlan(netloc, nr, det)
  }

  function PeriodSourcePlan(netloc: string -> string, nr: string, src: Value): seq<Statement> {
    if Truthy(src) then
      EnsurePagePlan(netloc, src.value, None, None)
      + [ MergePage(src.value, None, None, false),
          MatchMerge({Edge(HasSourcePage, PeriodRef(nr), PageRef(src.value))}) ]
    else []
  }

  function PeriodDetailPlan(netloc: string -> string, nr: string, det: Value): seq<Statement> {
    if Truthy(det) then
      EnsurePagePlan(netloc, det.value, None, None)
      + [MatchMerge({Edge(HasDetailPage, PeriodRef(nr), PageRef(det.value))})]
    else []
  }

  /** The party a mandate records: the normalised name of a truthy raw party, else None. */
  function MandateParty(raw: Value): (r: Attr)
    ensures r.Some? <==> Truthy(raw)
    ensures r.Some? ==> r.value == NormalizePartyName(raw)
  {
    if Truthy(raw) then Some(NormalizePartyName(raw)) else None
  }

  /** `_politician(tx, pol)` */
  function PoliticianPlan(sha1: string -> string, netloc: string -> string, pol: Fields): Plan {
    var src :- Field(pol, "source_page");
    var det :- Field(pol, "detail_page");
    var rawParty :- Field(pol, "political_party");
    var full :- Field(pol, "full_name");
    var key :- MergeKey(det, "Politician");
    Success(PoliticianStatements(sha1, netloc, key, full, Get(pol, "firstname"), Get(pol, "lastname"),
                                 Get(pol, "birth_year"), Get(pol, "death_year"), src,
                                 Get(pol, "legislative_period_number"), rawParty,
                                 Get(pol, "federate_state"), Get(pol, "constituency")))
  }

  function PoliticianStatements(sha1: string -> string, netloc: string -> string, det: string, full: Attr,
                                first: Attr, last: Attr, birth: Attr, death: Attr, src: Value,
                                nr: Value, rawParty: Value, state: Value, constituency: Value): seq<Statement> {
    [MergePolitician(det, full, first, last, birth, death)]
    + PoliticianPagesPlan(netloc, det, src)
    + PoliticianPeriodPlan(sha1, det, nr, rawParty, state, constituency)
  }

  /** `_ensure_page(url)` followed by an edge from `owner` to that page. */
  function LinkedPagePlan(netloc: string -> string, rel: Rel, owner: NodeRef, url: string): seq<Statement> {
    EnsurePagePlan(netloc, url, None, None) + [MatchMerge({Edge(rel, owner, PageRef(url))})]
  }

  /** The page statements of `_politician`: source page, detail page and the link between them. */
  function PoliticianPagesPlan(netloc: string -> string, det: string, src: Value): seq<Statement> {
    (if Truthy(src) then LinkedPagePlan(netloc, HasSourcePage, PoliticianRef(det), src.value) else [])
    + LinkedPagePlan(netloc, HasDetailPage, PoliticianRef(det), det)
    + (if Truthy(src) then [MatchMerge({Edge(LinksToDetail, PageRef(src.value), PageRef(det))})] else [])
  }

  /** The period statements of `_politician`: SERVED_DURING and the Mandate. */
  function PoliticianPeriodPlan(sha1: string -> string, det: string, nr: Value, rawParty: Value, state: Value, constituency: Value): seq<Statement> {
    if Truthy(nr) then
      [MatchMerge({Edge(ServedDuring, PoliticianRef(det), PeriodRef(nr.value))})]
      + MandatePlan(MandateId(sha1, nr.value, det), det, nr.value, MandateParty(rawParty), state, constituency)
    else []
  }

  /** A Party, State or Constituency node and the edge from the Mandate to it. */
  function TagPlan(tag: Statement, e: Edge): seq<Statement> {
    [tag, MatchMerge({e})]
  }

  /**
   * The Mandate statements. `party` is `MandateParty(rawParty)`, which is present
   * exactly when the raw party is truthy, the test guarding the party edge.
   */
  function MandatePlan(mid: string, det: string, nr: string, party: Attr, state: Value, constituency: Value): seq<Statement> {
    [ MergeMandate(mid, party, state, constituency),
      MatchMerge({Edge(HasMandate, PoliticianRef(det), MandateRef(mid)), Edge(InPeriod, MandateRef(mid), PeriodRef(nr))}) ]
    + (if party.Some? then
         TagPlan(MergeParty(party.value), Edge(AffiliatedWith, MandateRef(mid), PartyRef(party.value)))
       else [])
    + (if Truthy(state) then
         TagPlan(MergeState(state.value), Edge(RepresentsState, MandateRef(mid), StateRef(state.value)))
       else [])
    + (if Truthy(constituency) then
         TagPlan(MergeConstituency(constituency.value),
                 Edge(RepresentsConstituency, MandateRef(mid), ConstituencyRef(constituency.value)))
       else [])
  }

  /** `_content(tx, pc)`: the content id hashes the page URL and the header as the f-string prints them. */
  function ContentPlan(sha1: string -> string, netloc: string -> string, pc: Fields): Plan {
    var src :- Field(pc, "source_page");
    var hdr :- Field(pc, "section_header");
    var cid := ContentId(sha1, src, hdr);
    var url :- MergeKey(src, "Page");
    var txt :- Field(pc, "section_content");
    Success(ContentStatements(netloc, cid, url, hdr, txt))
  }

  function ContentStatements(netloc: string -> string, cid: string, url: string, hdr: Attr, txt: Attr): seq<Statement> {
    EnsurePagePlan(netloc, url, None, None)
    + [ MergeContent(cid, hdr, txt),
        MatchMerge({Edge(HasSourcePage, ContentRef(cid), PageRef(url))}),
        MatchMerge({Edge(HasContent, PoliticianRef(url), ContentRef(cid))}) ]
  }

  /** `process_item`: route an item to its helper; a biography item writes nothing. */
  function ItemPlan(sha1: string -> string, netloc: string -> string, item: Item): Plan {
    match item.cls
    case SourceDomainItem => DomPlan(item.data)
    case SourcePageItem => PagePlan(item.data)
    case LegislativePeriodItem => PeriodPlan(netloc, item.data)
    case PoliticianItem => PoliticianPlan(sha1, netloc, item.data)
    case PoliticianContent => ContentPlan(sha1, netloc, item.data)
    case PoliticianBiography => Success([])
  }

  /** A write transaction: all statements, or (on error) nothing. */
  function Transact(g: Graph, plan: Plan): (r: Result<Graph, WriteError>)
    ensures plan.Failure? ==> r == Failure(plan.error)
    ensures plan.Success? ==> r == Success(RunAll(g, plan.value))
  {
    match plan
    case Success(ss) => Success(RunAll(g, ss))
    case Failure(e) => Failure(e)
  }

  /** `process_item` on the graph. */
  function ProcessItem(sha1: string -> string, netloc: string -> string, g: Graph, item: Item): Result<Graph, WriteError> {
    Transact(g, ItemPlan(sha1, netloc, item))
  }
}
