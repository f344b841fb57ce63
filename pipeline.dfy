/**
 * `Neo4jPipeline` (bundestags_scraper/pipelines.py): the object that holds the
 * store and writes each scraped record into it, one write transaction per record.
 * The store is the abstract property graph of `GraphStore`; what each helper
 * runs is the plan of `PipelinePlans`.
 */
module Pipeline {
  import opened Wrappers
  import opened Items
  import opened GraphStore
  import opened PipelinePlans
  import PipelineItems

  class Neo4jPipeline {
    /** SHA-1 as a hex digest, and `urlparse(url).netloc`: computed outside the model. */
    const sha1: string -> string
    const netloc: string -> string
    /** What the database holds. */
    var store: Graph

    constructor(sha1: string -> string, netloc: string -> string, store: Graph)
      ensures this.sha1 == sha1 && this.netloc == netloc && this.store == store
    {
      this.sha1 := sha1;
      this.netloc := netloc;
      this.store := store;
    }

    /** `tx.run(...)`: one statement on the store. */
    method Run(s: Statement)
      modifies this
      ensures store == Apply(old(store), s)
    {
      store := Apply(store, s);
    }

    /**
     * `ses.write_transaction(helper, data)`: the helper's statements one after
     * the other, or, when the helper raises, the store as it was.
     */
    method WriteTransaction(plan: Plan) returns (r: Result<(), WriteError>)
      modifies this
      ensures r.Success? <==> plan.Success?
      ensures plan.Success? ==> store == RunAll(old(store), plan.value)
      ensures plan.Failure? ==> r.error == plan.error && store == old(store)
    {
      if plan.Failure? {
        return Failure(plan.error);
      }
      var ss := plan.value;
      var i := 0;
      while i < |ss|
        invariant 0 <= i <= |ss|
        invariant store == RunAll(old(store), ss[..i])
      {
        RunAllConcat(old(store), ss[..i], [ss[i]]);
        RunAllSingle(store, ss[i]);
        assert ss[..i + 1] == ss[..i] + [ss[i]];
        Run(ss[i]);
        i := i + 1;
      }
      assert ss[..i] == ss;
      return Success(());
    }

    /**
     * `process_item`: the write helper chosen by the record's class, in its own
     * session and transaction. The record comes back unchanged; an error raised
     * inside the transaction propagates to the caller.
     */
    method ProcessItem(item: Item) returns (r: Result<Item, WriteError>)
      modifies this
      ensures r.Success? <==> PipelinePlans.ProcessItem(sha1, netloc, old(store), item).Success?
      ensures r.Success? ==> r.value == item && store == PipelinePlans.ProcessItem(sha1, netloc, old(store), item).value
      ensures r.Failure? ==> r.error == PipelinePlans.ProcessItem(sha1, netloc, old(store), item).error
      ensures r.Failure? ==> store == old(store)
      ensures Extends(old(store), store)
      ensures Valid(old(store)) ==> Valid(store)
    {
      var plan;
      match item.cls {
        case SourceDomainItem => plan := DomPlan(item.data);
        case SourcePageItem => plan := PagePlan(item.data);
        case LegislativePeriodItem => plan := PeriodPlan(netloc, item.data);
        case PoliticianItem => plan := PoliticianPlan(sha1, netloc, item.data);
        case PoliticianContent => plan := ContentPlan(sha1, netloc, item.data);
        case PoliticianBiography => plan := Success([]);
      }
      assert plan == ItemPlan(sha1, netloc, item);
      PipelineItems.ItemGrows(sha1, netloc, old(store), item);
      ExtendsRefl(store);
      var w := WriteTransaction(plan);
      if w.Failure? {
        return Failure(w.error);
      }
      return Success(item);
    }
  }

  /** Handing the same record to the pipeline twice leaves the store as one hand-over did. */
  method ProcessTwice(p: Neo4jPipeline, item: Item) returns (first: Result<Item, WriteError>, second: Result<Item, WriteError>)
    modifies p
    ensures first.Success? == PipelinePlans.ProcessItem(p.sha1, p.netloc, old(p.store), item).Success?
    ensures first.Success? ==> second.Success? && p.store == PipelinePlans.ProcessItem(p.sha1, p.netloc, old(p.store), item).value
    ensures first.Failure? ==> second.Failure? && second.error == first.error && p.store == old(p.store)
  {
    first := p.ProcessItem(item);
    if first.Success? {
      PipelineItems.ItemIdempotent(p.sha1, p.netloc, old(p.store), item);
    }
    second := p.ProcessItem(item);
  }
}
