/**
 * The batch driver of the LLM enrichment
 * (llm_enrichment/pythonProject1/llm_enrichment_process_final.py): the
 * politicians are cut into batches, every person of a batch goes through the
 * embedding retrieval and the language model, and each batch is saved with its
 * results, its errors and a checkpoint.
 *
 * The embedding service, the similarity search and the language model are
 * outside the model: what they give back for a person, a value or an
 * exception, is an input (`Outcome`). Clock readings, durations and costs
 * are left out.
 */
module LlmEnrichment {
  import opened Wrappers
  import opened PyStr
  import opened Items
  import EmbeddingRetrieval

  // ----- create_or_load_batches -----------------------------------------------------

  function Min(a: int, b: int): int {
    if a <= b then a else b
  }

  /** The slices `data[i:i + size]` for `i` in `range(0, len(data), size)`. */
  function Batches<T>(data: seq<T>, size: nat): seq<seq<T>>
    requires size > 0
    decreases |data|
  {
    if data == [] then []
    else
      var k := Min(size, |data|);
      [data[..k]] + Batches(data[k..], size)
  }

  /** The batches one after another. */
  function Flatten<T>(bs: seq<seq<T>>): seq<T> {
    if bs == [] then [] else bs[0] + Flatten(bs[1..])
  }

  /** Every batch is non-empty and at most `size` long, and all but the last are exactly `size` long. */
  ghost predicate Shaped<T>(bs: seq<seq<T>>, size: nat) {
    && (forall j :: 0 <= j < |bs| ==> 0 < |bs[j]| <= size)
    && (forall j :: 0 <= j < |bs| - 1 ==> |bs[j]| == size)
  }

  /** The batches put back together are the data. */
  lemma {:induction false} BatchesFlatten<T>(data: seq<T>, size: nat)
    requires size > 0
    ensures Flatten(Batches(data, size)) == data
    decreases |data|
  {
    if data != [] {
      var k := Min(size, |data|);
      BatchesFlatten(data[k..], size);
      assert Batches(data, size)[1..] == Batches(data[k..], size);
      assert data == data[..k] + data[k..];
    }
  }

  lemma ShapedCons<T>(b: seq<T>, rest: seq<seq<T>>, size: nat)
    requires 0 < |b| <= size && Shaped(rest, size) && (rest != [] ==> |b| == size)
    ensures Shaped([b] + rest, size)
  {
    var bs := [b] + rest;
    forall j | 0 < j < |bs| ensures bs[j] == rest[j - 1] {
    }
  }

  /**
   * All batches have `size` elements but the last, which has 1 to `size`, and
   * there are ceil(n / size) of them: `size` times their number covers the data,
   * and one batch fewer would not.
   */
  lemma {:induction false} BatchesShape<T>(data: seq<T>, size: nat)
    requires size > 0
    ensures Shaped(Batches(data, size), size)
    ensures |Batches(data, size)| * size >= |data|
    ensures data != [] ==> (|Batches(data, size)| - 1) * size < |data|
    ensures Batches(data, size) == [] <==> data == []
    decreases |data|
  {
    if data != [] {
      var k := Min(size, |data|);
      var rest := Batches(data[k..], size);
      BatchesShape(data[k..], size);
      assert Batches(data, size) == [data[..k]] + rest;
      ShapedCons(data[..k], rest, size);
      assert |Batches(data, size)| * size == |rest| * size + size;
      if data[k..] != [] {
        assert (|Batches(data, size)| - 1) * size == (|rest| - 1) * size + size;
      }
    }
  }

  /** The batches are the only way to cut the data into batches of that shape. */
  lemma {:induction false} BatchesUnique<T>(data: seq<T>, size: nat, bs: seq<seq<T>>)
    requires size > 0 && Shaped(bs, size) && Flatten(bs) == data
    ensures bs == Batches(data, size)
    decreases |bs|
  {
    if bs != [] {
      var rest := bs[1..];
      assert Shaped(rest, size) by {
        forall j | 0 <= j < |rest| ensures 0 < |rest[j]| <= size && (j < |rest| - 1 ==> |rest[j]| == size) {
          assert rest[j] == bs[j + 1];
        }
      }
      var k := |bs[0]|;
      if rest != [] {
        FlattenNonEmpty(rest);
        assert k == size && k < |data|;
      } else {
        assert Flatten(rest) == [];
        assert data == bs[0] + [];
      }
      assert k == Min(size, |data|);
      assert data[..k] == bs[0] && data[k..] == Flatten(rest);
      BatchesUnique(data[k..], size, rest);
    }
  }

  lemma FlattenNonEmpty<T>(bs: seq<seq<T>>)
    requires bs != [] && bs[0] != []
    ensures Flatten(bs) != []
  {
  }

  /**
   * `create_or_load_batches`: the cached batch structure when there is one,
   * otherwise the data cut into batches. `range` refuses a step of 0 with
   * ValueError; a negative step gives an empty range and so no batches.
   */
  method CreateOrLoadBatches<T>(data: seq<T>, batchSize: int, cache: Option<seq<seq<T>>>)
    returns (r: Result<seq<seq<T>>, string>)
    ensures cache.Some? ==> r == Success(cache.value)
    ensures cache.None? && batchSize == 0 ==> r == Failure("ValueError")
    ensures cache.None? && batchSize < 0 ==> r == Success([])
    ensures cache.None? && batchSize > 0 ==> r == Success(Batches(data, batchSize))
  {
    if cache.Some? {
      return Success(cache.value);
    }
    if batchSize == 0 {
      return Failure("ValueError");
    }
    if batchSize < 0 {
      return Success([]);
    }
    var batches := MakeBatches(data, batchSize);
    return Success(batches);
  }

  /** The loop of `create_or_load_batches` that appends one slice per step of the range. */
  method MakeBatches<T>(data: seq<T>, size: nat) returns (batches: seq<seq<T>>)
    requires size > 0
    ensures batches == Batches(data, size)
  {
    batches := [];
    var i := 0;
    while i < |data|
      invariant 0 <= i <= |data|
      invariant batches + Batches(data[i..], size) == Batches(data, size)
      decreases |data| - i
    {
      var end := Min(i + size, |data|);
      assert Batches(data[i..], size) == [data[i..end]] + Batches(data[end..], size) by {
        assert data[i..][..end - i] == data[i..end];
        assert data[i..][end - i..] == data[end..];
      }
      batches := batches + [data[i..end]];
      i := end;
    }
    assert data[|data|..] == [];
  }

  // ----- embedding_process ----------------------------------------------------------

  /** The `section_content` of each retrieved section. */
  function Contents(ranked: seq<EmbeddingRetrieval.Section>): (r: seq<string>)
    ensures |r| == |ranked|
  {
    seq(|ranked|, j requires 0 <= j < |ranked| => ranked[j].sectionContent)
  }

  /** `top_5`: the contents of at most the first five retrieved sections, joined by spaces. */
  function TopFive(ranked: seq<EmbeddingRetrieval.Section>): string {
    Join(Contents(ranked[..Min(5, |ranked|)]), " ")
  }

  /** Only the first five retrieved sections matter: nothing after them reaches the model. */
  lemma TopFiveIgnoresRest(a: seq<EmbeddingRetrieval.Section>, b: seq<EmbeddingRetrieval.Section>)
    requires |a| >= 5
    ensures TopFive(a + b) == TopFive(a)
  {
    assert (a + b)[..5] == a[..5];
  }

  /** With five sections or fewer, every one of them is joined, in rank order. */
  lemma TopFiveAll(ranked: seq<EmbeddingRetrieval.Section>)
    requires |ranked| <= 5
    ensures TopFive(ranked) == Join(Contents(ranked), " ")
  {
    assert ranked[..|ranked|] == ranked;
  }

  /** Appending a section below five adds its content after one space. */
  lemma TopFiveSnoc(ranked: seq<EmbeddingRetrieval.Section>, s: EmbeddingRetrieval.Section)
    requires 0 < |ranked| < 5
    ensures TopFive(ranked + [s]) == TopFive(ranked) + " " + s.sectionContent
  {
    TopFiveAll(ranked);
    TopFiveAll(ranked + [s]);
    assert Contents(ranked + [s]) == Contents(ranked) + [s.sectionContent];
    JoinAppend(Contents(ranked), s.sectionContent, " ");
  }

  // ----- process_batch ----------------------------------------------------------------

  /** An exception: `type(e).__name__` and `str(e)`. */
  datatype Exc = Exc(typeName: string, message: string)

  /** What `llm_process` hands back for a person. */
  datatype Reply = Reply(dqrPredict: int, commentPredict: string, confidenceScore: string,
                         promptTokens: nat, completionTokens: nat)

  /**
   * What the embedding retrieval and the language model do for one person:
   * the retrieved sections in rank order and the reply, or the exception one of
   * them raised.
   */
  datatype Outcome = Done(ranked: seq<EmbeddingRetrieval.Section>, reply: Reply) | Raised(exc: Exc)

  /** A successful record. */
  datatype Entry = Entry(neo4jElementId: Value, vorname: Value, nachname: Value, fullName: Value,
                         birthYear: Value, reply: Reply, retrievedContent: string)

  /** A logged failure. */
  datatype ErrorEntry = ErrorEntry(neo4jElementId: Value, fullName: Value, errorType: string,
                                   errorMessage: string, batchNum: int, personIndex: nat)

  /** The keys the successful record reads with `person[...]`, in the order the dict literal reads them. */
  const EntryKeys: seq<string> := ["neo4j_element_id", "firstname", "lastname", "full_name", "birth_year"]

  /** The first of `keys` that `person` lacks: the one `person[...]` raises KeyError for. */
  function FirstMissing(person: Fields, keys: seq<string>): (r: Option<string>)
    ensures r.None? ==> forall k :: k in keys ==> k in person
  {
    if keys == [] then None
    else if keys[0] !in person then Some(keys[0])
    else FirstMissing(person, keys[1..])
  }

  lemma {:induction false} FirstMissingSpec(person: Fields, keys: seq<string>)
    ensures FirstMissing(person, keys).None? <==> forall k :: k in keys ==> k in person
    ensures FirstMissing(person, keys).Some? ==>
              exists i :: 0 <= i < |keys| && keys[i] == FirstMissing(person, keys).value && keys[i] !in person
                          && forall j :: 0 <= j < i ==> keys[j] in person
  {
    if keys != [] && keys[0] in person {
      FirstMissingSpec(person, keys[1..]);
      assert keys == [keys[0]] + keys[1..];
      if FirstMissing(person, keys).Some? {
        var i :| 0 <= i < |keys[1..]| && keys[1..][i] == FirstMissing(person, keys).value && keys[1..][i] !in person
                 && forall j :: 0 <= j < i ==> keys[1..][j] in person;
        assert keys[i + 1] == keys[1..][i];
        forall j | 0 <= j < i + 1 ensures keys[j] in person {
          if j > 0 {
            assert keys[j] == keys[1..][j - 1];
          }
        }
      }
    }
  }

  /** `person.get(k, "unknown")` */
  function GetUnknown(person: Fields, k: string): Value {
    if k in person then person[k] else Some("unknown")
  }

  /** The error record for person `i` of batch `batchNum`. */
  function ErrorOf(person: Fields, exc: Exc, batchNum: int, i: nat): ErrorEntry {
    ErrorEntry(GetUnknown(person, "neo4j_element_id"), GetUnknown(person, "full_name"),
               exc.typeName, exc.message, batchNum, i)
  }

  /** `KeyError(k)`; its `str` is the key's repr. */
  function KeyError(k: string): Exc {
    Exc("KeyError", "'" + k + "'")
  }

  /** The body of the `try` for one person, with the `except` that catches what it raises. */
  function Handle(person: Fields, batchNum: int, i: nat, outcome: Outcome): Result<Entry, ErrorEntry> {
    match outcome
    case Raised(exc) => Failure(ErrorOf(person, exc, batchNum, i))
    case Done(ranked, reply) =>
      match FirstMissing(person, EntryKeys)
      case Some(k) => Failure(ErrorOf(person, KeyError(k), batchNum, i))
      case None =>
        Success(Entry(person["neo4j_element_id"], person["firstname"], person["lastname"],
                      person["full_name"], person["birth_year"], reply, TopFive(ranked)))
  }

  /** A person is recorded as a success exactly when both services answered and the record has all five keys. */
  lemma HandleSpec(person: Fields, batchNum: int, i: nat, outcome: Outcome)
    ensures Handle(person, batchNum, i, outcome).Success? <==>
              outcome.Done? && forall k :: k in EntryKeys ==> k in person
    ensures Handle(person, batchNum, i, outcome).Success? ==>
              var e := Handle(person, batchNum, i, outcome).value;
              e.neo4jElementId == person["neo4j_element_id"] && e.fullName == person["full_name"]
              && e.reply == outcome.reply && e.retrievedContent == TopFive(outcome.ranked)
    ensures Handle(person, batchNum, i, outcome).Failure? ==>
              var e := Handle(person, batchNum, i, outcome).error;
              e.batchNum == batchNum && e.personIndex == i
              && e.neo4jElementId == GetUnknown(person, "neo4j_element_id") && e.fullName == GetUnknown(person, "full_name")
              && (outcome.Raised? ==> e.errorType == outcome.exc.typeName && e.errorMessage == outcome.exc.message)
              && (outcome.Done? ==> e.errorType == "KeyError")
  {
    FirstMissingSpec(person, EntryKeys);
  }

  /** A logged failure names its batch and its person's position. */
  lemma HandleLogs(person: Fields, batchNum: int, i: nat, outcome: Outcome)
    requires Handle(person, batchNum, i, outcome).Failure?
    ensures Handle(person, batchNum, i, outcome).error.personIndex == i
    ensures Handle(person, batchNum, i, outcome).error.batchNum == batchNum
  {
  }

  /** What the batch loop does for each person, in batch order. */
  function Handled(batch: seq<Fields>, batchNum: int, outcomes: seq<Outcome>): (r: seq<Result<Entry, ErrorEntry>>)
    requires |outcomes| == |batch|
    ensures |r| == |batch|
  {
    seq(|batch|, i requires 0 <= i < |batch| => Handle(batch[i], batchNum, i, outcomes[i]))
  }

  /** The successes, in order. */
  function Oks<A, B>(rs: seq<Result<A, B>>): seq<A> {
    if rs == [] then []
    else Oks(rs[..|rs| - 1]) + (if rs[|rs| - 1].Success? then [rs[|rs| - 1].value] else [])
  }

  /** The failures, in order. */
  function Errs<A, B>(rs: seq<Result<A, B>>): seq<B> {
    if rs == [] then []
    else Errs(rs[..|rs| - 1]) + (if rs[|rs| - 1].Failure? then [rs[|rs| - 1].error] else [])
  }

  /** The positions of the successes. */
  ghost function OkAt<A, B>(rs: seq<Result<A, B>>): seq<nat> {
    if rs == [] then []
    else OkAt(rs[..|rs| - 1]) + (if rs[|rs| - 1].Success? then [|rs| - 1] else [])
  }

  /** The positions of the failures. */
  ghost function ErrAt<A, B>(rs: seq<Result<A, B>>): seq<nat> {
    if rs == [] then []
    else ErrAt(rs[..|rs| - 1]) + (if rs[|rs| - 1].Failure? then [|rs| - 1] else [])
  }

  ghost predicate Increasing(xs: seq<nat>) {
    forall j, k :: 0 <= j < k < |xs| ==> xs[j] < xs[k]
  }

  /** Every element is a success or a failure, never both. */
  lemma {:induction false} OksErrsCount<A, B>(rs: seq<Result<A, B>>)
    ensures |Oks(rs)| + |Errs(rs)| == |rs|
  {
    if rs != [] {
      OksErrsCount(rs[..|rs| - 1]);
    }
  }

  /** `Oks` picks the successes at increasing positions, and every success is picked. */
  lemma {:induction false} OksInOrder<A, B>(rs: seq<Result<A, B>>)
    ensures |OkAt(rs)| == |Oks(rs)| && Increasing(OkAt(rs))
    ensures forall j :: 0 <= j < |OkAt(rs)| ==> OkAt(rs)[j] < |rs| && rs[OkAt(rs)[j]] == Success(Oks(rs)[j])
    ensures forall i :: 0 <= i < |rs| && rs[i].Success? ==> i in OkAt(rs)
  {
    if rs != [] {
      var init := rs[..|rs| - 1];
      OksInOrder(init);
      assert forall i :: 0 <= i < |init| ==> init[i] == rs[i];
    }
  }

  /** `Errs` picks the failures at increasing positions, and every failure is picked. */
  lemma {:induction false} ErrsInOrder<A, B>(rs: seq<Result<A, B>>)
    ensures |ErrAt(rs)| == |Errs(rs)| && Increasing(ErrAt(rs))
    ensures forall j :: 0 <= j < |ErrAt(rs)| ==> ErrAt(rs)[j] < |rs| && rs[ErrAt(rs)[j]] == Failure(Errs(rs)[j])
    ensures forall i :: 0 <= i < |rs| && rs[i].Failure? ==> i in ErrAt(rs)
  {
    if rs != [] {
      var init := rs[..|rs| - 1];
      ErrsInOrder(init);
      assert forall i :: 0 <= i < |init| ==> init[i] == rs[i];
    }
  }

  /** The `batch_summary` dictionary, without its clock readings, durations and costs. */
  datatype Summary = Summary(batchNum: int, batchSize: nat, successfulProcessing: nat, failedProcessing: nat,
                             results: seq<Entry>, errors: seq<ErrorEntry>)

  /** One pass of the loop body of `process_batch`: the `try` for person `i`, and the `except` that logs what it raised. */
  method TryPerson(person: Fields, batchNum: int, i: nat, outcome: Outcome) returns (r: Result<Entry, ErrorEntry>)
    ensures r == Handle(person, batchNum, i, outcome)
  {
    match outcome
    case Raised(exc) =>
      r := Failure(ErrorOf(person, exc, batchNum, i));
    case Done(ranked, reply) =>
      var top5 := TopFive(ranked);
      var missing := FirstMissing(person, EntryKeys);
      if missing.Some? {
        r := Failure(ErrorOf(person, KeyError(missing.value), batchNum, i));
      } else {
        r := Success(Entry(person["neo4j_element_id"], person["firstname"], person["lastname"],
                           person["full_name"], person["birth_year"], reply, top5));
      }
  }

  /** `process_batch`: every person is tried in turn; a failure is logged and the loop goes on. */
  method ProcessBatch(batch: seq<Fields>, batchNum: int, outcomes: seq<Outcome>) returns (summary: Summary)
    requires |outcomes| == |batch|
    ensures summary == Summarised(batch, batchNum, outcomes)
  {
    ghost var rs := Handled(batch, batchNum, outcomes);
    var results: seq<Entry> := [];
    var errors: seq<ErrorEntry> := [];
    for i := 0 to |batch|
      invariant results == Oks(rs[..i]) && errors == Errs(rs[..i])
    {
      assert rs[..i + 1][..i] == rs[..i];
      var r := TryPerson(batch[i], batchNum, i, outcomes[i]);
      if r.Success? {
        results := results + [r.value];
      } else {
        errors := errors + [r.error];
      }
    }
    assert rs[..|batch|] == rs;
    summary := Summary(batchNum, |batch|, |results|, |errors|, results, errors);
  }

  /**
   * Every person of the batch is accounted for once: the successes and the
   * failures add up to the batch size, the results come in batch order, and
   * the errors come in batch order, each naming this batch and the position of
   * its person.
   */
  lemma BatchAccounting(batch: seq<Fields>, batchNum: int, outcomes: seq<Outcome>)
    requires |outcomes| == |batch|
    ensures var rs := Handled(batch, batchNum, outcomes);
            |Oks(rs)| + |Errs(rs)| == |batch|
    ensures var es := Errs(Handled(batch, batchNum, outcomes));
            && (forall j :: 0 <= j < |es| ==>
                  es[j].batchNum == batchNum && es[j].personIndex < |batch|
                  && Handled(batch, batchNum, outcomes)[es[j].personIndex] == Failure(es[j]))
            && (forall j, k :: 0 <= j < k < |es| ==> es[j].personIndex < es[k].personIndex)
            && (forall i :: 0 <= i < |batch| && Handled(batch, batchNum, outcomes)[i].Failure? ==>
                  exists j :: 0 <= j < |es| && es[j].personIndex == i)
  {
    var rs := Handled(batch, batchNum, outcomes);
    var es := Errs(rs);
    OksErrsCount(rs);
    ErrsInOrder(rs);
    var at := ErrAt(rs);
    forall j | 0 <= j < |es| ensures es[j].personIndex == at[j] && es[j].batchNum == batchNum {
      HandleLogs(batch[at[j]], batchNum, at[j], outcomes[at[j]]);
    }
    forall i | 0 <= i < |batch| && rs[i].Failure?
      ensures exists j :: 0 <= j < |es| && es[j].personIndex == i
    {
      var j :| 0 <= j < |at| && at[j] == i;
      assert es[j].personIndex == i;
    }
  }

  /** The results are the successful persons' records, in batch order. */
  lemma ResultsInOrder(batch: seq<Fields>, batchNum: int, outcomes: seq<Outcome>)
    requires |outcomes| == |batch|
    ensures var rs := Handled(batch, batchNum, outcomes);
            exists at: seq<nat> :: |at| == |Oks(rs)| && Increasing(at)
              && (forall j :: 0 <= j < |at| ==> at[j] < |batch| && rs[at[j]] == Success(Oks(rs)[j]))
              && (forall i :: 0 <= i < |batch| && rs[i].Success? ==> i in at)
  {
    var rs := Handled(batch, batchNum, outcomes);
    OksInOrder(rs);
    var at := OkAt(rs);
    assert |at| == |Oks(rs)| && Increasing(at);
  }

  // ----- save_batch_results -----------------------------------------------------------

  /** `f"{n:03d}"`: at least three characters, zero-filled after the sign. */
  function Pad3(n: int): string {
    if n >= 0 then ZeroPad(n, 3) else "-" + ZeroPad(-n, 2)
  }

  /** A non-negative label is all digits; a negative one starts with the sign. */
  lemma Pad3Head(n: int)
    ensures |Pad3(n)| >= 3 && (IsDigit(Pad3(n)[0]) <==> n >= 0)
  {
    if n < 0 {
      assert Pad3(n)[0] == '-';
    }
  }

  lemma ZeroPadDistinct(a: nat, b: nat, width: nat)
    requires a != b
    ensures ZeroPad(a, width) != ZeroPad(b, width)
  {
    ZeroPadValue(a, width);
    ZeroPadValue(b, width);
  }

  lemma Pad3SameSign(a: int, b: int)
    requires a != b && (a >= 0 <==> b >= 0)
    ensures Pad3(a) != Pad3(b)
  {
    if a >= 0 {
      ZeroPadDistinct(a, b, 3);
    } else {
      var x, y := ZeroPad(-a, 2), ZeroPad(-b, 2);
      ZeroPadDistinct(-a, -b, 2);
      assert Pad3(a) == "-" + x && Pad3(b) == "-" + y;
      if "-" + x == "-" + y {
        EmbeddingRetrieval.CancelPrefix("-", x, y);
      }
    }
  }

  /** Distinct batch numbers have distinct three-digit labels. */
  lemma Pad3Distinct(a: int, b: int)
    requires a != b
    ensures Pad3(a) != Pad3(b)
  {
    if a >= 0 <==> b >= 0 {
      Pad3SameSign(a, b);
    } else {
      Pad3Head(a);
      Pad3Head(b);
    }
  }

  function BatchFile(batchNum: int): string {
    "final_data/batches/batch_" + Pad3(batchNum) + ".json"
  }

  function ErrorFile(batchNum: int): string {
    "final_data/errors/errors_batch_" + Pad3(batchNum) + ".json"
  }

  const CheckpointFile: string := "final_data/checkpoint.json"

  /** `checkpoint_data`, without its timestamp. */
  datatype Checkpoint = Checkpoint(lastCompletedBatch: int, totalBatchesProcessed: int)

  /** What `save_batch_results` writes: the batch file, the error log when there is one, and the checkpoint. */
  datatype Saved = Saved(batchFile: string, summary: Summary, errorLog: Option<(string, seq<ErrorEntry>)>,
                         checkpointFile: string, checkpoint: Checkpoint)

  /** `save_batch_results(batch_num, batch_summary)` */
  function SaveBatchResults(batchNum: int, summary: Summary): Saved {
    Saved(BatchFile(batchNum), summary,
          if summary.failedProcessing > 0 then Some((ErrorFile(batchNum), summary.errors)) else None,
          CheckpointFile, Checkpoint(batchNum, batchNum + 1))
  }

  /** Saving two different batches never writes to the same batch file or error log. */
  lemma SavedFilesDistinct(a: int, b: int, sa: Summary, sb: Summary)
    requires a != b
    ensures SaveBatchResults(a, sa).batchFile != SaveBatchResults(b, sb).batchFile
    ensures SaveBatchResults(a, sa).errorLog.Some? && SaveBatchResults(b, sb).errorLog.Some? ==>
              SaveBatchResults(a, sa).errorLog.value.0 != SaveBatchResults(b, sb).errorLog.value.0
  {
    Pad3Distinct(a, b);
    var prefix, errPrefix, suffix := "final_data/batches/batch_", "final_data/errors/errors_batch_", ".json";
    if BatchFile(a) == BatchFile(b) {
      EmbeddingRetrieval.CancelSuffix(prefix + Pad3(a), prefix + Pad3(b), suffix);
      EmbeddingRetrieval.CancelPrefix(prefix, Pad3(a), Pad3(b));
    }
    if ErrorFile(a) == ErrorFile(b) {
      EmbeddingRetrieval.CancelSuffix(errPrefix + Pad3(a), errPrefix + Pad3(b), suffix);
      EmbeddingRetrieval.CancelPrefix(errPrefix, Pad3(a), Pad3(b));
    }
  }

  /** There is a failure exactly when some element failed. */
  lemma {:induction false} ErrsNonEmpty<A, B>(rs: seq<Result<A, B>>)
    ensures Errs(rs) != [] <==> exists i :: 0 <= i < |rs| && rs[i].Failure?
  {
    if rs != [] {
      var init := rs[..|rs| - 1];
      ErrsNonEmpty(init);
      if Errs(init) != [] {
        var i :| 0 <= i < |init| && init[i].Failure?;
        assert rs[i] == init[i];
      }
      if exists i :: 0 <= i < |rs| && rs[i].Failure? {
        var i :| 0 <= i < |rs| && rs[i].Failure?;
        if i < |init| {
          assert init[i] == rs[i];
        }
      }
    }
  }

  /** The summary `process_batch` returns for these persons and outcomes. */
  function Summarised(batch: seq<Fields>, batchNum: int, outcomes: seq<Outcome>): Summary
    requires |outcomes| == |batch|
  {
    var rs := Handled(batch, batchNum, outcomes);
    Summary(batchNum, |batch|, |Oks(rs)|, |Errs(rs)|, Oks(rs), Errs(rs))
  }

  /**
   * For a summary `process_batch` produced, the error log is written exactly
   * when some person of the batch failed, and it holds their errors; the
   * checkpoint counts the batches up to and including this one.
   */
  lemma SavedBatch(batch: seq<Fields>, batchNum: int, outcomes: seq<Outcome>)
    requires |outcomes| == |batch|
    ensures var summary := Summarised(batch, batchNum, outcomes);
            var saved := SaveBatchResults(batchNum, summary);
            && (saved.errorLog.Some? <==> exists i :: 0 <= i < |batch| && Handled(batch, batchNum, outcomes)[i].Failure?)
            && (saved.errorLog.Some? ==> saved.errorLog.value.1 == summary.errors)
            && saved.checkpoint.lastCompletedBatch == batchNum
            && saved.checkpoint.totalBatchesProcessed == batchNum + 1
            && summary.successfulProcessing + summary.failedProcessing == summary.batchSize
  {
    var rs := Handled(batch, batchNum, outcomes);
    OksErrsCount(rs);
    ErrsNonEmpty(rs);
  }
}
