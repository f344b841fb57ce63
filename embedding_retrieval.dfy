/**
 * `EmbeddingRetrieval` (llm_enrichment/pythonProject1/embedding_retrieval.py):
 * turns a politician record into content sections and cuts sections that are
 * too long for the embedding model into overlapping word chunks.
 *
 * The tokenizer is the parameter `count` (tiktoken's `count_tokens`), taken as
 * a total function to naturals.
 */
module EmbeddingRetrieval {
  import opened Wrappers
  import opened PyStr

  // ----- extract_content_sections ----------------------------------------------

  /** A key of a JSON object: absent, present as null, or holding a value. */
  datatype Slot<T> = Absent | Null | Given(value: T)

  /** One entry of `neo4j_content`. */
  datatype ContentEntry = ContentEntry(contentId: Slot<string>, sectionContent: Slot<string>)

  /** The part of a politician record read here; `content` is `neo4j_content`. */
  datatype Person = Person(fullName: Slot<string>, content: Slot<seq<ContentEntry>>)

  /** A section as chunking and ranking read it: every value a string. */
  datatype Section = Section(politicianName: string, contentId: string, sectionContent: string)

  /** A section dict as `extract_content_sections` builds it: a JSON null is copied into it as None. */
  datatype RawSection = RawSection(politicianName: Option<string>, contentId: Option<string>, sectionContent: Option<string>)

  /** The exception `extract_content_sections` raises. */
  datatype Raised = KeyError(key: string) | TypeError

  /** `d[k]` for a key that is present: the value, or None for a null. */
  function Lookup(s: Slot<string>): (r: Option<string>)
    requires !s.Absent?
    ensures r.Some? <==> s.Given?
    ensures s.Given? ==> r.value == s.value
  {
    if s.Given? then Some(s.value) else None
  }

  /**
   * The section built from one entry, or the KeyError of the first lookup that
   * finds no key, in the order the dict display evaluates them. A null value
   * raises nothing here: it is copied into the section.
   */
  function SectionOf(name: Slot<string>, e: ContentEntry): (r: Result<RawSection, Raised>)
    ensures r.Success? <==> !name.Absent? && !e.contentId.Absent? && !e.sectionContent.Absent?
    ensures name.Absent? ==> r == Failure(KeyError("full_name"))
    ensures !name.Absent? && e.contentId.Absent? ==> r == Failure(KeyError("content_id"))
    ensures !name.Absent? && !e.contentId.Absent? && e.sectionContent.Absent? ==> r == Failure(KeyError("section_content"))
    ensures r.Success? ==>
              (r.value.politicianName.Some? <==> name.Given?) &&
              (r.value.contentId.Some? <==> e.contentId.Given?) &&
              (r.value.sectionContent.Some? <==> e.sectionContent.Given?)
    ensures r.Success? && name.Given? ==> r.value.politicianName.value == name.value
    ensures r.Success? && e.contentId.Given? ==> r.value.contentId.value == e.contentId.value
    ensures r.Success? && e.sectionContent.Given? ==> r.value.sectionContent.value == e.sectionContent.value
  {
    if name.Absent? then Failure(KeyError("full_name"))
    else if e.contentId.Absent? then Failure(KeyError("content_id"))
    else if e.sectionContent.Absent? then Failure(KeyError("section_content"))
    else Success(RawSection(Lookup(name), Lookup(e.contentId), Lookup(e.sectionContent)))
  }

  /** The sections of `entries` in order, or the first KeyError. */
  function SectionsOf(name: Slot<string>, entries: seq<ContentEntry>): Result<seq<RawSection>, Raised>
  {
    if entries == [] then Success([])
    else
      match SectionsOf(name, entries[..|entries| - 1])
      case Failure(k) => Failure(k)
      case Success(done) =>
        match SectionOf(name, entries[|entries| - 1])
        case Failure(k) => Failure(k)
        case Success(s) => Success(done + [s])
  }

  /**
   * What `extract_content_sections(person)` returns: a missing `neo4j_content`
   * is `[]`, and a null one cannot be iterated.
   */
  function Extracted(p: Person): Result<seq<RawSection>, Raised> {
    match p.content
    case Absent => Success([])
    case Null => Failure(TypeError)
    case Given(entries) => SectionsOf(p.fullName, entries)
  }

  /**
   * Extraction succeeds exactly when every entry converts, and then it yields
   * one section per entry, in order, named after the person.
   */
  lemma {:induction false} SectionsOfPointwise(name: Slot<string>, entries: seq<ContentEntry>)
    ensures SectionsOf(name, entries).Success? <==>
            forall k :: 0 <= k < |entries| ==> SectionOf(name, entries[k]).Success?
    ensures SectionsOf(name, entries).Success? ==>
            var r := SectionsOf(name, entries).value;
            |r| == |entries| &&
            forall k :: 0 <= k < |entries| ==> r[k] == SectionOf(name, entries[k]).value
  {
    if entries != [] {
      var init := entries[..|entries| - 1];
      SectionsOfPointwise(name, init);
      assert forall k :: 0 <= k < |init| ==> init[k] == entries[k];
    }
  }

  /** The error is the first failing entry's: a failing prefix fixes the result. */
  lemma {:induction false} SectionsOfPrefixFailure(name: Slot<string>, entries: seq<ContentEntry>, i: nat)
    requires i <= |entries| && SectionsOf(name, entries[..i]).Failure?
    ensures SectionsOf(name, entries) == SectionsOf(name, entries[..i])
    decreases |entries| - i
  {
    if i < |entries| {
      assert entries[..i + 1][..i] == entries[..i];
      SectionsOfPrefixFailure(name, entries, i + 1);
    } else {
      assert entries[..i] == entries;
    }
  }

  /**
   * A person with no content entries gives no sections and no error, even
   * when `full_name` is missing: that key is only read inside the loop.
   */
  lemma NoEntriesNoSections(p: Person)
    requires p.content.Absent? || p.content == Given([])
    ensures Extracted(p) == Success([])
  {
  }

  /** A null `neo4j_content` raises TypeError, whatever else the record holds. */
  lemma NullContentRaises(p: Person)
    requires p.content.Null?
    ensures Extracted(p) == Failure(TypeError)
  {
  }

  /**
   * Nulls pass through: a person with a null `full_name` and one entry whose
   * values are null gives one section holding three Nones.
   */
  lemma NullsCopied(e: ContentEntry)
    requires e.contentId.Null? && e.sectionContent.Null?
    ensures Extracted(Person(Null, Given([e]))) == Success([RawSection(None, None, None)])
  {
    var es := [e];
    assert es[..|es| - 1] == [];
    assert SectionsOf(Null, es[..|es| - 1]) == Success([]);
    assert SectionOf(Null, es[|es| - 1]) == Success(RawSection(None, None, None));
    var none: seq<RawSection> := [];
    assert SectionsOf(Null, es) == Success(none + [RawSection(None, None, None)]);
    assert none + [RawSection(None, None, None)] == [RawSection(None, None, None)];
  }

  /** The append loop of `extract_content_sections`. */
  method ExtractContentSections(p: Person) returns (r: Result<seq<RawSection>, Raised>)
    ensures r == Extracted(p)
  {
    if p.content.Null? {
      return Failure(TypeError);
    }
    var entries := if p.content.Absent? then [] else p.content.value;
    var all: seq<RawSection> := [];
    var i := 0;
    while i < |entries|
      invariant 0 <= i <= |entries|
      invariant SectionsOf(p.fullName, entries[..i]) == Success(all)
    {
      assert entries[..i + 1][..i] == entries[..i];
      var s := SectionOf(p.fullName, entries[i]);
      if s.Failure? {
        SectionsOfPrefixFailure(p.fullName, entries, i + 1);
        return Failure(s.error);
      }
      all := all + [s.value];
      i := i + 1;
    }
    assert entries[..i] == entries;
    return Success(all);
  }

  // ----- token weights ------------------------------------------------------------

  /** `count_tokens(word + " ")` */
  function Weight(count: string -> nat): string -> nat {
    w => count(w + " ")
  }

  /** The per-word token sum of `ws`. */
  function SumW<T>(wt: T -> nat, ws: seq<T>): nat {
    if ws == [] then 0 else SumW(wt, ws[..|ws| - 1]) + wt(ws[|ws| - 1])
  }

  lemma {:induction false} SumWConcat<T>(wt: T -> nat, a: seq<T>, b: seq<T>)
    ensures SumW(wt, a + b) == SumW(wt, a) + SumW(wt, b)
    decreases |b|
  {
    if b != [] {
      assert (a + b)[..|a + b| - 1] == a + b[..|b| - 1];
      SumWConcat(wt, a, b[..|b| - 1]);
    } else {
      assert a + b == a;
    }
  }

  // ----- the overlap ----------------------------------------------------------------

  /**
   * The words carried into the next chunk: taken from the end of `chunk` while
   * the running sum stays within `budget`, stopping at the first that does not fit.
   */
  function Overlap<T>(wt: T -> nat, chunk: seq<T>, budget: int): seq<T> {
    if chunk == [] then []
    else
      var w := chunk[|chunk| - 1];
      if wt(w) <= budget then
        Overlap(wt, chunk[..|chunk| - 1], budget - wt(w)) + [w]
      else []
  }

  /** `a` is a suffix of `b`. */
  ghost predicate Suffix<T>(a: seq<T>, b: seq<T>) {
    |a| <= |b| && a == b[|b| - |a|..]
  }

  lemma SuffixTrans<T>(a: seq<T>, b: seq<T>, c: seq<T>)
    requires Suffix(a, b) && Suffix(b, c)
    ensures Suffix(a, c)
  {
    assert c[|c| - |b|..][|b| - |a|..] == c[|c| - |a|..];
  }

  /** A suffix of all but the last word, followed by the last word, is a suffix. */
  lemma SnocSuffix<T>(words: seq<T>, c: seq<T>)
    requires words != [] && Suffix(c, words[..|words| - 1])
    ensures Suffix(c + [words[|words| - 1]], words)
  {
    assert words[..|words| - 1][|words| - 1 - |c|..] + [words[|words| - 1]] == words[|words| - 1 - |c|..];
  }

  lemma DropSnoc<T>(c: seq<T>, j: nat)
    requires j < |c|
    ensures c[j..] == c[..|c| - 1][j..] + [c[|c| - 1]]
  {
  }

  lemma SumWSnoc<T>(wt: T -> nat, c: seq<T>, w: T)
    ensures SumW(wt, c + [w]) == SumW(wt, c) + wt(w)
  {
    assert (c + [w])[..|c|] == c;
  }

  /** The overlap is a suffix of the chunk. */
  lemma {:induction false} OverlapSuffix<T>(wt: T -> nat, chunk: seq<T>, budget: int)
    ensures Suffix(Overlap(wt, chunk, budget), chunk)
  {
    if chunk != [] && wt(chunk[|chunk| - 1]) <= budget {
      var init := chunk[..|chunk| - 1];
      OverlapSuffix(wt, init, budget - wt(chunk[|chunk| - 1]));
      SnocSuffix(chunk, Overlap(wt, init, budget - wt(chunk[|chunk| - 1])));
    }
  }

  /** The overlap's per-word token sum is within the budget; a negative budget takes nothing. */
  lemma {:induction false} OverlapFits<T>(wt: T -> nat, chunk: seq<T>, budget: int)
    ensures budget < 0 ==> Overlap(wt, chunk, budget) == []
    ensures budget >= 0 ==> SumW(wt, Overlap(wt, chunk, budget)) <= budget
  {
    if chunk != [] && wt(chunk[|chunk| - 1]) <= budget {
      var w := chunk[|chunk| - 1];
      OverlapFits(wt, chunk[..|chunk| - 1], budget - wt(w));
      SumWSnoc(wt, Overlap(wt, chunk[..|chunk| - 1], budget - wt(w)), w);
    }
  }

  /**
   * The overlap is the longest suffix of the chunk that fits: every longer
   * suffix has a per-word token sum above the budget.
   */
  lemma {:induction false} OverlapLongest<T>(wt: T -> nat, chunk: seq<T>, budget: int)
    ensures forall j :: 0 <= j < |chunk| - |Overlap(wt, chunk, budget)| ==>
              SumW(wt, chunk[j..]) > budget
  {
    if chunk != [] {
      var w := chunk[|chunk| - 1];
      var init := chunk[..|chunk| - 1];
      var o := Overlap(wt, chunk, budget);
      if wt(w) <= budget {
        OverlapLongest(wt, init, budget - wt(w));
        assert |o| == |Overlap(wt, init, budget - wt(w))| + 1;
      }
      forall j | 0 <= j < |chunk| - |o|
        ensures SumW(wt, chunk[j..]) > budget
      {
        DropSnoc(chunk, j);
        SumWSnoc(wt, init[j..], w);
      }
    }
  }

  /** The overlap loop: walk the chunk backwards, prepend while the words fit. */
  method TakeOverlap<T>(wt: T -> nat, chunk: seq<T>, budget: int)
    returns (words: seq<T>, tokens: nat)
    ensures words == Overlap(wt, chunk, budget)
    ensures tokens == SumW(wt, words)
  {
    words, tokens := [], 0;
    var i := |chunk|;
    assert chunk[..i] == chunk;
    while i > 0
      invariant 0 <= i <= |chunk|
      invariant words == chunk[i..] && tokens == SumW(wt, words)
      invariant Overlap(wt, chunk, budget) == Overlap(wt, chunk[..i], budget - tokens) + words
    {
      var w := chunk[i - 1];
      var n := wt(w);
      assert chunk[..i][..i - 1] == chunk[..i - 1];
      if tokens + n <= budget {
        assert chunk[i - 1..] == [w] + words;
        SumWConcat(wt, [w], words);
        assert SumW(wt, [w]) == n by { assert [w][..0] == []; }
        assert Overlap(wt, chunk[..i], budget - tokens) == Overlap(wt, chunk[..i - 1], budget - (tokens + n)) + [w];
        words := [w] + words;
        tokens := tokens + n;
        i := i - 1;
      } else {
        assert Overlap(wt, chunk[..i], budget - tokens) == [];
        break;
      }
    }
  }

  // ----- the word loop ----------------------------------------------------------------

  /** `current_chunk`, `current_tokens` and the chunks emitted so far. */
  datatype WState<T> = WState(chunk: seq<T>, tokens: int, out: seq<seq<T>>)

  /** Whether appending `w` fills the chunk. */
  predicate Fills<T>(wt: T -> nat, s: WState<T>, w: T, maxTokens: int) {
    s.tokens + wt(w) >= maxTokens
  }

  /** One pass of the loop body. */
  function WordStep<T>(wt: T -> nat, s: WState<T>, w: T, maxTokens: int, overlapTokens: int): WState<T> {
    var c := s.chunk + [w];
    if Fills(wt, s, w, maxTokens) then
      var o := Overlap(wt, c, overlapTokens);
      WState(o, SumW(wt, o), s.out + [c])
    else WState(c, s.tokens + wt(w), s.out)
  }

  function Fold<T>(wt: T -> nat, words: seq<T>, maxTokens: int, overlapTokens: int): WState<T> {
    if words == [] then WState([], 0, [])
    else WordStep(wt, Fold(wt, words[..|words| - 1], maxTokens, overlapTokens),
                  words[|words| - 1], maxTokens, overlapTokens)
  }

  /** The word chunks of a long section: the emitted ones, then the rest if non-empty. */
  function Chunks<T>(wt: T -> nat, words: seq<T>, maxTokens: int, overlapTokens: int): seq<seq<T>> {
    var s := Fold(wt, words, maxTokens, overlapTokens);
    s.out + (if s.chunk != [] then [s.chunk] else [])
  }

  /** The `[start, end)` word ranges of the chunks emitted inside the loop. */
  ghost function EmitSpans<T>(wt: T -> nat, words: seq<T>, maxTokens: int, overlapTokens: int): seq<(int, int)> {
    if words == [] then []
    else
      var init := words[..|words| - 1];
      var s := Fold(wt, init, maxTokens, overlapTokens);
      EmitSpans(wt, init, maxTokens, overlapTokens) +
      (if Fills(wt, s, words[|words| - 1], maxTokens) then [(|init| - |s.chunk|, |words|)] else [])
  }

  /** The ranges of all chunks. */
  ghost function Spans<T>(wt: T -> nat, words: seq<T>, maxTokens: int, overlapTokens: int): seq<(int, int)> {
    var s := Fold(wt, words, maxTokens, overlapTokens);
    EmitSpans(wt, words, maxTokens, overlapTokens) +
    (if s.chunk != [] then [(|words| - |s.chunk|, |words|)] else [])
  }

  lemma FoldSnoc<T>(wt: T -> nat, words: seq<T>, i: nat, maxTokens: int, overlapTokens: int)
    requires i < |words|
    ensures Fold(wt, words[..i + 1], maxTokens, overlapTokens) ==
            WordStep(wt, Fold(wt, words[..i], maxTokens, overlapTokens), words[i], maxTokens, overlapTokens)
  {
    assert words[..i + 1][..i] == words[..i];
  }

  /** The last pass of the loop, spelled out. */
  lemma FoldStep<T>(wt: T -> nat, words: seq<T>, maxTokens: int, overlapTokens: int)
    requires words != []
    ensures var init := words[..|words| - 1];
            var w := words[|words| - 1];
            var s0 := Fold(wt, init, maxTokens, overlapTokens);
            var s := Fold(wt, words, maxTokens, overlapTokens);
            && (Fills(wt, s0, w, maxTokens) ==>
                  && s.out == s0.out + [s0.chunk + [w]]
                  && s.chunk == Overlap(wt, s0.chunk + [w], overlapTokens)
                  && s.tokens == SumW(wt, s.chunk)
                  && EmitSpans(wt, words, maxTokens, overlapTokens) ==
                     EmitSpans(wt, init, maxTokens, overlapTokens) + [(|init| - |s0.chunk|, |words|)])
            && (!Fills(wt, s0, w, maxTokens) ==>
                  && s.out == s0.out
                  && s.chunk == s0.chunk + [w]
                  && s.tokens == s0.tokens + wt(w)
                  && EmitSpans(wt, words, maxTokens, overlapTokens) == EmitSpans(wt, init, maxTokens, overlapTokens))
  {
  }

  /**
   * `current_tokens` is always the per-word sum of `current_chunk`, and the
   * chunk is always the most recent words read.
   */
  lemma {:induction false} FoldChunk<T>(wt: T -> nat, words: seq<T>, maxTokens: int, overlapTokens: int)
    ensures var s := Fold(wt, words, maxTokens, overlapTokens);
            s.tokens == SumW(wt, s.chunk) && Suffix(s.chunk, words)
  {
    if words != [] {
      var w := words[|words| - 1];
      FoldChunk(wt, words[..|words| - 1], maxTokens, overlapTokens);
      FoldStep(wt, words, maxTokens, overlapTokens);
      var s0 := Fold(wt, words[..|words| - 1], maxTokens, overlapTokens);
      var c := s0.chunk + [w];
      SnocSuffix(words, s0.chunk);
      SumWSnoc(wt, s0.chunk, w);
      if Fills(wt, s0, w, maxTokens) {
        OverlapSuffix(wt, c, overlapTokens);
        SuffixTrans(Overlap(wt, c, overlapTokens), c, words);
      }
    }
  }

  /** Every chunk emitted inside the loop had accumulated at least `maxTokens`. */
  lemma {:induction false} FoldFull<T>(wt: T -> nat, words: seq<T>, maxTokens: int, overlapTokens: int)
    ensures var s := Fold(wt, words, maxTokens, overlapTokens);
            forall k :: 0 <= k < |s.out| ==> SumW(wt, s.out[k]) >= maxTokens
  {
    if words != [] {
      var w := words[|words| - 1];
      FoldFull(wt, words[..|words| - 1], maxTokens, overlapTokens);
      FoldChunk(wt, words[..|words| - 1], maxTokens, overlapTokens);
      FoldStep(wt, words, maxTokens, overlapTokens);
      var s0 := Fold(wt, words[..|words| - 1], maxTokens, overlapTokens);
      SumWSnoc(wt, s0.chunk, w);
    }
  }

  /** `out[k]` is the slice of `words` that range `sp[k]` names, for every `k`. */
  ghost predicate Slices<T>(out: seq<seq<T>>, sp: seq<(int, int)>, words: seq<T>) {
    |out| == |sp| &&
    forall k :: 0 <= k < |sp| ==> 0 <= sp[k].0 <= sp[k].1 <= |words| && out[k] == words[sp[k].0..sp[k].1]
  }

  /** A suffix slice joins the slices. */
  lemma SlicesAdd<T>(out: seq<seq<T>>, sp: seq<(int, int)>, words: seq<T>, c: seq<T>)
    requires Slices(out, sp, words) && Suffix(c, words)
    ensures Slices(out + [c], sp + [(|words| - |c|, |words|)], words)
  {
  }

  /** Slices of a prefix stay slices when a word is read. */
  lemma SlicesSnoc<T>(out: seq<seq<T>>, sp: seq<(int, int)>, words: seq<T>)
    requires words != [] && Slices(out, sp, words[..|words| - 1])
    ensures Slices(out, sp, words)
  {
    var init := words[..|words| - 1];
    forall k | 0 <= k < |sp|
      ensures out[k] == words[sp[k].0..sp[k].1]
    {
      assert words[sp[k].0..sp[k].1] == init[sp[k].0..sp[k].1];
    }
  }

  /** Every chunk emitted inside the loop is the slice of `words` its range names. */
  lemma {:induction false} FoldSlices<T>(wt: T -> nat, words: seq<T>, maxTokens: int, overlapTokens: int)
    ensures Slices(Fold(wt, words, maxTokens, overlapTokens).out, EmitSpans(wt, words, maxTokens, overlapTokens), words)
  {
    if words != [] {
      var init := words[..|words| - 1];
      var w := words[|words| - 1];
      FoldSlices(wt, init, maxTokens, overlapTokens);
      FoldChunk(wt, init, maxTokens, overlapTokens);
      var s0 := Fold(wt, init, maxTokens, overlapTokens);
      FoldStep(wt, words, maxTokens, overlapTokens);
      SnocSuffix(words, s0.chunk);
      SlicesSnoc(s0.out, EmitSpans(wt, init, maxTokens, overlapTokens), words);
      if Fills(wt, s0, w, maxTokens) {
        SlicesAdd(s0.out, EmitSpans(wt, init, maxTokens, overlapTokens), words, s0.chunk + [w]);
      }
    }
  }

  /** Chained ranges: each is non-empty and starts no later than the previous one ends. */
  ghost predicate Chained(sp: seq<(int, int)>) {
    && (forall k :: 0 <= k < |sp| ==> sp[k].0 < sp[k].1)
    && (forall k :: 0 <= k < |sp| - 1 ==> sp[k + 1].0 <= sp[k].1 <= sp[k + 1].1)
  }

  lemma ChainedSnoc(sp: seq<(int, int)>, x: (int, int))
    requires Chained(sp) && x.0 < x.1 && (sp != [] ==> x.0 <= sp[|sp| - 1].1 <= x.1)
    ensures Chained(sp + [x])
  {
  }

  /**
   * The emitted ranges are chained from word 0, and the current chunk starts
   * no later than the last of them ends.
   */
  lemma {:induction false} FoldChained<T>(wt: T -> nat, words: seq<T>, maxTokens: int, overlapTokens: int)
    ensures var s := Fold(wt, words, maxTokens, overlapTokens);
            var sp := EmitSpans(wt, words, maxTokens, overlapTokens);
            && Chained(sp)
            && (sp != [] ==> sp[0].0 == 0 && |words| - |s.chunk| <= sp[|sp| - 1].1 <= |words|)
            && (sp == [] ==> |s.chunk| == |words|)
  {
    if words != [] {
      var init := words[..|words| - 1];
      var w := words[|words| - 1];
      FoldChained(wt, init, maxTokens, overlapTokens);
      FoldChunk(wt, init, maxTokens, overlapTokens);
      FoldStep(wt, words, maxTokens, overlapTokens);
      var s0 := Fold(wt, init, maxTokens, overlapTokens);
      var sp0 := EmitSpans(wt, init, maxTokens, overlapTokens);
      if Fills(wt, s0, w, maxTokens) {
        OverlapSuffix(wt, s0.chunk + [w], overlapTokens);
        ChainedSnoc(sp0, (|init| - |s0.chunk|, |words|));
      }
    }
  }

  /** Word `i` lies in one of the ranges `sp`. */
  ghost predicate Covered(sp: seq<(int, int)>, i: int) {
    exists k :: 0 <= k < |sp| && sp[k].0 <= i < sp[k].1
  }

  /** Chained ranges cover every index from the first start to the last end. */
  lemma {:induction false} ChainCovers(sp: seq<(int, int)>, i: int)
    requires sp != [] && Chained(sp) && sp[0].0 <= i < sp[|sp| - 1].1
    ensures Covered(sp, i)
  {
    if i >= sp[0].1 {
      ChainCovers(sp[1..], i);
      var k :| 0 <= k < |sp[1..]| && sp[1..][k].0 <= i < sp[1..][k].1;
      assert sp[k + 1].0 <= i < sp[k + 1].1;
    }
  }

  /** Chained ranges from 0 to `n` cover every index below `n`. */
  lemma ChainCoversAll(sp: seq<(int, int)>, n: int)
    requires sp != [] && Chained(sp) && sp[0].0 == 0 && sp[|sp| - 1].1 == n
    ensures forall i :: 0 <= i < n ==> Covered(sp, i)
  {
    forall i | 0 <= i < n
      ensures Covered(sp, i)
    {
      ChainCovers(sp, i);
    }
  }

  /** Adding the range of the last, unfinished chunk when it is non-empty. */
  lemma FinalSpan<T>(out: seq<seq<T>>, sp: seq<(int, int)>, c: seq<T>, words: seq<T>)
    requires Slices(out, sp, words) && Chained(sp) && Suffix(c, words)
    requires sp != [] ==> sp[0].0 == 0 && |words| - |c| <= sp[|sp| - 1].1 <= |words|
    requires sp == [] ==> |c| == |words|
    ensures var cs := out + (if c != [] then [c] else []);
            var all := sp + (if c != [] then [(|words| - |c|, |words|)] else []);
            && Slices(cs, all, words) && Chained(all)
            && (words != [] ==> all != [] && all[0].0 == 0 && all[|all| - 1].1 == |words|)
  {
    if c != [] {
      SlicesAdd(out, sp, words, c);
      ChainedSnoc(sp, (|words| - |c|, |words|));
    } else {
      assert out + [] == out && sp + [] == sp;
    }
  }

  /**
   * Each chunk is a contiguous run of `words`, and the runs are non-empty,
   * chained, and reach from the first word to the last.
   */
  lemma ChunksChained<T>(wt: T -> nat, words: seq<T>, maxTokens: int, overlapTokens: int)
    ensures Slices(Chunks(wt, words, maxTokens, overlapTokens), Spans(wt, words, maxTokens, overlapTokens), words)
    ensures var sp := Spans(wt, words, maxTokens, overlapTokens);
            && Chained(sp)
            && (words != [] ==> sp != [] && sp[0].0 == 0 && sp[|sp| - 1].1 == |words|)
  {
    FoldSlices(wt, words, maxTokens, overlapTokens);
    FoldChained(wt, words, maxTokens, overlapTokens);
    FoldChunk(wt, words, maxTokens, overlapTokens);
    var s := Fold(wt, words, maxTokens, overlapTokens);
    FinalSpan(s.out, EmitSpans(wt, words, maxTokens, overlapTokens), s.chunk, words);
  }

  /** Together the chunks cover every word: no word of a long section is lost. */
  lemma ChunksCover<T>(wt: T -> nat, words: seq<T>, maxTokens: int, overlapTokens: int)
    ensures forall i :: 0 <= i < |words| ==> Covered(Spans(wt, words, maxTokens, overlapTokens), i)
  {
    ChunksChained(wt, words, maxTokens, overlapTokens);
    if words != [] {
      ChainCoversAll(Spans(wt, words, maxTokens, overlapTokens), |words|);
    }
  }

  /**
   * When the last word completes a chunk, a final chunk follows exactly when
   * the carried-over overlap is non-empty, and it is that overlap.
   */
  lemma FinalOverlapChunk<T>(wt: T -> nat, words: seq<T>, maxTokens: int, overlapTokens: int)
    requires words != []
    requires var s0 := Fold(wt, words[..|words| - 1], maxTokens, overlapTokens);
             Fills(wt, s0, words[|words| - 1], maxTokens)
    ensures var s0 := Fold(wt, words[..|words| - 1], maxTokens, overlapTokens);
            var o := Overlap(wt, s0.chunk + [words[|words| - 1]], overlapTokens);
            var cs := Chunks(wt, words, maxTokens, overlapTokens);
            && cs[|s0.out|] == s0.chunk + [words[|words| - 1]]
            && (o != [] <==> |cs| == |s0.out| + 2)
            && (o != [] ==> cs[|cs| - 1] == o)
  {
  }

  // ----- chunk_content_sections ------------------------------------------------------

  /** The defaults of `chunk_content_sections`. */
  const MaxTokens := 1000
  const OverlapTokens := 200

  /** `f"#{k:02d}_{content_id}"` */
  function ChunkId(k: nat, id: string): string {
    "#" + ZeroPad(k, 2) + "_" + id
  }

  lemma CancelSuffix<T>(a: seq<T>, b: seq<T>, c: seq<T>)
    requires a + c == b + c
    ensures a == b
  {
    assert a == (a + c)[..|a|];
    assert b == (b + c)[..|b|];
  }

  lemma CancelPrefix<T>(c: seq<T>, a: seq<T>, b: seq<T>)
    requires c + a == c + b
    ensures a == b
  {
    assert a == (c + a)[|c|..];
    assert b == (c + b)[|c|..];
  }

  /** Different chunks of one section get different ids. */
  lemma ChunkIdsDistinct(j: nat, k: nat, id: string)
    requires j != k
    ensures ChunkId(j, id) != ChunkId(k, id)
  {
    var a, b := ZeroPad(j, 2), ZeroPad(k, 2);
    if ChunkId(j, id) == ChunkId(k, id) {
      CancelSuffix("#" + a + "_", "#" + b + "_", id);
      CancelSuffix("#" + a, "#" + b, "_");
      CancelPrefix("#", a, b);
      ZeroPadValue(j, 2);
      ZeroPadValue(k, 2);
    }
  }

  /** The record of chunk `k` of `sec`: its politician, id `#kk_<id>`, and its words joined by spaces. */
  function ChunkRecord(sec: Section, k: nat, c: seq<string>): Section {
    Section(sec.politicianName, ChunkId(k, sec.contentId), Join(c, " "))
  }

  /** The section records of the chunks `cs` of `sec`, numbered from 0. */
  function Label(sec: Section, cs: seq<seq<string>>): seq<Section> {
    if cs == [] then []
    else Label(sec, cs[..|cs| - 1]) + [ChunkRecord(sec, |cs| - 1, cs[|cs| - 1])]
  }

  lemma LabelSnoc(sec: Section, cs: seq<seq<string>>, c: seq<string>)
    ensures Label(sec, cs + [c]) == Label(sec, cs) + [ChunkRecord(sec, |cs|, c)]
  {
    assert (cs + [c])[..|cs|] == cs;
  }

  /** `r[k]` is the record of chunk `k`, for every chunk. */
  ghost predicate Labels(sec: Section, cs: seq<seq<string>>, r: seq<Section>) {
    |r| == |cs| && forall k :: 0 <= k < |cs| ==> r[k] == ChunkRecord(sec, k, cs[k])
  }

  lemma LabelsSnoc(sec: Section, cs: seq<seq<string>>, r: seq<Section>, c: seq<string>)
    requires Labels(sec, cs, r)
    ensures Labels(sec, cs + [c], r + [ChunkRecord(sec, |cs|, c)])
  {
  }

  /** Chunk `k` of `sec` becomes record `k`, numbered `#kk_<id>`. */
  lemma {:induction false} LabelAt(sec: Section, cs: seq<seq<string>>)
    ensures Labels(sec, cs, Label(sec, cs))
  {
    if cs != [] {
      var init, c := cs[..|cs| - 1], cs[|cs| - 1];
      assert cs == init + [c];
      LabelAt(sec, init);
      LabelsSnoc(sec, init, Label(sec, init), c);
      assert Label(sec, cs) == Label(sec, init) + [ChunkRecord(sec, |init|, c)];
    }
  }

  /** The chunks of a long section: its words, `content.split()`, cut up by the word loop. */
  function SectionChunks(count: string -> nat, sec: Section, maxTokens: int, overlapTokens: int): seq<seq<string>> {
    Chunks(Weight(count), SplitWs(sec.sectionContent), maxTokens, overlapTokens)
  }

  /** What one section contributes to `chunked_sections`. */
  function ChunkSection(count: string -> nat, sec: Section, maxTokens: int, overlapTokens: int): seq<Section> {
    if count(sec.sectionContent) <= maxTokens then [sec]
    else Label(sec, SectionChunks(count, sec, maxTokens, overlapTokens))
  }

  /**
   * A short section passes through unchanged; a long one becomes one record per
   * chunk, each with the section's politician, id `#kk_<id>` and the chunk's
   * words joined by single spaces.
   */
  lemma ChunkSectionShape(count: string -> nat, sec: Section, maxTokens: int, overlapTokens: int)
    ensures count(sec.sectionContent) <= maxTokens ==> ChunkSection(count, sec, maxTokens, overlapTokens) == [sec]
    ensures count(sec.sectionContent) > maxTokens ==>
              Labels(sec, SectionChunks(count, sec, maxTokens, overlapTokens), ChunkSection(count, sec, maxTokens, overlapTokens))
  {
    LabelAt(sec, SectionChunks(count, sec, maxTokens, overlapTokens));
  }

  /**
   * A long section whose text is only whitespace has no words, so it
   * contributes nothing at all.
   */
  lemma BlankLongSectionVanishes(count: string -> nat, sec: Section, maxTokens: int, overlapTokens: int)
    requires count(sec.sectionContent) > maxTokens && AllSpace(sec.sectionContent)
    ensures ChunkSection(count, sec, maxTokens, overlapTokens) == []
  {
    assert Lstrip(sec.sectionContent) == [] by {
      LstripSuffix(sec.sectionContent);
      LstripRemovesSpace(sec.sectionContent);
    }
  }

  /** `f` applied to each of `xs`, the results concatenated in order. */
  function FlatMap<A, B>(f: A -> seq<B>, xs: seq<A>): seq<B> {
    if xs == [] then [] else FlatMap(f, xs[..|xs| - 1]) + f(xs[|xs| - 1])
  }

  lemma {:induction false} FlatMapConcat<A, B>(f: A -> seq<B>, a: seq<A>, b: seq<A>)
    ensures FlatMap(f, a + b) == FlatMap(f, a) + FlatMap(f, b)
    decreases |b|
  {
    if b == [] {
      assert a + b == a;
    } else {
      assert (a + b)[..|a + b| - 1] == a + b[..|b| - 1];
      FlatMapConcat(f, a, b[..|b| - 1]);
    }
  }

  /** `chunked_sections` for `sections`: each section's contribution, in input order. */
  function ChunkAll(count: string -> nat, sections: seq<Section>, maxTokens: int, overlapTokens: int): seq<Section> {
    FlatMap(sec => ChunkSection(count, sec, maxTokens, overlapTokens), sections)
  }

  /** The output follows input order: chunking distributes over concatenation. */
  lemma ChunkAllConcat(count: string -> nat, a: seq<Section>, b: seq<Section>, maxTokens: int, overlapTokens: int)
    ensures ChunkAll(count, a + b, maxTokens, overlapTokens) ==
            ChunkAll(count, a, maxTokens, overlapTokens) + ChunkAll(count, b, maxTokens, overlapTokens)
  {
    FlatMapConcat(sec => ChunkSection(count, sec, maxTokens, overlapTokens), a, b);
  }

  /**
   * One pass of the word loop: append the word, and when the chunk is full emit
   * its record and keep only the overlap.
   */
  method WordPass(count: string -> nat, sec: Section, w: string, maxTokens: int, overlapTokens: int,
                  chunk: seq<string>, tokens: int, counter: nat, out: seq<Section>, ghost emitted: seq<seq<string>>)
    returns (chunk': seq<string>, tokens': int, counter': nat, out': seq<Section>, ghost emitted': seq<seq<string>>)
    requires counter == |emitted| && out == Label(sec, emitted)
    ensures WState(chunk', tokens', emitted') ==
            WordStep(Weight(count), WState(chunk, tokens, emitted), w, maxTokens, overlapTokens)
    ensures counter' == |emitted'| && out' == Label(sec, emitted')
  {
    var wt := Weight(count)(w);
    chunk' := chunk + [w];
    tokens' := tokens + wt;
    counter', out', emitted' := counter, out, emitted;
    if tokens' >= maxTokens {
      LabelSnoc(sec, emitted, chunk');
      out' := out + [ChunkRecord(sec, counter, chunk')];
      emitted' := emitted + [chunk'];
      chunk', tokens' := TakeOverlap(Weight(count), chunk', overlapTokens);
      counter' := counter + 1;
    }
  }

  /** The word loop for one long section, then its last chunk if anything is left. */
  method ChunkLong(count: string -> nat, sec: Section, maxTokens: int, overlapTokens: int)
    returns (out: seq<Section>)
    ensures out == Label(sec, SectionChunks(count, sec, maxTokens, overlapTokens))
  {
    var words := SplitWs(sec.sectionContent);

    var chunk: seq<string> := [];
    var tokens := 0;
    var counter := 0;
    ghost var emitted: seq<seq<string>> := [];
    out := [];
    var i := 0;
    while i < |words|
      invariant 0 <= i <= |words|
      invariant WState(chunk, tokens, emitted) == Fold(Weight(count), words[..i], maxTokens, overlapTokens)
      invariant counter == |emitted| && out == Label(sec, emitted)
    {
      FoldSnoc(Weight(count), words, i, maxTokens, overlapTokens);
      chunk, tokens, counter, out, emitted :=
        WordPass(count, sec, words[i], maxTokens, overlapTokens, chunk, tokens, counter, out, emitted);
      i := i + 1;
    }
    assert words[..i] == words;
    if chunk != [] {
      LabelSnoc(sec, emitted, chunk);
      out := out + [ChunkRecord(sec, counter, chunk)];
    } else {
      assert emitted + [] == emitted;
    }
  }

  /** `chunk_content_sections(sections, max_tokens, overlap_tokens)` */
  method ChunkContentSections(count: string -> nat, sections: seq<Section>, maxTokens: int, overlapTokens: int)
    returns (chunked: seq<Section>)
    ensures chunked == ChunkAll(count, sections, maxTokens, overlapTokens)
  {
    chunked := [];
    var i := 0;
    while i < |sections|
      invariant 0 <= i <= |sections|
      invariant chunked == ChunkAll(count, sections[..i], maxTokens, overlapTokens)
    {
      var sec := sections[i];
      assert sections[..i + 1][..i] == sections[..i];
      if count(sec.sectionContent) <= maxTokens {
        chunked := chunked + [sec];
      } else {
        var pieces := ChunkLong(count, sec, maxTokens, overlapTokens);
        chunked := chunked + pieces;
      }
      i := i + 1;
    }
    assert sections[..i] == sections;
  }
}
