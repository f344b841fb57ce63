/**
 * `extract_bio_sections` (llm_enrichment/pythonProject1/archive/scraping.py): a
 * four-state automaton over the scraped top-level elements of an article that
 * picks out the biography, the pattern p, div, p ... up to the next div.
 *
 * The input is the minister's `wiki_content` list; each element carries its
 * `type` and `text` keys, None when the key is absent.
 */
module BioSections {
  import opened Wrappers
  import opened PyStr

  datatype Elem = Elem(tag: Option<string>, text: Option<string>)

  const Sep := "\n\n"

  /** The element types the automaton tells apart: `typ == "p"`, `typ == "div"`, anything else. */
  datatype Kind = P | Div | Other

  function KindOf(e: Elem): Kind {
    if e.tag == Some("p") then P else if e.tag == Some("div") then Div else Other
  }

  predicate IsTag(e: Elem, kind: Kind) {
    KindOf(e) == kind
  }

  /** `item.get("text", "").strip()` */
  function Text(e: Elem): string {
    Strip(e.text.GetOr(""))
  }

  /** The index of the first element from `from` on with tag `tag`, or `|s|` when there is none. */
  function FirstFrom(s: seq<Elem>, from: nat, tag: Kind): (k: nat)
    requires from <= |s|
    ensures from <= k <= |s|
    decreases |s| - from
  {
    if from == |s| then |s| else if IsTag(s[from], tag) then from else FirstFrom(s, from + 1, tag)
  }

  /** No element in `s[lo..hi]` has tag `tag`. */
  ghost predicate NoneIn(s: seq<Elem>, lo: nat, hi: nat, tag: Kind)
    requires hi <= |s|
  {
    forall k :: lo <= k < hi ==> !IsTag(s[k], tag)
  }

  /** The texts of the 'p' elements of `s`, in order. */
  function PTexts(s: seq<Elem>): seq<string> {
    if s == [] then [] else PTexts(s[..|s| - 1]) + (if IsTag(s[|s| - 1], P) then [Text(s[|s| - 1])] else [])
  }

  /**
   * The biography, defined by positions: the first 'div' after the first 'p'
   * opens it, and the 'p' texts from the first 'p' after that div up to the next
   * div follow. Nothing is returned unless such a div exists.
   */
  function Bio(s: seq<Elem>): seq<string> {
    AfterP(s, FirstFrom(s, 0, P))
  }

  /** The biography when the first 'p' is at `p` (none when `p` is `|s|`). */
  function AfterP(s: seq<Elem>, p: nat): seq<string>
    requires p <= |s|
  {
    if p == |s| then [] else AfterDiv(s, FirstFrom(s, p + 1, Div))
  }

  /** The biography when it is opened by the div at `d` (none when `d` is `|s|`). */
  function AfterDiv(s: seq<Elem>, d: nat): seq<string>
    requires d <= |s|
  {
    if d == |s| then [] else FromP(s, d, FirstFrom(s, d + 1, P))
  }

  /** The biography opened by the div at `d` whose 'p' texts start at `q` (none when `q` is `|s|`). */
  function FromP(s: seq<Elem>, d: nat, q: nat): seq<string>
    requires d < q <= |s|
  {
    if q == |s| then [Join([Text(s[d])], Sep)] else [Join(Collected(s, d, q), Sep)]
  }

  /** The pieces of the biography opened by the div at `d`: its text, then the 'p' texts from `q` up to the next div. */
  function Collected(s: seq<Elem>, d: nat, q: nat): seq<string>
    requires d < q < |s|
  {
    [Text(s[d])] + PTexts(s[q..FirstFrom(s, q + 1, Div)])
  }

  /** At most one section is returned. */
  lemma BioAtMostOne(s: seq<Elem>)
    ensures |Bio(s)| <= 1
  {
  }

  /** `FirstFrom` is the index `k` when `k` has the tag (or is the end) and nothing before it from `from` on has. */
  lemma {:induction false} FirstFromIs(s: seq<Elem>, from: nat, tag: Kind, k: nat)
    requires from <= k <= |s| && NoneIn(s, from, k, tag)
    requires k < |s| ==> IsTag(s[k], tag)
    ensures FirstFrom(s, from, tag) == k
    decreases k - from
  {
    if from < k {
      FirstFromIs(s, from + 1, tag, k);
    }
  }

  lemma PTextsSnoc(s: seq<Elem>, lo: nat, i: nat)
    requires lo <= i < |s|
    ensures PTexts(s[lo..i + 1]) == PTexts(s[lo..i]) + (if IsTag(s[i], P) then [Text(s[i])] else [])
  {
    assert s[lo..i + 1][..i - lo] == s[lo..i];
  }

  /** State 0 after `s[..i]`: no 'p' yet. */
  ghost predicate In0(s: seq<Elem>, i: nat)
    requires i <= |s|
  {
    NoneIn(s, 0, i, P)
  }

  /** State 1: the first 'p' is at `p`, no div after it yet. */
  ghost predicate In1(s: seq<Elem>, i: nat, p: nat)
    requires i <= |s|
  {
    p < i && p == FirstFrom(s, 0, P) && NoneIn(s, p + 1, i, Div)
  }

  /** State 2: the opening div is at `d`, no 'p' after it yet. */
  ghost predicate In2(s: seq<Elem>, i: nat, p: nat, d: nat)
    requires i <= |s|
  {
    p < d < i && p == FirstFrom(s, 0, P) && d == FirstFrom(s, p + 1, Div) && NoneIn(s, d + 1, i, P)
  }

  /** State 3: collecting from the 'p' at `q`, no div after it yet. */
  ghost predicate In3(s: seq<Elem>, i: nat, p: nat, d: nat, q: nat)
    requires i <= |s|
  {
    && p < d < q < i && p == FirstFrom(s, 0, P) && d == FirstFrom(s, p + 1, Div)
    && q == FirstFrom(s, d + 1, P) && NoneIn(s, q + 1, i, Div)
  }

  /**
   * The loop invariant of `extract_bio_sections`: what the automaton knows after
   * reading `s[..i]` in state `state` with `buffer`.
   */
  ghost predicate Inv(s: seq<Elem>, i: nat, state: int, buffer: seq<string>, p: nat, d: nat, q: nat) {
    && i <= |s|
    && match state
       case 0 => In0(s, i) && buffer == []
       case 1 => In1(s, i, p) && buffer == []
       case 2 => In2(s, i, p, d) && buffer == [Text(s[d])]
       case 3 => In3(s, i, p, d, q) && buffer == [Text(s[d])] + PTexts(s[q..i])
       case _ => false
  }

  lemma Stay0(s: seq<Elem>, i: nat)
    requires i < |s| && In0(s, i) && !IsTag(s[i], P)
    ensures In0(s, i + 1)
  {
  }

  lemma Go0(s: seq<Elem>, i: nat)
    requires i < |s| && In0(s, i) && IsTag(s[i], P)
    ensures In1(s, i + 1, i)
  {
    FirstFromIs(s, 0, P, i);
  }

  lemma Stay1(s: seq<Elem>, i: nat, p: nat)
    requires i < |s| && In1(s, i, p) && !IsTag(s[i], Div)
    ensures In1(s, i + 1, p)
  {
  }

  lemma Go1(s: seq<Elem>, i: nat, p: nat)
    requires i < |s| && In1(s, i, p) && IsTag(s[i], Div)
    ensures In2(s, i + 1, p, i)
  {
    FirstFromIs(s, p + 1, Div, i);
  }

  lemma Stay2(s: seq<Elem>, i: nat, p: nat, d: nat)
    requires i < |s| && In2(s, i, p, d) && !IsTag(s[i], P)
    ensures In2(s, i + 1, p, d)
  {
  }

  lemma Go2(s: seq<Elem>, i: nat, p: nat, d: nat)
    requires i < |s| && In2(s, i, p, d) && IsTag(s[i], P)
    ensures In3(s, i + 1, p, d, i)
  {
    FirstFromIs(s, d + 1, P, i);
  }

  lemma Stay3(s: seq<Elem>, i: nat, p: nat, d: nat, q: nat)
    requires i < |s| && In3(s, i, p, d, q) && !IsTag(s[i], Div)
    ensures In3(s, i + 1, p, d, q)
  {
  }

  lemma Open3(s: seq<Elem>, i: nat, p: nat, d: nat, q: nat)
    requires d < i < |s| && Inv(s, i, 2, [Text(s[d])], p, d, q) && IsTag(s[i], P)
    ensures Inv(s, i + 1, 3, [Text(s[d])] + [Text(s[i])], p, d, i)
  {
    Go2(s, i, p, d);
    assert s[i..i + 1] == [s[i]];
    assert [s[i]][..0] == [];
  }

  lemma Collect3(s: seq<Elem>, i: nat, buffer: seq<string>, p: nat, d: nat, q: nat)
    requires i < |s| && Inv(s, i, 3, buffer, p, d, q) && !IsTag(s[i], Div)
    ensures Inv(s, i + 1, 3, buffer + (if IsTag(s[i], P) then [Text(s[i])] else []), p, d, q)
  {
    Stay3(s, i, p, d, q);
    PTextsSnoc(s, q, i);
  }

  lemma End0(s: seq<Elem>)
    requires In0(s, |s|)
    ensures Bio(s) == []
  {
    FirstFromIs(s, 0, P, |s|);
  }

  lemma End1(s: seq<Elem>, p: nat)
    requires In1(s, |s|, p)
    ensures Bio(s) == []
  {
    FirstFromIs(s, p + 1, Div, |s|);
  }

  lemma End2(s: seq<Elem>, p: nat, d: nat)
    requires In2(s, |s|, p, d)
    ensures Bio(s) == [Join([Text(s[d])], Sep)]
  {
    FirstFromIs(s, d + 1, P, |s|);
  }

  /** The collection runs to the div at `e`, or to the end when `e` is `|s|`. */
  lemma End3(s: seq<Elem>, e: nat, p: nat, d: nat, q: nat)
    requires e <= |s| && In3(s, e, p, d, q) && (e < |s| ==> IsTag(s[e], Div))
    ensures Bio(s) == [Join([Text(s[d])] + PTexts(s[q..e]), Sep)]
  {
    FirstFromIs(s, q + 1, Div, e);
    BioCollected(s, p, d, q);
  }

  lemma BioCollected(s: seq<Elem>, p: nat, d: nat, q: nat)
    requires p < d < q < |s|
    requires p == FirstFrom(s, 0, P) && d == FirstFrom(s, p + 1, Div) && q == FirstFrom(s, d + 1, P)
    ensures Bio(s) == [Join(Collected(s, d, q), Sep)]
  {
    assert Bio(s) == AfterP(s, p) == AfterDiv(s, d) == FromP(s, d, q);
  }

  /** Once every element is read, a non-empty buffer is the biography and an empty one means there is none. */
  lemma Finish(s: seq<Elem>, i: nat, state: int, buffer: seq<string>, p: nat, d: nat, q: nat)
    requires i == |s| && Inv(s, i, state, buffer, p, d, q)
    ensures (if buffer != [] then [Join(buffer, Sep)] else []) == Bio(s)
  {
    if state == 0 {
      End0(s);
    } else if state == 1 {
      End1(s, p);
    } else if state == 2 {
      End2(s, p, d);
    } else {
      End3(s, |s|, p, d, q);
    }
  }

  /** The div that ends the collection: the buffer is the biography. */
  lemma Closed(s: seq<Elem>, i: nat, buffer: seq<string>, p: nat, d: nat, q: nat)
    requires i < |s| && IsTag(s[i], Div) && Inv(s, i, 3, buffer, p, d, q)
    ensures [Join(buffer, Sep)] == Bio(s)
  {
    End3(s, i, p, d, q);
  }

  /** One iteration of the loop of `extract_bio_sections`; `closed` is the `break`. */
  method Step(s: seq<Elem>, i: nat, state: int, buffer: seq<string>, ghost p: nat, ghost d: nat, ghost q: nat)
    returns (state': int, buffer': seq<string>, closed: bool, ghost p': nat, ghost d': nat, ghost q': nat)
    requires i < |s| && Inv(s, i, state, buffer, p, d, q)
    ensures closed ==> [Join(buffer', Sep)] == Bio(s)
    ensures !closed ==> Inv(s, i + 1, state', buffer', p', d', q')
  {
    var item := s[i];
    var text := Text(item);
    state', buffer', closed, p', d', q' := state, buffer, false, p, d, q;
    if state == 0 {
      if KindOf(item) == P {
        Go0(s, i);
        p' := i;
        state' := 1;
      } else {
        Stay0(s, i);
      }
    } else if state == 1 {
      if KindOf(item) == Div {
        Go1(s, i, p);
        d' := i;
        state' := 2;
        buffer' := buffer + [text];
      } else {
        Stay1(s, i, p);
      }
    } else if state == 2 {
      if KindOf(item) == P {
        Open3(s, i, p, d, q);
        q' := i;
        buffer' := buffer + [text];
        state' := 3;
      } else {
        Stay2(s, i, p, d);
      }
    } else {
      if KindOf(item) == Div {
        Closed(s, i, buffer, p, d, q);
        closed := true;
      } else {
        Collect3(s, i, buffer, p, d, q);
        if KindOf(item) == P {
          buffer' := buffer + [text];
        }
      }
    }
  }

  /** `extract_bio_sections(minister)` on `minister["wiki_content"]`. */
  method ExtractBioSections(content: seq<Elem>) returns (sections: seq<string>)
    ensures sections == Bio(content)
  {
    sections := [];
    var buffer: seq<string> := [];
    var state := 0;
    ghost var p, d, q := 0, 0, 0;
    var i := 0;
    while i < |content|
      invariant Inv(content, i, state, buffer, p, d, q) && sections == []
    {
      var closed;
      state, buffer, closed, p, d, q := Step(content, i, state, buffer, p, d, q);
      if closed {
        sections := sections + [Join(buffer, Sep)];
        buffer := [];
        break;
      }
      i := i + 1;
    }
    if i == |content| {
      Finish(content, i, state, buffer, p, d, q);
    }
    if buffer != [] {
      sections := sections + [Join(buffer, Sep)];
    }
  }
}
