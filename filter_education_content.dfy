/**
 * `filter_education_content` (llm_enrichment/pythonProject1/filter_education_content.py):
 * drops from every person's `neo4j_content` the sections whose header carries no
 * education information, counts the sections before and after, and tallies the
 * headers that remain.
 *
 * The JSON file read and the JSON file written are the input and output
 * sequences; the statistics are returned instead of printed. The reduction
 * percentage divides by the number of sections before filtering: with none, the
 * script raises ZeroDivisionError after writing the output file and before the
 * header tally, which the result `remaining` records. A person whose
 * `neo4j_content` is JSON null makes `len` raise TypeError before anything is
 * written.
 */
module FilterEducationContent {
  import opened Wrappers
  import Counts

  /** `fields_to_filter` */
  const FieldsToFilter: set<string> :=
    {"#", "Weblinks", "Einzelnachweise", "Literatur", "Abgeordneter", "Abgeordnete", "Siehe auch"}

  /** The `section_header` key of a section: absent, present as JSON null, or a string. */
  datatype Header = NoHeader | NullHeader | Named(name: string)

  /** One entry of `neo4j_content`: its `section_header` and its other keys. */
  datatype Section = Section(header: Header, fields: map<string, string>)

  /** The `neo4j_content` key of a person: absent, present as JSON null, or a list of sections. */
  datatype Content = NoContent | NullContent | Listed(sections: seq<Section>)

  /** A person record: its `neo4j_content` and its other keys. */
  datatype Person = Person(fields: map<string, string>, content: Content)

  /** `content.get('section_header') not in fields_to_filter`: a section with no header or a null one is kept. */
  predicate Kept(c: Section) {
    !c.header.Named? || c.header.name !in FieldsToFilter
  }

  /** `filtered_content` for `cs` */
  function FilterSections(cs: seq<Section>): seq<Section> {
    if cs == [] then []
    else FilterSections(cs[..|cs| - 1]) + (if Kept(cs[|cs| - 1]) then [cs[|cs| - 1]] else [])
  }

  /** `person_copy` after filtering: only `neo4j_content` is replaced, and only when it is a list. */
  function FilterPerson(p: Person): Person {
    if p.content.Listed? then p.(content := Listed(FilterSections(p.content.sections))) else p
  }

  /** `filtered_data` */
  function Filtered(data: seq<Person>): seq<Person> {
    if data == [] then [] else Filtered(data[..|data| - 1]) + [FilterPerson(data[|data| - 1])]
  }

  /** The number of sections of a person, 0 without a list in `neo4j_content`. */
  function Size(p: Person): nat {
    if p.content.Listed? then |p.content.sections| else 0
  }

  /** The number of sections over all persons: `total_sections_before` on the input. */
  function SectionCount(data: seq<Person>): nat {
    if data == [] then 0 else SectionCount(data[..|data| - 1]) + Size(data[|data| - 1])
  }

  /**
   * `content.get('section_header', '')`: '' for an absent key, None for a null
   * header, which the tally keeps apart from ''.
   */
  function HeaderKey(c: Section): (r: Option<string>)
    ensures r.None? <==> c.header == NullHeader
    ensures r == Some("") <==> c.header == NoHeader || c.header == Named("")
    ensures r.Some? && r.value != "" ==> c.header == Named(r.value)
  {
    match c.header
    case NoHeader => Some("")
    case NullHeader => None
    case Named(h) => Some(h)
  }

  /** The tally key of each section of `cs` */
  function Headers(cs: seq<Section>): (r: seq<Option<string>>)
    ensures |r| == |cs|
  {
    seq(|cs|, k requires 0 <= k < |cs| => HeaderKey(cs[k]))
  }

  /** The keys `remaining_headers` is incremented with, in order. */
  function RemainingHeaders(data: seq<Person>): seq<Option<string>> {
    if data == [] then []
    else
      var p := data[|data| - 1];
      RemainingHeaders(data[..|data| - 1]) + (if p.content.Listed? then Headers(p.content.sections) else [])
  }

  // ----- The sections of one person -------------------------------------------------

  /** Kept sections are exactly those whose header is not filtered, and no more of them than before. */
  lemma {:induction false} FilterSectionsMembers(cs: seq<Section>)
    ensures |FilterSections(cs)| <= |cs|
    ensures forall c :: c in FilterSections(cs) <==> c in cs && Kept(c)
  {
    if cs != [] {
      var init := cs[..|cs| - 1];
      FilterSectionsMembers(init);
      assert cs == init + [cs[|cs| - 1]];
    }
  }

  /** Filtering keeps order: it distributes over concatenation. */
  lemma {:induction false} FilterSectionsConcat(a: seq<Section>, b: seq<Section>)
    ensures FilterSections(a + b) == FilterSections(a) + FilterSections(b)
    decreases |b|
  {
    if b == [] {
      assert a + b == a;
    } else {
      assert (a + b)[..|a + b| - 1] == a + b[..|b| - 1];
      FilterSectionsConcat(a, b[..|b| - 1]);
    }
  }

  /** Sections that are all kept are returned as they are. */
  lemma {:induction false} FilterSectionsKept(cs: seq<Section>)
    requires forall k :: 0 <= k < |cs| ==> Kept(cs[k])
    ensures FilterSections(cs) == cs
  {
    if cs != [] {
      FilterSectionsKept(cs[..|cs| - 1]);
    }
  }

  /** Filtering the sections twice is filtering once. */
  lemma FilterSectionsIdempotent(cs: seq<Section>)
    ensures FilterSections(FilterSections(cs)) == FilterSections(cs)
  {
    FilterSectionsMembers(cs);
    var r := FilterSections(cs);
    assert forall k :: 0 <= k < |r| ==> r[k] in r;
    FilterSectionsKept(r);
  }

  // ----- All persons ---------------------------------------------------------------

  /**
   * The output has the same persons in the same order; each keeps its other keys,
   * has `neo4j_content` exactly when the input person has it, and a person
   * without it is copied unchanged.
   */
  lemma {:induction false} FilteredPersons(data: seq<Person>)
    ensures |Filtered(data)| == |data|
    ensures forall i :: 0 <= i < |data| ==> Filtered(data)[i] == FilterPerson(data[i])
    ensures forall i :: 0 <= i < |data| ==> Filtered(data)[i].fields == data[i].fields
    ensures forall i :: 0 <= i < |data| ==> (Filtered(data)[i].content.Listed? <==> data[i].content.Listed?)
    ensures forall i :: 0 <= i < |data| && !data[i].content.Listed? ==> Filtered(data)[i] == data[i]
  {
    if data != [] {
      FilteredPersons(data[..|data| - 1]);
    }
  }

  /** Filtering the data twice is filtering once. */
  lemma {:induction false} FilteredIdempotent(data: seq<Person>)
    ensures Filtered(Filtered(data)) == Filtered(data)
  {
    if data != [] {
      var init, p := data[..|data| - 1], data[|data| - 1];
      FilteredIdempotent(init);
      var f := Filtered(data);
      assert f[..|f| - 1] == Filtered(init);
      if p.content.Listed? {
        FilterSectionsIdempotent(p.content.sections);
      }
    }
  }

  /** Filtering never adds sections: `total_sections_after <= total_sections_before`. */
  lemma {:induction false} FilteredFewer(data: seq<Person>)
    ensures SectionCount(Filtered(data)) <= SectionCount(data)
  {
    if data != [] {
      var init, p := data[..|data| - 1], data[|data| - 1];
      FilteredFewer(init);
      var f := Filtered(data);
      assert f[..|f| - 1] == Filtered(init);
      if p.content.Listed? {
        FilterSectionsMembers(p.content.sections);
      }
    }
  }

  /** One header is counted per section. */
  lemma {:induction false} RemainingHeadersCount(data: seq<Person>)
    ensures |RemainingHeaders(data)| == SectionCount(data)
  {
    if data != [] {
      RemainingHeadersCount(data[..|data| - 1]);
    }
  }

  /** After filtering, no filtered header is left to count. */
  lemma {:induction false} NoFilteredHeaderRemains(data: seq<Person>)
    ensures forall h :: h in RemainingHeaders(Filtered(data)) ==> h.None? || h.value !in FieldsToFilter
  {
    if data != [] {
      var init, p := data[..|data| - 1], data[|data| - 1];
      NoFilteredHeaderRemains(init);
      var f := Filtered(data);
      assert f[..|f| - 1] == Filtered(init);
      if p.content.Listed? {
        var kept := FilterSections(p.content.sections);
        FilterSectionsMembers(p.content.sections);
        forall k | 0 <= k < |kept| ensures Headers(kept)[k].None? || Headers(kept)[k].value !in FieldsToFilter {
          assert kept[k] in kept;
        }
      }
    }
  }

  /**
   * The header tally on the filtered data: its counts add up to
   * `total_sections_after`, and no filtered header has a count.
   */
  lemma RemainingTally(data: seq<Person>, h: string)
    requires h in FieldsToFilter
    ensures Counts.Total(Counts.Tally(Counts.Empty(), RemainingHeaders(Filtered(data)))) == SectionCount(Filtered(data))
    ensures Counts.Get(Counts.Tally(Counts.Empty(), RemainingHeaders(Filtered(data))), Some(h)) == 0
  {
    var hs := RemainingHeaders(Filtered(data));
    Counts.TallyCounts(Counts.Empty(), hs);
    RemainingHeadersCount(Filtered(data));
    NoFilteredHeaderRemains(data);
    assert Some(h) !in multiset(hs);
  }

  /** A null header and a missing one are tallied under two different keys, None and ''. */
  lemma NullApartFromMissing(f: map<string, string>)
    ensures var t := Counts.Tally(Counts.Empty(), Headers([Section(NullHeader, f), Section(NoHeader, f)]));
            Counts.Get(t, None) == 1 && Counts.Get(t, Some("")) == 1
  {
    var hs := Headers([Section(NullHeader, f), Section(NoHeader, f)]);
    assert hs == [None, Some("")];
    Counts.TallyCounts(Counts.Empty(), hs);
  }

  // ----- The loops ------------------------------------------------------------------

  /** The inner loop: the sections that are kept, in order. */
  method FilterContent(cs: seq<Section>) returns (kept: seq<Section>)
    ensures kept == FilterSections(cs)
  {
    kept := [];
    for j := 0 to |cs|
      invariant kept == FilterSections(cs[..j])
    {
      assert cs[..j + 1][..j] == cs[..j];
      var c := cs[j];
      if !c.header.Named? || c.header.name !in FieldsToFilter {
        kept := kept + [c];
      }
    }
    assert cs[..|cs|] == cs;
  }

  /** One pass of the filtering loop extends `filtered_data` by one person and both totals by that person's sections. */
  lemma FilterPersonsStep(data: seq<Person>, i: nat, filtered: seq<Person>)
    requires i < |data| && filtered == Filtered(data[..i])
    ensures Filtered(data[..i + 1]) == filtered + [FilterPerson(data[i])]
    ensures SectionCount(data[..i + 1]) == SectionCount(data[..i]) + Size(data[i])
    ensures SectionCount(filtered + [FilterPerson(data[i])]) == SectionCount(filtered) + Size(FilterPerson(data[i]))
  {
    assert data[..i + 1][..i] == data[..i];
    assert (filtered + [FilterPerson(data[i])])[..|filtered|] == filtered;
  }

  /** Some person's `neo4j_content` is JSON null, on which `len` raises TypeError. */
  predicate HasNullContent(data: seq<Person>) {
    exists i :: 0 <= i < |data| && data[i].content.NullContent?
  }

  /**
   * The filtering loop: `filtered_data`, `total_sections_before` and
   * `total_sections_after`, or the TypeError raised at the first person whose
   * `neo4j_content` is null.
   */
  method FilterPersons(data: seq<Person>) returns (r: Result<(seq<Person>, nat, nat), string>)
    ensures r.Failure? <==> HasNullContent(data)
    ensures r.Failure? ==> r.error == "TypeError"
    ensures r.Success? ==> r.value == (Filtered(data), SectionCount(data), SectionCount(Filtered(data)))
  {
    var filtered: seq<Person>, before: nat, after: nat := [], 0, 0;
    for i := 0 to |data|
      invariant filtered == Filtered(data[..i])
      invariant before == SectionCount(data[..i]) && after == SectionCount(filtered)
      invariant forall k :: 0 <= k < i ==> !data[k].content.NullContent?
    {
      var person := data[i];
      if person.content.NullContent? {
        return Failure("TypeError");
      }
      var copy := person;
      if person.content.Listed? {
        var original := person.content.sections;
        before := before + |original|;
        var kept := FilterContent(original);
        copy := person.(content := Listed(kept));
        after := after + |kept|;
      }
      assert copy == FilterPerson(person);
      FilterPersonsStep(data, i, filtered);
      filtered := filtered + [copy];
    }
    assert data[..|data|] == data;
    return Success((filtered, before, after));
  }

  /** The inner counting loop: each section's header (or '') counted once. */
  method CountHeaders(d: Counts.Dict<Option<string>>, cs: seq<Section>) returns (counts: Counts.Dict<Option<string>>)
    ensures counts == Counts.Tally(d, Headers(cs))
  {
    counts := d;
    for j := 0 to |cs|
      invariant counts == Counts.Tally(d, Headers(cs[..j]))
    {
      var header := HeaderKey(cs[j]);
      assert Headers(cs[..j + 1]) == Headers(cs[..j]) + [header];
      Counts.TallySnoc(d, Headers(cs[..j]), header);
      counts := Counts.Increment(counts, header);
    }
    assert cs[..|cs|] == cs;
  }

  /** `remaining_headers` over the filtered data. */
  method CountRemaining(filtered: seq<Person>) returns (remaining: Counts.Dict<Option<string>>)
    ensures remaining == Counts.Tally(Counts.Empty(), RemainingHeaders(filtered))
  {
    remaining := Counts.Empty();
    for i := 0 to |filtered|
      invariant remaining == Counts.Tally(Counts.Empty(), RemainingHeaders(filtered[..i]))
    {
      assert filtered[..i + 1][..i] == filtered[..i];
      var person := filtered[i];
      if person.content.Listed? {
        Counts.TallyConcat(Counts.Empty(), RemainingHeaders(filtered[..i]), Headers(person.content.sections));
        remaining := CountHeaders(remaining, person.content.sections);
      } else {
        assert RemainingHeaders(filtered[..i + 1]) == RemainingHeaders(filtered[..i]) + [];
        assert RemainingHeaders(filtered[..i]) + [] == RemainingHeaders(filtered[..i]);
      }
    }
    assert filtered[..|filtered|] == filtered;
  }

  /**
   * What a run that gets past the filtering loop produces: the data written, the
   * two totals, and the header tally or the ZeroDivisionError the reduction
   * percentage raises when there were no sections.
   */
  datatype Report = Report(written: seq<Person>, before: nat, after: nat, remaining: Result<Counts.Dict<Option<string>>, string>)

  /**
   * `filter_education_content` on the loaded data: a TypeError, before anything
   * is written, when some person's `neo4j_content` is null; otherwise the report.
   */
  method FilterEducation(data: seq<Person>) returns (r: Result<Report, string>)
    ensures r.Failure? <==> HasNullContent(data)
    ensures r.Failure? ==> r.error == "TypeError"
    ensures r.Success? ==> r.value.written == Filtered(data)
    ensures r.Success? ==> r.value.before == SectionCount(data) && r.value.after == SectionCount(Filtered(data))
    ensures r.Success? ==> (r.value.remaining.Failure? <==> r.value.before == 0)
    ensures r.Success? && r.value.remaining.Failure? ==> r.value.remaining.error == "ZeroDivisionError"
    ensures r.Success? && r.value.remaining.Success? ==>
      r.value.remaining.value == Counts.Tally(Counts.Empty(), RemainingHeaders(Filtered(data)))
  {
    var loop := FilterPersons(data);
    if loop.Failure? {
      return Failure(loop.error);
    }
    var (filtered, before, after) := loop.value;
    if before == 0 {
      return Success(Report(filtered, before, after, Failure("ZeroDivisionError")));
    }
    var counts := CountRemaining(filtered);
    return Success(Report(filtered, before, after, Success(counts)));
  }
}
