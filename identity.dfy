/**
 * Node identities and party-name normalisation of the graph pipeline
 * (bundestags_scraper/pipelines.py, lines 14-57).
 *
 * SHA-1 is not modelled bit by bit: it is a parameter `sha1` from the text
 * that is hashed (its UTF-8 encoding is a bijection) to the hex digest.
 */
module Identity {
  import opened Wrappers
  import opened PyStr
  import opened Items

  /** The text `_mandate_id` hashes: period number, '#', politician detail URL. */
  function MandateKey(periodNr: string, polUrl: string): (k: string)
    ensures |k| == |periodNr| + 1 + |polUrl|
    ensures k[..|periodNr|] == periodNr && k[|periodNr|] == '#' && k[|periodNr| + 1..] == polUrl
  {
    periodNr + "#" + polUrl
  }

  /** `_mandate_id(period_nr, pol_url)`: one Mandate per (period, politician) pair. */
  function MandateId(sha1: string -> string, periodNr: string, polUrl: string): string {
    sha1(MandateKey(periodNr, polUrl))
  }

  /** The text an f-string shows for a `str`-or-None value. */
  function PyFormat(v: Value): (s: string)
    ensures v.Some? ==> s == v.value
    ensures v.None? ==> s == "None"
  {
    match v
    case Some(x) => x
    case None => "None"
  }

  /** The text `_content` hashes for a content id: source page, '#', section header. */
  function ContentKey(sourcePage: Value, header: Value): string {
    PyFormat(sourcePage) + "#" + PyFormat(header)
  }

  function ContentId(sha1: string -> string, sourcePage: Value, header: Value): string {
    sha1(ContentKey(sourcePage, header))
  }

  /** Splitting a key at its first '#' recovers both parts when the first part has no '#'. */
  lemma KeySplit(a: string, b: string)
    requires '#' !in a
    ensures IndexOf(a + "#" + b, '#') == |a|
  {
    var k := a + "#" + b;
    assert k[|a|] == '#';
    assert k[..|a|] == a;
    IndexOfFirst(k, '#', |a|);
  }

  /**
   * Two (period, politician) pairs give the same key only if they are the same pair,
   * as long as period numbers contain no '#' (they are digit strings).
   */
  lemma MandateKeyInjective(p1: string, u1: string, p2: string, u2: string)
    requires '#' !in p1 && '#' !in p2
    requires MandateKey(p1, u1) == MandateKey(p2, u2)
    ensures p1 == p2 && u1 == u2
  {
    KeySplit(p1, u1);
    KeySplit(p2, u2);
    var k := MandateKey(p1, u1);
    assert p1 == k[..|p1|] && p2 == k[..|p2|];
    assert u1 == k[|p1| + 1..] && u2 == k[|p2| + 1..];
  }

  /**
   * A section header None and a header "None" give the same content id:
   * the f-string cannot tell them apart.
   */
  lemma ContentKeyConflatesNone(src: string)
    ensures ContentKey(Some(src), None) == ContentKey(Some(src), Some("None"))
  {
  }

  /** Content keys of different pages differ when URLs contain no '#'. */
  lemma ContentKeyInjective(s1: string, h1: Value, s2: string, h2: Value)
    requires '#' !in s1 && '#' !in s2
    requires ContentKey(Some(s1), h1) == ContentKey(Some(s2), h2)
    ensures s1 == s2 && PyFormat(h1) == PyFormat(h2)
  {
    KeySplit(s1, PyFormat(h1));
    KeySplit(s2, PyFormat(h2));
    var k := ContentKey(Some(s1), h1);
    assert s1 == k[..|s1|] && s2 == k[..|s2|];
    assert PyFormat(h1) == k[|s1| + 1..] && PyFormat(h2) == k[|s2| + 1..];
  }

  /** `PARTY_ALIASES`: raw party labels as scraped, mapped to one canonical name. */
  const PartyAliases: map<string, string> := map[
    "CDU/CSU (CDU)" := "CDU",
    "CSU (GDP)" := "CSU",
    "CDU/CSU (CSU)" := "CSU",
    "SPD (GDP)" := "SPD",
    "Die Grünen" := "Bündnis 90/Die Grünen",
    "GRÜNE" := "Bündnis 90/Die Grünen",
    "Grüne" := "Bündnis 90/Die Grünen",
    "Bündnis 90" := "Bündnis 90/Die Grünen",
    "Grüne DDR" := "Bündnis 90/Die Grünen",
    "AfD (parteilos)" := "AfD",
    "fraktionslos(AfD)" := "AfD",
    "Die Linke" := "DIE LINKE",
    "Linke" := "DIE LINKE",
    "PDS" := "DIE LINKE",
    "parteilos" := "Unabhängig / Parteilos",
    "unabhängig" := "Unabhängig / Parteilos",
    "fraktionslos" := "Unabhängig / Parteilos",
    "fraktionslos (Die PARTEI)" := "Unabhängig / Parteilos",
    "fraktionslos (LKR)" := "Unabhängig / Parteilos",
    "fraktionslos(SSW)" := "Unabhängig / Parteilos",
    "BSW" := "BSW"
  ]

  /** The canonical party names the alias table maps to. */
  const CanonicalParties: set<string> :=
    {"CDU", "CSU", "SPD", "Bündnis 90/Die Grünen", "AfD", "DIE LINKE", "Unabhängig / Parteilos", "BSW"}

  /** A name the alias table leaves alone. */
  predicate Canonical(name: string) {
    name !in PartyAliases || PartyAliases[name] == name
  }

  lemma AliasTargets()
    ensures forall k :: k in PartyAliases ==> PartyAliases[k] in CanonicalParties
  {
  }

  lemma CanonicalPartiesAreFixed()
    ensures forall c :: c in CanonicalParties ==> Canonical(c) && Trimmed(c) && c != ""
  {
    forall c | c in CanonicalParties
      ensures Canonical(c) && Trimmed(c) && c != ""
    {
      assert c[0] != ' ' && c[|c| - 1] != ' ';
    }
  }

  /** Every alias target is a canonical party, trimmed and left alone by the table. */
  lemma AliasFacts(k: string)
    requires k in PartyAliases
    ensures PartyAliases[k] in CanonicalParties && Canonical(PartyAliases[k]) && Trimmed(PartyAliases[k])
  {
    AliasTargets();
    CanonicalPartiesAreFixed();
  }

  /**
   * `normalize_party_name(raw)`: strip a truthy name and look it up in the alias
   * table; an unknown name passes through stripped, a falsy one becomes "".
   */
  function NormalizePartyName(raw: Value): (r: string)
    ensures Trimmed(r)
    ensures Canonical(r)
    ensures !Truthy(raw) ==> r == ""
    ensures Truthy(raw) && Strip(raw.value) !in PartyAliases ==> r == Strip(raw.value)
    ensures Truthy(raw) && Strip(raw.value) in PartyAliases ==>
              r == PartyAliases[Strip(raw.value)] && r in CanonicalParties
  {
    var cleaned := if Truthy(raw) then Strip(raw.value) else "";
    assert Trimmed(cleaned) by {
      if Truthy(raw) { StripTrimmed(raw.value); }
    }
    if cleaned in PartyAliases then AliasFacts(cleaned); PartyAliases[cleaned] else cleaned
  }

  /** Normalising a normalised name changes nothing. */
  lemma NormalizeIdempotent(raw: Value)
    ensures NormalizePartyName(Some(NormalizePartyName(raw))) == NormalizePartyName(raw)
  {
    var r := NormalizePartyName(raw);
    if r != "" {
      TrimmedStrip(r);
    }
  }

  /** The labels the alias table gives for the Greens. */
  const GreensLabels: set<string> := {"Die Grünen", "GRÜNE", "Grüne", "Bündnis 90", "Grüne DDR"}

  lemma GreensLabelsAliased()
    ensures forall l :: l in GreensLabels ==> l in PartyAliases && PartyAliases[l] == "Bündnis 90/Die Grünen"
  {
  }

  /** An alias, with or without surrounding spaces, normalises to the name the table gives it. */
  lemma NormalizeAlias(name: string)
    requires Trimmed(name) && name in PartyAliases
    ensures NormalizePartyName(Some(name)) == PartyAliases[name]
    ensures NormalizePartyName(Some(" " + name + " ")) == PartyAliases[name]
  {
    TrimmedStrip(name);
    StripPadded(name);
  }

  /** Every name of the Greens, with or without surrounding spaces, normalises to one party name. */
  lemma GreensVariants(name: string)
    requires name in GreensLabels
    ensures NormalizePartyName(Some(name)) == "Bündnis 90/Die Grünen"
    ensures NormalizePartyName(Some(" " + name + " ")) == "Bündnis 90/Die Grünen"
  {
    GreensLabelsAliased();
    assert Trimmed(name) by { assert name[0] != ' ' && name[|name| - 1] != ' '; }
    NormalizeAlias(name);
  }

  /** A name the table does not know passes through, stripped. */
  lemma NormalizeUnknown(name: string)
    requires Trimmed(name) && name != "" && name !in PartyAliases
    ensures NormalizePartyName(Some(name)) == name
    ensures NormalizePartyName(Some(" " + name + " ")) == name
  {
    TrimmedStrip(name);
    StripPadded(name);
  }
}
