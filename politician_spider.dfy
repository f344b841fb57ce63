/**
 * `PoliticianSpider` (bundestags_scraper/spiders/politican_spider.py): reads the
 * member table of one legislative period's Wikipedia list into politician
 * records.
 *
 * The HTML is given as what the spider's XPath queries return: a header cell
 * is the list of its text nodes (outside `<small>`) and `<br>` elements, the
 * latter as the string `"<br>"`; a body cell is what the spider reads of it
 * (see `Cell`). `response.urljoin` is a parameter.
 */
module PoliticianSpider {
  import opened Wrappers
  import opened PyStr
  import opened Items
  import opened BaseSpider

  // ----- extract_headers ------------------------------------------------------

  const Br := "<br>"

  /** `s.rstrip().rstrip('-')`: what a `<br>` does to the part before it. */
  function BreakTrim(s: string): string {
    RstripChar(Rstrip(s), '-')
  }

  /** One step of the part loop: a `<br>` trims the previous part, any other part is appended. */
  function CleanStep(cleaned: seq<string>, part: string): seq<string> {
    if part == Br then
      if cleaned == [] then cleaned
      else cleaned[|cleaned| - 1 := BreakTrim(cleaned[|cleaned| - 1])]
    else
      cleaned + [if cleaned != [] && cleaned[|cleaned| - 1] == Br then Lstrip(part) else part]
  }

  /** `cleaned_parts` after the loop over `parts`. */
  function CleanParts(parts: seq<string>): seq<string> {
    if parts == [] then [] else CleanStep(CleanParts(parts[..|parts| - 1]), parts[|parts| - 1])
  }

  /** The parts that are not `<br>` markers. */
  function TextParts(parts: seq<string>): seq<string> {
    if parts == [] then []
    else TextParts(parts[..|parts| - 1]) + (if parts[|parts| - 1] == Br then [] else [parts[|parts| - 1]])
  }

  /**
   * A `<br>` is never kept: the cleaned list has one entry per text part, and
   * the k-th entry is a piece of the k-th text part.
   */
  lemma {:induction false} CleanPartsKeepsText(parts: seq<string>)
    ensures |CleanParts(parts)| == |TextParts(parts)|
    ensures forall k :: 0 <= k < |TextParts(parts)| ==> |CleanParts(parts)[k]| <= |TextParts(parts)[k]|
  {
    if parts != [] {
      CleanPartsKeepsText(parts[..|parts| - 1]);
    }
  }

  const SoftHyphen := '\U{00AD}'
  const NoBreakSpace := '\U{00A0}'

  /** Soft hyphens dropped, no-break spaces made plain spaces. */
  function Unbreak(s: string): string {
    ReplaceChar(RemoveChar(s, SoftHyphen), NoBreakSpace, ' ')
  }

  /** The header string built from the cleaned parts. */
  function HeaderText(cleaned: seq<string>): string {
    Strip(CollapseWs(Unbreak(Join(cleaned, ""))))
  }

  /** The header of one `th`. */
  function CleanHeader(parts: seq<string>): string {
    HeaderText(CleanParts(parts))
  }

  /** No soft hyphen or no-break space, and whitespace only as single plain spaces. */
  predicate Collapsed(h: string) {
    && SoftHyphen !in h && NoBreakSpace !in h
    && (forall i :: 0 <= i < |h| && IsSpace(h[i]) ==> h[i] == ' ')
    && (forall i :: 0 <= i < |h| - 1 ==> !IsSpace(h[i]) || !IsSpace(h[i + 1]))
  }

  /** A cleaned header: collapsed and trimmed. */
  predicate TidyHeader(h: string) {
    Collapsed(h) && Trimmed(h)
  }

  lemma UnbreakRemoves(s: string)
    ensures SoftHyphen !in Unbreak(s) && NoBreakSpace !in Unbreak(s)
  {
    var s1 := RemoveChar(s, SoftHyphen);
    RemoveCharMembers(s, SoftHyphen);
    ReplaceCharAt(s1, NoBreakSpace, ' ');
    forall i | 0 <= i < |Unbreak(s)|
      ensures Unbreak(s)[i] != SoftHyphen && Unbreak(s)[i] != NoBreakSpace
    {
      assert s1[i] in s1;
    }
  }

  lemma CollapseUnbreak(s: string)
    ensures Collapsed(CollapseWs(Unbreak(s)))
  {
    var u := Unbreak(s);
    UnbreakRemoves(s);
    CollapseWsFacts(u);
  }

  /** `strip()` keeps a collapsed string collapsed. */
  lemma StripCollapsed(c: string)
    requires Collapsed(c)
    ensures Collapsed(Strip(c))
  {
    var h := Strip(c);
    var a := LeadingSpace(c);
    StripSlice(c);
    forall i | 0 <= i < |h|
      ensures h[i] == c[a + i]
    { }
    assert SoftHyphen !in h && NoBreakSpace !in h by {
      forall i | 0 <= i < |h| ensures h[i] != SoftHyphen && h[i] != NoBreakSpace {
        assert c[a + i] in c;
      }
    }
  }

  lemma HeaderTextTidy(cleaned: seq<string>)
    ensures TidyHeader(HeaderText(cleaned))
  {
    var c := CollapseWs(Unbreak(Join(cleaned, "")));
    CollapseUnbreak(Join(cleaned, ""));
    StripCollapsed(c);
    StripTrimmed(c);
  }

  /** A table's header row. */
  lemma CleanHeaderTidy(parts: seq<string>)
    ensures TidyHeader(CleanHeader(parts))
  {
    HeaderTextTidy(CleanParts(parts));
  }

  /** One iteration of the part loop of `extract_headers`. */
  method CleanPart(cleaned: seq<string>, part: string) returns (next: seq<string>)
    ensures next == CleanStep(cleaned, part)
  {
    next := cleaned;
    if part == Br {
      if next != [] {
        next := next[|next| - 1 := BreakTrim(next[|next| - 1])];
      }
    } else {
      var p := part;
      if next != [] && next[|next| - 1] == Br {
        p := Lstrip(p);
      }
      next := next + [p];
    }
  }

  /** The loop over the parts of one `th`, building `cleaned_parts`. */
  method CleanHeaderParts(parts: seq<string>) returns (cleaned: seq<string>)
    ensures cleaned == CleanParts(parts)
  {
    cleaned := [];
    for j := 0 to |parts|
      invariant cleaned == CleanParts(parts[..j])
    {
      assert parts[..j + 1][..j] == parts[..j];
      cleaned := CleanPart(cleaned, parts[j]);
    }
    assert parts[..|parts|] == parts;
  }

  /** `extract_headers(table)`: one cleaned header per `th`, in order. */
  method ExtractHeaders(ths: seq<seq<string>>) returns (headers: seq<string>)
    ensures |headers| == |ths|
    ensures forall k :: 0 <= k < |ths| ==> headers[k] == CleanHeader(ths[k])
  {
    headers := [];
    for t := 0 to |ths|
      invariant |headers| == t
      invariant forall k :: 0 <= k < t ==> headers[k] == CleanHeader(ths[k])
    {
      var cleaned := CleanHeaderParts(ths[t]);
      headers := headers + [HeaderText(cleaned)];
    }
  }

  // ----- map_headers ----------------------------------------------------------

  /** `header_rules`, in insertion order: a field and the keywords that select it. */
  const HeaderRules: seq<(string, seq<string>)> := [
    ("full_name", ["mitglied", "name"]),
    ("lifespan", ["lebens", "geburt"]),
    ("political_party", ["partei", "fraktion"]),
    ("federate_state", ["land"]),
    ("constituency", ["wahlkreis"]),
    ("remarks", ["bemerkung"])
  ]

  /** `any(keyword in lower for keyword in keywords)` */
  predicate AnyKeyword(lower: string, keywords: seq<string>) {
    keywords != [] && (Contains(lower, keywords[0]) || AnyKeyword(lower, keywords[1..]))
  }

  /** The field of the first rule, from `rules[i]` on, one of whose keywords occurs in `lower`. */
  function FirstRule(lower: string, i: nat): (r: Option<string>)
    requires i <= |HeaderRules|
    ensures r.Some? ==> exists k :: i <= k < |HeaderRules| && HeaderRules[k].0 == r.value
    decreases |HeaderRules| - i
  {
    if i == |HeaderRules| then None
    else if AnyKeyword(lower, HeaderRules[i].1) then Some(HeaderRules[i].0)
    else FirstRule(lower, i + 1)
  }

  /** The field a header selects; None for a constituency-number column. */
  function FieldOf(header: string): Option<string> {
    var lower := Lower(header);
    if Contains(lower, "wahlkreisnr") then None else FirstRule(lower, 0)
  }

  /** The field each column's header selects, column by column. */
  function Selections(headers: seq<string>): (sel: seq<Option<string>>)
    ensures |sel| == |headers|
  {
    seq(|headers|, k requires 0 <= k < |headers| => FieldOf(headers[k]))
  }

  /** Each selected field at the last column selecting it. */
  function LastIndex(sel: seq<Option<string>>): map<string, nat> {
    if sel == [] then map[]
    else
      var m := LastIndex(sel[..|sel| - 1]);
      match sel[|sel| - 1]
      case Some(f) => m[f := |sel| - 1]
      case None => m
  }

  /** `header_mapping` after the headers of `headers`. */
  function HeaderMap(headers: seq<string>): map<string, nat> {
    LastIndex(Selections(headers))
  }

  /**
   * A field is in the last-index map exactly when some column selects it, and
   * it maps to the last such column.
   */
  lemma {:induction false} LastIndexWins(sel: seq<Option<string>>)
    ensures forall f :: f in LastIndex(sel) ==>
              && LastIndex(sel)[f] < |sel|
              && sel[LastIndex(sel)[f]] == Some(f)
              && forall j :: LastIndex(sel)[f] < j < |sel| ==> sel[j] != Some(f)
    ensures forall j :: 0 <= j < |sel| && sel[j].Some? ==> sel[j].value in LastIndex(sel)
  {
    if sel != [] {
      var init := sel[..|sel| - 1];
      LastIndexWins(init);
      assert forall j :: 0 <= j < |init| ==> init[j] == sel[j];
    }
  }

  /**
   * A field is mapped exactly when some header selects it, to the last such
   * header; so every index is a valid column and no two fields share one.
   */
  lemma HeaderMapLastWins(headers: seq<string>)
    ensures forall f :: f in HeaderMap(headers) ==>
              && HeaderMap(headers)[f] < |headers|
              && FieldOf(headers[HeaderMap(headers)[f]]) == Some(f)
              && forall j :: HeaderMap(headers)[f] < j < |headers| ==> FieldOf(headers[j]) != Some(f)
    ensures forall j :: 0 <= j < |headers| && FieldOf(headers[j]).Some? ==> FieldOf(headers[j]).value in HeaderMap(headers)
  {
    var sel := Selections(headers);
    LastIndexWins(sel);
    forall f | f in HeaderMap(headers)
      ensures && HeaderMap(headers)[f] < |headers|
              && FieldOf(headers[HeaderMap(headers)[f]]) == Some(f)
              && forall j :: HeaderMap(headers)[f] < j < |headers| ==> FieldOf(headers[j]) != Some(f)
    {
      var i := HeaderMap(headers)[f];
      assert sel[i] == FieldOf(headers[i]);
      forall j | i < j < |headers| ensures FieldOf(headers[j]) != Some(f) {
        assert sel[j] == FieldOf(headers[j]);
      }
    }
    forall j | 0 <= j < |headers| && FieldOf(headers[j]).Some?
      ensures FieldOf(headers[j]).value in HeaderMap(headers)
    {
      assert sel[j] == FieldOf(headers[j]);
    }
  }

  /** A column whose lower-cased header contains "wahlkreisnr" is never mapped. */
  lemma HeaderMapSkipsNumberColumn(headers: seq<string>, f: string)
    requires f in HeaderMap(headers)
    ensures HeaderMap(headers)[f] < |headers| && !Contains(Lower(headers[HeaderMap(headers)[f]]), "wahlkreisnr")
  {
    HeaderMapLastWins(headers);
  }

  /** Every mapped field is one of the rule fields. */
  lemma HeaderMapFields(headers: seq<string>, f: string)
    requires f in HeaderMap(headers)
    ensures f in {"full_name", "lifespan", "political_party", "federate_state", "constituency", "remarks"}
  {
    var sel := Selections(headers);
    LastIndexWins(sel);
    var i := HeaderMap(headers)[f];
    assert sel[i] == FieldOf(headers[i]) == Some(f);
    var k :| 0 <= k < |HeaderRules| && HeaderRules[k].0 == f;
    assert k in {0, 1, 2, 3, 4, 5};
  }

  /** The loop over `header_rules.items()`: the field of the first rule whose keywords match. */
  method MatchRule(lower: string) returns (field: Option<string>)
    ensures field == FirstRule(lower, 0)
  {
    var i := 0;
    while i < |HeaderRules|
      invariant i <= |HeaderRules|
      invariant FirstRule(lower, i) == FirstRule(lower, 0)
    {
      if AnyKeyword(lower, HeaderRules[i].1) {
        return Some(HeaderRules[i].0);
      }
      i := i + 1;
    }
    return None;
  }

  /** `map_headers(headers)` */
  method MapHeaders(headers: seq<string>) returns (mapping: map<string, nat>)
    ensures mapping == HeaderMap(headers)
  {
    mapping := map[];
    ghost var sel := Selections(headers);
    for idx := 0 to |headers|
      invariant mapping == LastIndex(sel[..idx])
    {
      assert sel[..idx + 1][..idx] == sel[..idx];
      assert sel[idx] == FieldOf(headers[idx]);
      var lower := Lower(headers[idx]);
      if Contains(lower, "wahlkreisnr") {
        continue;
      }
      var field := MatchRule(lower);
      if field.Some? {
        mapping := mapping[field.value := idx];
      }
    }
    assert sel[..|headers|] == sel;
  }

  // ----- parse_row, _extract_name, _extract_lifespan --------------------------

  /**
   * What the spider reads of a body cell: the normalised text of the first text
   * node under a link (None when the cell has no link), the first link target,
   * the `data-sort-value` attribute (`""` when absent) and the normalised text
   * of the whole cell.
   */
  datatype Cell = Cell(linkText: Value, href: Value, sortValue: string, text: string)

  /** `cell(idx)` inside `parse_row` */
  function CellAt(cells: seq<Cell>, idx: Option<nat>): (c: Option<Cell>)
    ensures c.Some? <==> idx.Some? && idx.value < |cells|
    ensures c.Some? ==> c.value == cells[idx.value]
  {
    if idx.None? then None
    else if idx.value < |cells| then Some(cells[idx.value])
    else None
  }

  /** The normalised text of `cell(idx)`, None when there is no such cell. */
  function TextAt(cells: seq<Cell>, idx: Option<nat>): (t: Value)
    ensures t.Some? <==> CellAt(cells, idx).Some?
    ensures t.Some? ==> t.value == CellAt(cells, idx).value.text
  {
    match CellAt(cells, idx)
    case Some(c) => Some(c.text)
    case None => None
  }

  /** `header_map.get(field)` */
  function Lookup(m: map<string, nat>, f: string): Option<nat> {
    if f in m then Some(m[f]) else None
  }

  /** `sort_value_raw.split('@')[0]` */
  function SortKey(sortValue: string): (k: string)
    ensures '@' !in k && k <= sortValue
  {
    SplitOnHead(sortValue, '@');
    SplitOn(sortValue, '@')[0]
  }

  /** `response.urljoin(href) if href else None` */
  function DetailPage(href: Value, urljoin: string -> string): (d: Value)
    ensures d.Some? <==> Truthy(href)
  {
    if Truthy(href) then Some(urljoin(href.value)) else None
  }

  /** `map(str.strip, key.split(',', 1))`: the stripped last and first name. */
  function NameParts(key: string): (string, string)
    requires ',' in key
  {
    var parts := SplitFirst(key, ',');
    (Strip(parts.0), Strip(parts.1))
  }

  /**
   * `_extract_name(item, cell, response)`: nothing without a cell; otherwise the
   * link text as full name and the joined link target as detail page, and, when
   * the sort key holds a comma, the names on either side of the first comma.
   */
  function ExtractName(item: Fields, cell: Option<Cell>, urljoin: string -> string): (r: Fields)
    ensures cell.None? ==> r == item
    ensures cell.Some? ==> r.Keys == item.Keys + {"full_name", "detail_page"}
                                     + (if ',' in SortKey(cell.value.sortValue) then {"lastname", "firstname"} else {})
    ensures cell.Some? ==> r["full_name"] == cell.value.linkText
    ensures cell.Some? ==> r["detail_page"] == DetailPage(cell.value.href, urljoin)
    ensures cell.Some? && ',' in SortKey(cell.value.sortValue) ==>
              r["lastname"] == Some(NameParts(SortKey(cell.value.sortValue)).0)
    ensures cell.Some? && ',' in SortKey(cell.value.sortValue) ==>
              r["firstname"] == Some(NameParts(SortKey(cell.value.sortValue)).1)
    ensures forall k :: k in item && k != "full_name" && k != "detail_page" && k != "lastname" && k != "firstname" ==>
              r[k] == item[k]
    ensures (cell.None? || ',' !in SortKey(cell.value.sortValue)) && "lastname" in item ==> r["lastname"] == item["lastname"]
    ensures (cell.None? || ',' !in SortKey(cell.value.sortValue)) && "firstname" in item ==> r["firstname"] == item["firstname"]
  {
    if cell.None? then item
    else
      var c := cell.value;
      var named := item["full_name" := c.linkText]["detail_page" := DetailPage(c.href, urljoin)];
      var key := SortKey(c.sortValue);
      if key != "" && ',' in key then
        var names := NameParts(key);
        named["lastname" := Some(names.0)]["firstname" := Some(names.1)]
      else named
  }

  /** `_extract_name` sets no field but full name, detail page, last and first name. */
  lemma ExtractNameOthers(item: Fields, cell: Option<Cell>, urljoin: string -> string, k: string)
    requires k != "full_name" && k != "detail_page" && k != "lastname" && k != "firstname"
    ensures k in ExtractName(item, cell, urljoin) <==> k in item
  {
  }

  /**
   * A sort value `last, first@rest` gives the stripped `last` and `first`; text
   * after the first '@' and commas after the first do not split further.
   */
  lemma ExtractNameFromSortValue(item: Fields, c: Cell, urljoin: string -> string, last: string, first: string, rest: string)
    requires c.sortValue == last + "," + first + "@" + rest
    requires '@' !in last && '@' !in first && ',' !in last
    ensures "lastname" in ExtractName(item, Some(c), urljoin)
    ensures ExtractName(item, Some(c), urljoin)["lastname"] == Some(Strip(last))
    ensures "firstname" in ExtractName(item, Some(c), urljoin)
    ensures ExtractName(item, Some(c), urljoin)["firstname"] == Some(Strip(first))
  {
    var key := last + "," + first;
    assert c.sortValue == key + ['@'] + rest;
    SplitOnSeparator(key, '@', rest);
    assert SortKey(c.sortValue) == key;
    SplitFirstSeparator(last, ',', first);
  }

  /** `lifespan_text.replace('–', '-').split('-')`: the pieces of a lifespan, at either dash. */
  function Years(text: string): (ys: seq<string>)
    ensures |ys| >= 1
  {
    SplitOn(ReplaceChar(text, '\U{2013}', '-'), '-')
  }

  /**
   * `_extract_lifespan(item, cell)`, given the cell's normalised text (None when
   * the row has no such cell): nothing for a missing or empty text, otherwise the
   * stripped first piece as birth year and the stripped second piece, if any, as
   * death year.
   */
  function ExtractLifespan(item: Fields, text: Value): (r: Fields)
    ensures !Truthy(text) ==> r == item
    ensures Truthy(text) ==> r.Keys == item.Keys + {"birth_year"} + (if |Years(text.value)| > 1 then {"death_year"} else {})
    ensures Truthy(text) ==> r["birth_year"] == Some(Strip(Years(text.value)[0]))
    ensures Truthy(text) && |Years(text.value)| > 1 ==> r["death_year"] == Some(Strip(Years(text.value)[1]))
    ensures forall k :: k in item && k != "birth_year" && k != "death_year" ==> r[k] == item[k]
    ensures (!Truthy(text) || |Years(text.value)| == 1) && "death_year" in item ==> r["death_year"] == item["death_year"]
  {
    if !Truthy(text) then item
    else
      var years := Years(text.value);
      var born := item["birth_year" := Some(Strip(years[0]))];
      if |years| > 1 then born["death_year" := Some(Strip(years[1]))] else born
  }

  /** Normalising the dashes of `born–died…` leaves the years and turns the first dash into '-'. */
  lemma DashesNormalised(born: string, died: string, dash: char, rest: string)
    requires dash == '-' || dash == '\U{2013}'
    requires '\U{2013}' !in born && '\U{2013}' !in died
    ensures ReplaceChar(born + [dash] + died + rest, '\U{2013}', '-')
            == born + ['-'] + (died + ReplaceChar(rest, '\U{2013}', '-'))
  {
    var t := born + [dash] + died + rest;
    var lhs := ReplaceChar(t, '\U{2013}', '-');
    var rhs := born + ['-'] + (died + ReplaceChar(rest, '\U{2013}', '-'));
    ReplaceCharAt(t, '\U{2013}', '-');
    ReplaceCharAt(rest, '\U{2013}', '-');
    forall i | 0 <= i < |lhs| ensures lhs[i] == rhs[i] {
      if i < |born| {
        assert t[i] == born[i];
      } else if i == |born| {
        assert t[i] == dash;
      } else if i < |born| + 1 + |died| {
        assert t[i] == died[i - |born| - 1];
      } else {
        assert t[i] == rest[i - |born| - 1 - |died|];
      }
    }
  }

  /** A lifespan `born–died…` (either dash) splits into `born`, `died` and whatever follows. */
  lemma YearsOfLifespan(born: string, died: string, dash: char, rest: string)
    requires dash == '-' || dash == '\U{2013}'
    requires rest == "" || rest[0] == '-' || rest[0] == '\U{2013}'
    requires '-' !in born && '\U{2013}' !in born && '-' !in died && '\U{2013}' !in died
    ensures |Years(born + [dash] + died + rest)| > 1
    ensures Years(born + [dash] + died + rest)[0] == born
    ensures Years(born + [dash] + died + rest)[1] == died
  {
    var tail := died + ReplaceChar(rest, '\U{2013}', '-');
    DashesNormalised(born, died, dash, rest);
    SplitOnSeparator(born, '-', tail);
    SplitOnHead(tail, '-');
    if rest == "" {
      assert tail == died;
    } else {
      assert tail[|died|] == '-' && tail[..|died|] == died;
      IndexOfFirst(tail, '-', |died|);
    }
  }

  /**
   * A lifespan `born–died…` (either dash) gives the stripped years; any further
   * pieces are ignored.
   */
  lemma ExtractLifespanOfYears(item: Fields, text: string, born: string, died: string, dash: char, rest: string)
    requires dash == '-' || dash == '\U{2013}'
    requires text == born + [dash] + died + rest && (rest == "" || rest[0] == '-' || rest[0] == '\U{2013}')
    requires '-' !in born && '\U{2013}' !in born && '-' !in died && '\U{2013}' !in died
    ensures "birth_year" in ExtractLifespan(item, Some(text))
    ensures ExtractLifespan(item, Some(text))["birth_year"] == Some(Strip(born))
    ensures "death_year" in ExtractLifespan(item, Some(text))
    ensures ExtractLifespan(item, Some(text))["death_year"] == Some(Strip(died))
  {
    YearsOfLifespan(born, died, dash, rest);
  }

  /** The optional text columns of `parse_row`, in order. */
  const TextColumns: seq<string> := ["political_party", "federate_state", "constituency", "remarks"]

  /** The text columns `fs` copied from their cells, where a cell is found. */
  function CopyTextColumns(item: Fields, cells: seq<Cell>, hm: map<string, nat>, fs: seq<string>): (r: Fields)
    ensures item.Keys <= r.Keys
  {
    if fs == [] then item
    else
      var r0 := CopyTextColumns(item, cells, hm, fs[..|fs| - 1]);
      var f := fs[|fs| - 1];
      var t := TextAt(cells, Lookup(hm, f));
      if t.Some? then r0[f := t] else r0
  }

  /**
   * A field is set after copying exactly when it was set before or is a listed
   * column whose cell exists; a copied column holds its cell's text, and every
   * other field keeps its value.
   */
  lemma {:induction false} CopyTextColumnsField(item: Fields, cells: seq<Cell>, hm: map<string, nat>, fs: seq<string>, k: string)
    ensures k in CopyTextColumns(item, cells, hm, fs) <==> k in item || (k in fs && TextAt(cells, Lookup(hm, k)).Some?)
    ensures k in fs && TextAt(cells, Lookup(hm, k)).Some? ==>
              CopyTextColumns(item, cells, hm, fs)[k] == TextAt(cells, Lookup(hm, k))
    ensures k in item && k !in fs ==> CopyTextColumns(item, cells, hm, fs)[k] == item[k]
  {
    if fs != [] {
      CopyTextColumnsField(item, cells, hm, fs[..|fs| - 1], k);
      assert fs == fs[..|fs| - 1] + [fs[|fs| - 1]];
      assert k in fs <==> k in fs[..|fs| - 1] || k == fs[|fs| - 1];
    }
  }

  /** The fields `parse_row` sets from the name and lifespan cells, before the text columns. */
  function Dated(cells: seq<Cell>, hm: map<string, nat>, urljoin: string -> string): Fields {
    var named := if "full_name" in hm then ExtractName(map[], CellAt(cells, Some(hm["full_name"])), urljoin) else map[];
    if "lifespan" in hm then ExtractLifespan(named, TextAt(cells, Some(hm["lifespan"]))) else named
  }

  /** The fields `parse_row` sets on every row: record type, source page and period number. */
  function Stamp(data: Fields, url: string, period: Value): Fields {
    data["item_type" := Some("politician")]["source_page" := Some(url)]["legislative_period_number" := period]
  }

  /** Stamping leaves every other field as it was. */
  lemma StampKeeps(data: Fields, url: string, period: Value, k: string)
    requires k != "item_type" && k != "source_page" && k != "legislative_period_number"
    ensures k in Stamp(data, url, period) <==> k in data
    ensures k in data ==> Stamp(data, url, period)[k] == data[k]
  {
  }

  /** The text columns are none of the fields set from other cells or by stamping. */
  lemma TextColumnsApart(f: string)
    requires f in TextColumns
    ensures f != "item_type" && f != "source_page" && f != "legislative_period_number"
    ensures f != "full_name" && f != "detail_page" && f != "lastname" && f != "firstname"
    ensures f != "birth_year" && f != "death_year"
  {
  }

  /** What `parse_row` returns for one row. */
  function RowItem(cells: seq<Cell>, hm: map<string, nat>, url: string, period: Value, urljoin: string -> string): Item {
    Item(PoliticianItem, Stamp(CopyTextColumns(Dated(cells, hm, urljoin), cells, hm, TextColumns), url, period))
  }

  /** Every row record is a politician record carrying its type, source page and period number. */
  lemma RowItemStamp(cells: seq<Cell>, hm: map<string, nat>, url: string, period: Value, urljoin: string -> string)
    ensures RowItem(cells, hm, url, period, urljoin).cls == PoliticianItem
    ensures Get(RowItem(cells, hm, url, period, urljoin).data, "item_type") == Some("politician")
    ensures Get(RowItem(cells, hm, url, period, urljoin).data, "source_page") == Some(url)
    ensures Get(RowItem(cells, hm, url, period, urljoin).data, "legislative_period_number") == period
  {
  }

  /** The name and lifespan cells set only name, detail page and year fields. */
  lemma DatedKeys(cells: seq<Cell>, hm: map<string, nat>, urljoin: string -> string)
    ensures Dated(cells, hm, urljoin).Keys <= {"full_name", "detail_page", "lastname", "firstname", "birth_year", "death_year"}
  {
  }

  /** Every row record sets only fields a politician record declares. */
  lemma RowItemWellFormed(cells: seq<Cell>, hm: map<string, nat>, url: string, period: Value, urljoin: string -> string)
    ensures WellFormed(RowItem(cells, hm, url, period, urljoin))
  {
    var dated := Dated(cells, hm, urljoin);
    var data := RowItem(cells, hm, url, period, urljoin).data;
    DatedKeys(cells, hm, urljoin);
    forall k | k in data ensures k in DeclaredFields(PoliticianItem) {
      CopyTextColumnsField(dated, cells, hm, TextColumns, k);
    }
  }

  /** The name cell alone decides whether full name and detail page are set. */
  lemma DatedName(cells: seq<Cell>, hm: map<string, nat>, urljoin: string -> string)
    ensures "full_name" in Dated(cells, hm, urljoin) <==> CellAt(cells, Lookup(hm, "full_name")).Some?
    ensures "detail_page" in Dated(cells, hm, urljoin) <==> CellAt(cells, Lookup(hm, "full_name")).Some?
    ensures CellAt(cells, Lookup(hm, "full_name")).Some? ==>
              Dated(cells, hm, urljoin)["full_name"] == CellAt(cells, Lookup(hm, "full_name")).value.linkText
  {
  }

  /**
   * A row sets full name and detail page exactly when its name cell exists, with
   * the cell's link text as full name.
   */
  lemma RowItemName(cells: seq<Cell>, hm: map<string, nat>, url: string, period: Value, urljoin: string -> string)
    ensures "full_name" in RowItem(cells, hm, url, period, urljoin).data <==> CellAt(cells, Lookup(hm, "full_name")).Some?
    ensures "detail_page" in RowItem(cells, hm, url, period, urljoin).data <==> CellAt(cells, Lookup(hm, "full_name")).Some?
    ensures CellAt(cells, Lookup(hm, "full_name")).Some? ==>
              RowItem(cells, hm, url, period, urljoin).data["full_name"] == CellAt(cells, Lookup(hm, "full_name")).value.linkText
  {
    var dated := Dated(cells, hm, urljoin);
    DatedName(cells, hm, urljoin);
    var texts := CopyTextColumns(dated, cells, hm, TextColumns);
    CopyTextColumnsField(dated, cells, hm, TextColumns, "full_name");
    CopyTextColumnsField(dated, cells, hm, TextColumns, "detail_page");
    StampKeeps(texts, url, period, "full_name");
    StampKeeps(texts, url, period, "detail_page");
  }

  /** Without a lifespan cell, neither year is set before the text columns. */
  lemma DatedNoLifespan(cells: seq<Cell>, hm: map<string, nat>, urljoin: string -> string)
    requires CellAt(cells, Lookup(hm, "lifespan")).None?
    ensures "birth_year" !in Dated(cells, hm, urljoin) && "death_year" !in Dated(cells, hm, urljoin)
  {
    if "full_name" in hm {
      ExtractNameOthers(map[], CellAt(cells, Some(hm["full_name"])), urljoin, "birth_year");
      ExtractNameOthers(map[], CellAt(cells, Some(hm["full_name"])), urljoin, "death_year");
    }
  }

  /** A row without a lifespan cell sets neither year. */
  lemma RowItemNoLifespan(cells: seq<Cell>, hm: map<string, nat>, url: string, period: Value, urljoin: string -> string)
    requires CellAt(cells, Lookup(hm, "lifespan")).None?
    ensures "birth_year" !in RowItem(cells, hm, url, period, urljoin).data
    ensures "death_year" !in RowItem(cells, hm, url, period, urljoin).data
  {
    var dated := Dated(cells, hm, urljoin);
    DatedNoLifespan(cells, hm, urljoin);
    var texts := CopyTextColumns(dated, cells, hm, TextColumns);
    CopyTextColumnsField(dated, cells, hm, TextColumns, "birth_year");
    CopyTextColumnsField(dated, cells, hm, TextColumns, "death_year");
    StampKeeps(texts, url, period, "birth_year");
    StampKeeps(texts, url, period, "death_year");
  }

  /** A text column is set exactly when its cell exists, to the cell's text. */
  lemma RowItemTextColumn(cells: seq<Cell>, hm: map<string, nat>, url: string, period: Value, urljoin: string -> string, f: string)
    requires f in TextColumns
    ensures f in RowItem(cells, hm, url, period, urljoin).data <==> TextAt(cells, Lookup(hm, f)).Some?
    ensures TextAt(cells, Lookup(hm, f)).Some? ==> RowItem(cells, hm, url, period, urljoin).data[f] == TextAt(cells, Lookup(hm, f))
  {
    var dated := Dated(cells, hm, urljoin);
    DatedKeys(cells, hm, urljoin);
    TextColumnsApart(f);
    CopyTextColumnsField(dated, cells, hm, TextColumns, f);
    StampKeeps(CopyTextColumns(dated, cells, hm, TextColumns), url, period, f);
  }

  /** The loop of `parse_row` over the text columns. */
  method CopyColumns(data: Fields, cells: seq<Cell>, hm: map<string, nat>) returns (r: Fields)
    ensures r == CopyTextColumns(data, cells, hm, TextColumns)
  {
    r := data;
    for i := 0 to |TextColumns|
      invariant r == CopyTextColumns(data, cells, hm, TextColumns[..i])
    {
      assert TextColumns[..i + 1][..i] == TextColumns[..i];
      var c := CellAt(cells, Lookup(hm, TextColumns[i]));
      if c.Some? {
        r := r[TextColumns[i] := Some(c.value.text)];
      }
    }
    assert TextColumns[..|TextColumns|] == TextColumns;
  }

  /** `parse_row(row, header_map, response)` */
  method ParseRow(cells: seq<Cell>, hm: map<string, nat>, url: string, period: Value, urljoin: string -> string)
    returns (item: Item)
    ensures item == RowItem(cells, hm, url, period, urljoin)
  {
    var data: Fields := map[];
    if "full_name" in hm {
      data := ExtractName(data, CellAt(cells, Some(hm["full_name"])), urljoin);
    }
    if "lifespan" in hm {
      data := ExtractLifespan(data, TextAt(cells, Some(hm["lifespan"])));
    }
    assert data == Dated(cells, hm, urljoin);
    data := CopyColumns(data, cells, hm);
    data := data["item_type" := Some("politician")]["source_page" := Some(url)]["legislative_period_number" := period];
    item := Item(PoliticianItem, data);
  }

  // ----- parse ----------------------------------------------------------------

  /** The fields `parse` checks every row record for. */
  const Mandatory: seq<string> := ["full_name", "firstname", "lastname", "birth_year", "detail_page", "legislative_period_number"]

  /** The member table after the "Abgeordnete" heading: header cells and body rows. */
  datatype Table = Table(headers: seq<seq<string>>, rows: seq<seq<Cell>>)

  /** The headers `extract_headers` derives from `t`. */
  function TableHeaders(t: Table): (hs: seq<string>)
    ensures |hs| == |t.headers|
  {
    seq(|t.headers|, k requires 0 <= k < |t.headers| => CleanHeader(t.headers[k]))
  }

  /** One record per row, in row order. */
  function RowItems(rows: seq<seq<Cell>>, hm: map<string, nat>, url: string, period: Value, urljoin: string -> string): (items: seq<Item>)
    ensures |items| == |rows|
  {
    seq(|rows|, k requires 0 <= k < |rows| => RowItem(rows[k], hm, url, period, urljoin))
  }

  /** One record per body row of the table, in row order. */
  function TableItems(t: Table, url: string, period: Value, urljoin: string -> string): (items: seq<Item>)
    ensures |items| == |t.rows|
  {
    RowItems(t.rows, HeaderMap(TableHeaders(t)), url, period, urljoin)
  }

  /** The missing-field reports for the records that lack a mandatory field, in order. */
  function Reports(items: seq<Item>, url: string): seq<MissingReport> {
    if items == [] then []
    else
      var last := items[|items| - 1].data;
      Reports(items[..|items| - 1], url)
      + (if Missing(last, Mandatory) == [] then [] else [MissingReport(url, Missing(last, Mandatory), last)])
  }

  /** The row loop of `parse`: every row parsed, yielded and validated in order. */
  method ParseRows(spider: SourceMixin, rows: seq<seq<Cell>>, hm: map<string, nat>, url: string, period: Value,
                   urljoin: string -> string)
    returns (items: seq<Item>)
    modifies spider
    ensures items == RowItems(rows, hm, url, period, urljoin)
    ensures spider.seenDomains == old(spider.seenDomains)
    ensures spider.missingLog == old(spider.missingLog) + Reports(items, url)
  {
    items := [];
    for i := 0 to |rows|
      invariant |items| == i
      invariant forall k :: 0 <= k < i ==> items[k] == RowItem(rows[k], hm, url, period, urljoin)
      invariant spider.missingLog == old(spider.missingLog) + Reports(items, url)
      invariant spider.seenDomains == old(spider.seenDomains)
    {
      var item := ParseRow(rows[i], hm, url, period, urljoin);
      var _ := spider.ValidateItem(item.data, Mandatory, url);
      assert (items + [item])[..|items|] == items;
      items := items + [item];
    }
  }

  /**
   * `parse(response)`: the source records, then one record per table row (none
   * when the page has no member table). A row record is yielded whether or not
   * it passes validation; a failing one is reported to the missing-field log.
   */
  method Parse(spider: SourceMixin, resp: Response, table: Option<Table>, period: Value, urljoin: string -> string)
    returns (items: seq<Item>)
    modifies spider
    ensures spider.seenDomains == old(spider.seenDomains) + {spider.netloc(resp.url)}
    ensures items == SourceItems(old(spider.seenDomains), resp, spider.netloc(resp.url))
                     + (if table.None? then [] else TableItems(table.value, resp.url, period, urljoin))
    ensures spider.missingLog == old(spider.missingLog)
                                 + (if table.None? then [] else Reports(TableItems(table.value, resp.url, period, urljoin), resp.url))
  {
    items := spider.AddSourcePage(resp);
    if table.None? {
      return;
    }
    var t := table.value;
    var headers := ExtractHeaders(t.headers);
    assert headers == TableHeaders(t);
    var headerMap := MapHeaders(headers);
    var rowItems := ParseRows(spider, t.rows, headerMap, resp.url, period, urljoin);
    items := items + rowItems;
  }

}
