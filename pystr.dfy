/**
 * The Python string builtins the scrapers and enrichment scripts rely on:
 * whitespace as `str.isspace` and the regular-expression class `\s` define it,
 * `strip`/`lstrip`/`rstrip`, `split()`, `split(sep)`, `split(sep, 1)`,
 * `sep.join(...)`, substring membership `in`, `lower()`, decimal formatting with
 * zero padding (`f"{n:02d}"`) and `int(...)` on a decimal string.
 */
module PyStr {
  import opened Wrappers

  /** The characters for which Python's `str.isspace()` holds (and that `\s` matches). */
  predicate IsSpace(c: char) {
    || c == ' ' || c == '\t' || c == '\n' || c == '\r' || c == '\U{000B}' || c == '\U{000C}'
    || ('\U{001C}' <= c <= '\U{001F}') || c == '\U{0085}' || c == '\U{00A0}' || c == '\U{1680}'
    || ('\U{2000}' <= c <= '\U{200A}') || c == '\U{2028}' || c == '\U{2029}' || c == '\U{202F}'
    || c == '\U{205F}' || c == '\U{3000}'
  }

  predicate NoSpace(s: string) {
    forall i :: 0 <= i < |s| ==> !IsSpace(s[i])
  }

  predicate AllSpace(s: string) {
    forall i :: 0 <= i < |s| ==> IsSpace(s[i])
  }

  /** A string with no whitespace at either end, as `strip()` leaves it. */
  predicate Trimmed(s: string) {
    s == [] || (!IsSpace(s[0]) && !IsSpace(s[|s| - 1]))
  }

  /** `s.lstrip()` */
  function Lstrip(s: string): (r: string)
    ensures |r| <= |s|
    ensures r == [] || !IsSpace(r[0])
  {
    if s != [] && IsSpace(s[0]) then Lstrip(s[1..]) else s
  }

  /** What `lstrip()` keeps is a suffix. */
  lemma {:induction false} LstripSuffix(s: string)
    ensures Lstrip(s) == s[|s| - |Lstrip(s)|..]
  {
    if s != [] && IsSpace(s[0]) {
      LstripSuffix(s[1..]);
    }
  }

  /** What `lstrip()` removes is whitespace. */
  lemma {:induction false} LstripRemovesSpace(s: string)
    ensures AllSpace(s[..|s| - |Lstrip(s)|])
  {
    if s != [] && IsSpace(s[0]) {
      LstripRemovesSpace(s[1..]);
      assert s[..|s| - |Lstrip(s)|] == [s[0]] + s[1..][..|s[1..]| - |Lstrip(s[1..])|];
    }
  }

  /** `s.rstrip()` */
  function Rstrip(s: string): (r: string)
    ensures |r| <= |s|
    ensures r == [] || !IsSpace(r[|r| - 1])
  {
    if s != [] && IsSpace(s[|s| - 1]) then Rstrip(s[..|s| - 1]) else s
  }

  /** What `rstrip()` keeps is a prefix. */
  lemma {:induction false} RstripPrefix(s: string)
    ensures Rstrip(s) == s[..|Rstrip(s)|]
  {
    if s != [] && IsSpace(s[|s| - 1]) {
      RstripPrefix(s[..|s| - 1]);
    }
  }

  /** What `rstrip()` removes is whitespace. */
  lemma {:induction false} RstripRemovesSpace(s: string)
    ensures AllSpace(s[|Rstrip(s)|..])
  {
    if s != [] && IsSpace(s[|s| - 1]) {
      RstripRemovesSpace(s[..|s| - 1]);
      assert s[|Rstrip(s)|..] == s[..|s| - 1][|Rstrip(s[..|s| - 1])|..] + [s[|s| - 1]];
    }
  }

  /** The number of leading whitespace characters of `s`. */
  function LeadingSpace(s: string): (n: nat)
    ensures n <= |s|
  {
    |s| - |Lstrip(s)|
  }

  /** `s.strip()`: `s` without its leading and trailing whitespace. */
  function Strip(s: string): string {
    Rstrip(Lstrip(s))
  }

  /** `strip()` leaves no whitespace at either end. */
  lemma StripTrimmed(s: string)
    ensures Trimmed(Strip(s))
  {
    RstripPrefix(Lstrip(s));
  }

  /** What `strip()` keeps is the slice between the leading and the trailing whitespace. */
  lemma StripSlice(s: string)
    ensures LeadingSpace(s) + |Strip(s)| <= |s| && Strip(s) == s[LeadingSpace(s)..LeadingSpace(s) + |Strip(s)|]
    ensures AllSpace(s[..LeadingSpace(s)]) && AllSpace(s[LeadingSpace(s) + |Strip(s)|..])
  {
    var l := Lstrip(s);
    var r := Rstrip(l);
    var i := |s| - |l|;
    LstripRemovesSpace(s);
    RstripRemovesSpace(l);
    LstripSuffix(s);
    RstripPrefix(l);
    assert l == s[i..];
    assert r == s[i..i + |r|];
    assert s[i + |r|..] == l[|r|..];
  }

  lemma TrimmedStrip(s: string)
    requires Trimmed(s)
    ensures Strip(s) == s
  {
  }

  lemma StripIsRstripLstrip(s: string)
    ensures Strip(s) == Rstrip(Lstrip(s))
  {
  }

  /** One space on each side of a trimmed string is stripped off again. */
  lemma StripPadded(s: string)
    requires Trimmed(s)
    ensures Strip(" " + s + " ") == s
  {
    var l := s + " ";
    LstripSpace(l);
    assert " " + s + " " == " " + l;
    if s == [] {
      LstripSpace([]);
      assert l == " " + [];
    } else {
      assert Lstrip(l) == l by { assert l[0] == s[0]; }
      RstripSpace(s);
    }
  }

  lemma LstripSpace(s: string)
    ensures Lstrip(" " + s) == Lstrip(s)
  {
    assert (" " + s)[1..] == s;
  }

  lemma RstripSpace(s: string)
    requires Trimmed(s)
    ensures Rstrip(s + " ") == s
  {
    assert (s + " ")[..|s|] == s;
  }

  /** `strip()` is idempotent. */
  lemma StripIdempotent(s: string)
    ensures Strip(Strip(s)) == Strip(s)
  {
    StripTrimmed(s);
    TrimmedStrip(Strip(s));
  }

  /** `s.rstrip(c)` for a single character `c` */
  function RstripChar(s: string, c: char): (r: string)
    ensures |r| <= |s| && r == s[..|r|]
    ensures r == [] || r[|r| - 1] != c
    ensures forall i :: |r| <= i < |s| ==> s[i] == c
  {
    if s != [] && s[|s| - 1] == c then RstripChar(s[..|s| - 1], c) else s
  }

  /** The longest prefix of `s` that holds no whitespace. */
  function Word(s: string): (w: string)
    ensures w <= s && NoSpace(w)
    ensures |w| == |s| || IsSpace(s[|w|])
  {
    if s == [] || IsSpace(s[0]) then [] else [s[0]] + Word(s[1..])
  }

  /** `s.split()` with no argument: the maximal runs of non-whitespace, in order. */
  function SplitWs(s: string): (r: seq<string>)
    ensures forall k :: 0 <= k < |r| ==> r[k] != [] && NoSpace(r[k])
    decreases |s|
  {
    var t := Lstrip(s);
    if t == [] then [] else
      var w := Word(t);
      assert |w| > 0 by { assert !IsSpace(t[0]); }
      [w] + SplitWs(t[|w|..])
  }

  /** `sep.join(pieces)` */
  function Join(pieces: seq<string>, sep: string): string {
    if |pieces| == 0 then ""
    else if |pieces| == 1 then pieces[0]
    else pieces[0] + sep + Join(pieces[1..], sep)
  }

  lemma JoinAppend(pieces: seq<string>, p: string, sep: string)
    requires pieces != []
    ensures Join(pieces + [p], sep) == Join(pieces, sep) + sep + p
  {
    if |pieces| > 1 {
      assert (pieces + [p])[1..] == pieces[1..] + [p];
      JoinAppend(pieces[1..], p, sep);
    }
  }

  /** `' '.join(s.split())`: whitespace runs collapsed to one space and the ends trimmed. */
  function NormalizeWs(s: string): string {
    Join(SplitWs(s), " ")
  }

  /** `re.sub(r'\s+', ' ', s)`: every maximal run of whitespace replaced by one space. */
  function CollapseWs(s: string): string
    decreases |s|
  {
    if s == [] then []
    else if IsSpace(s[0]) then
      [' '] + CollapseWs(Lstrip(s))
    else [s[0]] + CollapseWs(s[1..])
  }

  /**
   * After collapsing, all whitespace is single plain spaces, and the string
   * keeps exactly the non-whitespace characters it had.
   */
  lemma {:induction false} CollapseWsFacts(s: string)
    ensures var r := CollapseWs(s);
            && (forall i :: 0 <= i < |r| && IsSpace(r[i]) ==> r[i] == ' ')
            && (forall i :: 0 <= i < |r| - 1 ==> !IsSpace(r[i]) || !IsSpace(r[i + 1]))
            && (forall c :: !IsSpace(c) ==> (c in r <==> c in s))
            && (r == [] <==> s == [])
            && (r != [] ==> (IsSpace(r[0]) <==> IsSpace(s[0])))
    decreases |s|
  {
    if s != [] {
      if IsSpace(s[0]) {
        var t := Lstrip(s);
        LstripSuffix(s);
        assert s == s[..|s| - |t|] + t;
        LstripRemovesSpace(s);
        CollapseWsFacts(t);
      } else {
        assert s == [s[0]] + s[1..];
        CollapseWsFacts(s[1..]);
      }
    }
  }

  /** The index of the first `c` in `s`. */
  function IndexOf(s: string, c: char): (i: nat)
    requires c in s
    ensures i < |s| && s[i] == c && c !in s[..i]
  {
    if s[0] == c then 0 else 1 + IndexOf(s[1..], c)
  }

  /** The first `c` is at `i` when `s[i]` is `c` and no earlier character is. */
  lemma {:induction false} IndexOfFirst(s: string, c: char, i: nat)
    requires i < |s| && s[i] == c && c !in s[..i]
    ensures IndexOf(s, c) == i
    decreases i
  {
    if i > 0 {
      assert s[0] in s[..i];
      assert s[1..][i - 1] == c;
      assert s[1..][..i - 1] == s[..i][1..];
      IndexOfFirst(s[1..], c, i - 1);
    }
  }

  /** `s.split(c)` for a single-character separator. */
  function SplitOn(s: string, c: char): (r: seq<string>)
    ensures |r| >= 1
    decreases |s|
  {
    if c !in s then [s] else
      var i := IndexOf(s, c);
      [s[..i]] + SplitOn(s[i + 1..], c)
  }

  /** In `a + [c] + b` with no `c` in `a`, the first `c` is the one after `a`. */
  lemma FirstSeparator(a: string, c: char, b: string)
    requires c !in a
    ensures c in a + [c] + b && IndexOf(a + [c] + b, c) == |a|
    ensures (a + [c] + b)[..|a|] == a && (a + [c] + b)[|a| + 1..] == b
  {
    var s := a + [c] + b;
    assert s[|a|] == c;
    assert s[..|a|] == a;
    IndexOfFirst(s, c, |a|);
  }

  /** `(a + c + b).split(c)` is `a` followed by the split of `b`. */
  lemma SplitOnSeparator(a: string, c: char, b: string)
    requires c !in a
    ensures SplitOn(a + [c] + b, c) == [a] + SplitOn(b, c)
  {
    FirstSeparator(a, c, b);
  }

  /** No piece of a split contains the separator. */
  lemma {:induction false} SplitOnPieces(s: string, c: char)
    ensures forall k :: 0 <= k < |SplitOn(s, c)| ==> c !in SplitOn(s, c)[k]
    decreases |s|
  {
    if c in s {
      var i := IndexOf(s, c);
      SplitOnPieces(s[i + 1..], c);
    }
  }

  /** Splitting at `c` and joining with `c` gives the string back. */
  lemma {:induction false} JoinSplitOn(s: string, c: char)
    ensures Join(SplitOn(s, c), [c]) == s
    decreases |s|
  {
    if c in s {
      var i := IndexOf(s, c);
      var rest := SplitOn(s[i + 1..], c);
      JoinSplitOn(s[i + 1..], c);
      assert SplitOn(s, c) == [s[..i]] + rest;
      assert Join(SplitOn(s, c), [c]) == s[..i] + [c] + Join(rest, [c]);
      assert s == s[..i] + [c] + s[i + 1..];
    }
  }

  /** The first piece of `s.split(c)` is the text before the first `c`, or all of `s`. */
  lemma {:induction false} SplitOnHead(s: string, c: char)
    ensures SplitOn(s, c)[0] == if c in s then s[..IndexOf(s, c)] else s
  {
  }

  /** `s.split(c, 1)` when `c in s`: the text before and after the first `c`. */
  function SplitFirst(s: string, c: char): (r: (string, string))
    requires c in s
    ensures r.0 + [c] + r.1 == s && c !in r.0
  {
    var i := IndexOf(s, c);
    assert s == s[..i] + [c] + s[i + 1..];
    (s[..i], s[i + 1..])
  }

  /** `(a + c + b).split(c, 1)` is `(a, b)` when `a` has no `c`. */
  lemma SplitFirstSeparator(a: string, c: char, b: string)
    requires c !in a
    ensures c in a + [c] + b && SplitFirst(a + [c] + b, c) == (a, b)
  {
    FirstSeparator(a, c, b);
  }

  /** Substring membership `sub in s`. */
  predicate Contains(s: string, sub: string)
    decreases |s|
  {
    sub <= s || (s != [] && Contains(s[1..], sub))
  }

  /** `sub` occurs in `s` at index `i`. */
  predicate OccursAt(s: string, sub: string, i: int) {
    0 <= i && i + |sub| <= |s| && s[i..i + |sub|] == sub
  }

  lemma {:induction false} ContainsOccurs(s: string, sub: string, i: int)
    requires OccursAt(s, sub, i)
    ensures Contains(s, sub)
    decreases i
  {
    if i == 0 {
      assert sub <= s;
    } else {
      assert OccursAt(s[1..], sub, i - 1);
      ContainsOccurs(s[1..], sub, i - 1);
    }
  }

  /**
   * `c.lower()` for the letters the headers and party names use: ASCII capitals
   * and the German umlauts. Every other character is left as it is.
   */
  function LowerChar(c: char): (r: char)
    ensures 'a' <= r <= 'z' ==> c == r || c == (r as int - 32) as char
  {
    if 'A' <= c <= 'Z' then (c as int + 32) as char
    else if c == 'Ä' then 'ä'
    else if c == 'Ö' then 'ö'
    else if c == 'Ü' then 'ü'
    else c
  }

  /** `s.lower()` (see LowerChar) */
  function Lower(s: string): (r: string)
    ensures |r| == |s|
  {
    if s == [] then [] else [LowerChar(s[0])] + Lower(s[1..])
  }

  /** `lower()` maps each character on its own. */
  lemma {:induction false} LowerAt(s: string)
    ensures forall i :: 0 <= i < |s| ==> Lower(s)[i] == LowerChar(s[i])
  {
    if s != [] {
      LowerAt(s[1..]);
    }
  }

  /** `s.replace(a, b)` for single characters. */
  function ReplaceChar(s: string, a: char, b: char): (r: string)
    ensures |r| == |s|
  {
    if s == [] then [] else [if s[0] == a then b else s[0]] + ReplaceChar(s[1..], a, b)
  }

  /** `replace(a, b)` replaces exactly the occurrences of `a`, each by `b`. */
  lemma {:induction false} ReplaceCharAt(s: string, a: char, b: char)
    ensures forall i :: 0 <= i < |s| ==> ReplaceChar(s, a, b)[i] == if s[i] == a then b else s[i]
  {
    if s != [] {
      ReplaceCharAt(s[1..], a, b);
    }
  }

  /** `re.sub('[c]', '', s)`: every `c` removed. */
  function RemoveChar(s: string, c: char): (r: string)
    ensures |r| <= |s|
  {
    if s == [] then [] else (if s[0] == c then [] else [s[0]]) + RemoveChar(s[1..], c)
  }

  /** `replace(c, '')` keeps every other character and drops every `c`. */
  lemma {:induction false} RemoveCharMembers(s: string, c: char)
    ensures c !in RemoveChar(s, c)
    ensures forall x :: x in RemoveChar(s, c) <==> x in s && x != c
  {
    if s != [] {
      RemoveCharMembers(s[1..], c);
      assert s == [s[0]] + s[1..];
    }
  }

  predicate IsDigit(c: char) {
    '0' <= c <= '9'
  }

  predicate AllDigits(s: string) {
    forall i :: 0 <= i < |s| ==> IsDigit(s[i])
  }

  function DigitChar(d: nat): (c: char)
    requires d < 10
    ensures IsDigit(c) && (c as int) - ('0' as int) == d
  {
    (('0' as int) + d) as char
  }

  /** `str(n)` for a natural number */
  function NatToDecimal(n: nat): (s: string)
    ensures s != [] && AllDigits(s)
    ensures |s| > 1 ==> s[0] != '0'
  {
    if n < 10 then [DigitChar(n)] else NatToDecimal(n / 10) + [DigitChar(n % 10)]
  }

  /** `str(i)` for an integer */
  function IntToDecimal(i: int): string {
    if i < 0 then "-" + NatToDecimal(-i) else NatToDecimal(i)
  }

  /** `f"{n:0wd}"`: the decimal digits of `n`, left-padded with '0' to `width`. */
  function ZeroPad(n: nat, width: nat): (s: string)
    ensures |s| == if |NatToDecimal(n)| < width then width else |NatToDecimal(n)|
    ensures AllDigits(s)
    ensures NatToDecimal(n) <= s[|s| - |NatToDecimal(n)|..] && s[|s| - |NatToDecimal(n)|..] == NatToDecimal(n)
  {
    var d := NatToDecimal(n);
    if |d| < width then seq(width - |d|, _ => '0') + d else d
  }

  /** The value of a string of decimal digits. */
  function DecimalValue(s: string): nat
    requires AllDigits(s)
  {
    if s == [] then 0 else 10 * DecimalValue(s[..|s| - 1]) + ((s[|s| - 1] as int) - ('0' as int))
  }

  lemma {:induction false} DecimalValueOfNat(n: nat)
    ensures DecimalValue(NatToDecimal(n)) == n
  {
    if n >= 10 {
      var s := NatToDecimal(n);
      assert s[..|s| - 1] == NatToDecimal(n / 10);
      DecimalValueOfNat(n / 10);
    }
  }

  /** Leading zeros do not change a decimal value. */
  lemma {:induction false} DecimalValueLeadingZeros(z: string, d: string)
    requires AllDigits(d) && forall i :: 0 <= i < |z| ==> z[i] == '0'
    ensures AllDigits(z + d) && DecimalValue(z + d) == DecimalValue(d)
    decreases |z| + |d|
  {
    if d == [] {
      assert z + d == z;
      if z != [] {
        DecimalValueLeadingZeros(z[..|z| - 1], []);
        assert z[..|z| - 1] + [] == z[..|z| - 1];
      }
    } else {
      assert (z + d)[..|z + d| - 1] == z + d[..|d| - 1];
      DecimalValueLeadingZeros(z, d[..|d| - 1]);
    }
  }

  /** Zero padding keeps the value, so distinct numbers pad to distinct strings. */
  lemma ZeroPadValue(n: nat, width: nat)
    ensures DecimalValue(ZeroPad(n, width)) == n
  {
    var d := NatToDecimal(n);
    DecimalValueOfNat(n);
    if |d| < width {
      var z: string := seq(width - |d|, _ => '0');
      assert ZeroPad(n, width) == z + d;
      DecimalValueLeadingZeros(z, d);
    }
  }

  /**
   * The digits of a Python integer literal body: digits with single underscores
   * allowed between them (`"1_000"`), with the underscores removed; None when the
   * text is not of that form.
   */
  function DigitsOf(t: string): (r: Option<string>)
    ensures r.Some? ==> AllDigits(r.value) && r.value != []
    decreases |t|
  {
    if t == [] || !IsDigit(t[0]) then None
    else if |t| == 1 then Some(t)
    else if t[1] == '_' then
      (if |t| >= 3 && IsDigit(t[2]) then
         match DigitsOf(t[2..])
         case Some(ds) => Some([t[0]] + ds)
         case None => None
       else None)
    else
      match DigitsOf(t[1..])
      case Some(ds) => Some([t[0]] + ds)
      case None => None
  }

  lemma {:induction false} DigitsOfDigits(t: string)
    requires t != [] && AllDigits(t)
    ensures DigitsOf(t) == Some(t)
  {
    if |t| > 1 {
      DigitsOfDigits(t[1..]);
      assert [t[0]] + t[1..] == t;
    }
  }

  /**
   * `int(s)` on a string with no surrounding whitespace: an optional sign, then
   * decimal digits (single underscores between digits allowed). None stands for
   * the ValueError Python raises on anything else.
   */
  function ParseInt(s: string): (r: Option<int>)
    ensures r.Some? ==> s != []
  {
    if s != [] && (s[0] == '-' || s[0] == '+') then
      match DigitsOf(s[1..])
      case Some(ds) => Some(if s[0] == '-' then 0 - DecimalValue(ds) as int else DecimalValue(ds) as int)
      case None => None
    else
      match DigitsOf(s)
      case Some(ds) => Some(DecimalValue(ds))
      case None => None
  }

  /** `int(str(i)) == i` */
  lemma ParseIntDecimal(i: int)
    ensures ParseInt(IntToDecimal(i)) == Some(i)
  {
    if i < 0 {
      var s := IntToDecimal(i);
      assert s[1..] == NatToDecimal(-i);
      DigitsOfDigits(NatToDecimal(-i));
      DecimalValueOfNat(-i);
    } else {
      DigitsOfDigits(NatToDecimal(i));
      DecimalValueOfNat(i);
    }
  }
}
