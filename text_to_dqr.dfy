/**
 * The parsing tail of `text_to_dqr`: the model's reply `"<level>; <comment>"` is
 * stripped, split at its first ';', and turned into an integer DQR level and a
 * stripped comment. Every way the reply can be malformed ends in a ValueError,
 * modelled as a `Failure` that carries the stripped reply the message quotes.
 */
module TextToDqr {
  import opened Wrappers
  import opened PyStr

  /** The two ValueErrors: no ';' at all, or a level that `int()` rejects. */
  datatype ReplyError = UnexpectedFormat(result: string) | ParseFailure(result: string)

  datatype Dqr = Dqr(level: int, comment: string)

  /** `text_to_dqr` after the chat call, on the reply's message content. */
  function ParseReply(content: string): (r: Result<Dqr, ReplyError>)
    ensures r.Failure? ==> r.error.result == Strip(content)
    ensures r == Failure(UnexpectedFormat(Strip(content))) <==> ';' !in Strip(content)
    ensures r.Success? ==> Trimmed(r.value.comment)
    ensures ';' in Strip(content) ==>
              var parts := SplitFirst(Strip(content), ';');
              && (r.Success? <==> ParseInt(Strip(parts.0)).Some?)
              && (r.Success? ==> r.value == Dqr(ParseInt(Strip(parts.0)).value, Strip(parts.1)))
  {
    var result := Strip(content);
    if ';' !in result then Failure(UnexpectedFormat(result))
    else
      var (levelText, comment) := SplitFirst(result, ';');
      StripTrimmed(comment);
      match ParseInt(Strip(levelText))
      case None => Failure(ParseFailure(result))
      case Some(level) => Success(Dqr(level, Strip(comment)))
  }

  /** The answer the prompt asks for: the level, "; " and the comment. */
  function FormatReply(d: Dqr): string {
    IntToDecimal(d.level) + "; " + d.comment
  }

  lemma DecimalNoSeparator(i: int)
    ensures ';' !in IntToDecimal(i) && IntToDecimal(i) != [] && Trimmed(IntToDecimal(i))
  {
    var s := IntToDecimal(i);
    if i < 0 {
      assert s == "-" + NatToDecimal(-i);
      assert forall k :: 1 <= k < |s| ==> s[k] == NatToDecimal(-i)[k - 1];
    }
    assert forall k :: 0 <= k < |s| ==> s[k] == '-' || IsDigit(s[k]);
  }

  /** The whole formatted reply has no surrounding whitespace once the comment is dropped or kept. */
  lemma FormattedStrip(n: string, c: string)
    requires n != [] && Trimmed(n) && Trimmed(c)
    ensures Strip(n + "; " + c) == if c == [] then n + ";" else n + "; " + c
  {
    var t := n + ";";
    assert Trimmed(t) by { assert t[0] == n[0]; }
    if c == [] {
      assert n + "; " + c == t + " ";
      assert Lstrip(t + " ") == t + " " by { assert (t + " ")[0] == n[0]; }
      RstripSpace(t);
    } else {
      var s := n + "; " + c;
      assert s[0] == n[0] && s[|s| - 1] == c[|c| - 1];
      TrimmedStrip(s);
    }
  }

  /**
   * A reply in the requested format, with any level and any comment that carries
   * no surrounding whitespace (it may itself contain ';'), is parsed back exactly.
   * The level is any integer: nothing checks it against the DQR range 0..8.
   */
  lemma ParseFormatted(d: Dqr)
    requires Trimmed(d.comment)
    ensures ParseReply(FormatReply(d)) == Success(d)
  {
    var n := IntToDecimal(d.level);
    DecimalNoSeparator(d.level);
    FormattedStrip(n, d.comment);
    TrimmedStrip(n);
    ParseIntDecimal(d.level);
    if d.comment == [] {
      assert n + ";" == n + [';'] + [];
      SplitFirstSeparator(n, ';', []);
    } else {
      assert n + "; " + d.comment == n + [';'] + (" " + d.comment);
      SplitFirstSeparator(n, ';', " " + d.comment);
      LstripSpace(d.comment);
      TrimmedStrip(d.comment);
    }
  }

  /** Whitespace around the whole reply does not matter: it is stripped first. */
  lemma ParsePadded(content: string)
    ensures ParseReply(" " + Strip(content) + " ") == ParseReply(content)
  {
    StripTrimmed(content);
    StripPadded(Strip(content));
    StripIdempotent(content);
  }
}
