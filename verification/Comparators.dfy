/** Output comparison: exact, token and float, and how they are ordered by strictness. */
module Comparators {
  import opened Text
  import opened Numbers

  datatype CompareResult = CompareResult(matches: bool, presentationError: bool)

  datatype ComparatorKind = TokenKind | ExactKind | FloatKind | CustomKind

  const FLOAT_EPSILON := 0.000001

  // What Number(token) gives.
  datatype Number = NotANumber | Infinite(negative: bool) | Finite(value: real)

  function DropNewline(s: string): string {
    if s != "" && s[|s| - 1] == '\n' then s[..|s| - 1] else s
  }

  function Exact(expected: string, actual: string): CompareResult {
    CompareResult(DropNewline(UnixLines(expected)) == DropNewline(UnixLines(actual)), false)
  }

  function Token(expected: string, actual: string): CompareResult {
    if Tokenize(expected) != Tokenize(actual) then CompareResult(false, false)
    else CompareResult(true, TrimEnd(UnixLines(expected)) != TrimEnd(UnixLines(actual)))
  }

  // One pass of the loop: is the pair of tokens let through?  An infinite expected value makes the
  // relative error NaN, which is not greater than anything.
  function TokenClose(num: string -> Number, e: string, a: string): bool {
    match (num(e), num(a))
    case (NotANumber, _) => e == a
    case (_, NotANumber) => e == a
    case (Infinite(_), _) => true
    case (Finite(_), Infinite(_)) => false
    case (Finite(en), Finite(an)) =>
      var diff := Abs(en - an);
      var rel := diff / Max(1.0, Abs(en));
      !(diff > FLOAT_EPSILON && rel > FLOAT_EPSILON)
  }

  predicate FloatMatches(num: string -> Number, expected: string, actual: string) {
    var te, ta := Tokenize(expected), Tokenize(actual);
    |te| == |ta| && forall i :: 0 <= i < |te| ==> TokenClose(num, te[i], ta[i])
  }

  method Float(num: string -> Number, expected: string, actual: string) returns (r: CompareResult)
    ensures r == CompareResult(FloatMatches(num, expected, actual), false)
  {
    hide Tokenize, TokenClose;
    var te, ta := Tokenize(expected), Tokenize(actual);
    if |te| != |ta| {
      return CompareResult(false, false);
    }
    for i := 0 to |te|
      invariant forall j :: 0 <= j < i ==> TokenClose(num, te[j], ta[j])
    {
      if !TokenClose(num, te[i], ta[i]) {
        return CompareResult(false, false);
      }
    }
    return CompareResult(true, false);
  }

  // A custom checker is not plugged in: CUSTOM falls back to tokens.
  function Compare(num: string -> Number, kind: ComparatorKind, expected: string, actual: string): CompareResult {
    match kind
    case ExactKind => Exact(expected, actual)
    case FloatKind => CompareResult(FloatMatches(num, expected, actual), false)
    case TokenKind => Token(expected, actual)
    case CustomKind => Token(expected, actual)
  }

  // ── the hierarchy ────────────────────────────────────────────────

  lemma DropNewlineHarmless(s: string)
    ensures Words(DropNewline(s)) == Words(s) && TrimEnd(DropNewline(s)) == TrimEnd(s)
  {
    if s != "" && s[|s| - 1] == '\n' {
      assert s == s[..|s| - 1] + ['\n'];
      TrailingSpace(s[..|s| - 1], '\n');
    }
  }

  /** An exact match is a token match, and without a presentation error. */
  lemma ExactImpliesToken(expected: string, actual: string)
    requires Exact(expected, actual).matches
    ensures Token(expected, actual) == CompareResult(true, false)
  {
    forall s: string | s == expected || s == actual
      ensures Tokenize(s) == Words(DropNewline(UnixLines(s)))
              && TrimEnd(UnixLines(s)) == TrimEnd(DropNewline(UnixLines(s)))
    {
      TokenizeFindsWords(s);
      UnixLinesWords(s);
      DropNewlineHarmless(UnixLines(s));
    }
  }

  /** A token match is a float match, whatever the tokens read as. */
  lemma TokenImpliesFloat(num: string -> Number, expected: string, actual: string)
    requires Token(expected, actual).matches
    ensures FloatMatches(num, expected, actual)
  {
    hide Tokenize;
    forall t: string ensures TokenClose(num, t, t) {
      CloseToItself(num, t);
    }
  }

  lemma CloseToItself(num: string -> Number, t: string)
    ensures TokenClose(num, t, t)
  {
  }

  /**
    Numeric tokens are accepted exactly when they differ by at most epsilon, absolutely or relative to the expected
    value; an infinite expected value accepts every number.
  */
  lemma FloatTolerance(num: string -> Number, e: string, a: string)
    requires num(e) != NotANumber && num(a) != NotANumber
    ensures TokenClose(num, e, a) <==>
              num(e).Infinite? ||
              (num(a).Finite? && Abs(num(e).value - num(a).value) <= 0.000001 * Max(1.0, Abs(num(e).value)))
  {
    if num(e).Finite? && num(a).Finite? {
      AbsoluteOrRelative(Abs(num(e).value - num(a).value), Max(1.0, Abs(num(e).value)));
    }
  }

  lemma AbsoluteOrRelative(diff: real, scale: real)
    requires diff >= 0.0 && scale >= 1.0
    ensures !(diff > FLOAT_EPSILON && diff / scale > FLOAT_EPSILON) <==> diff <= FLOAT_EPSILON * scale
  {
    var rel := diff / scale;
    var bound := FLOAT_EPSILON * scale;
    assert rel * scale == diff;
    assert bound >= FLOAT_EPSILON;
    if rel > FLOAT_EPSILON {
      ScaleUp(FLOAT_EPSILON, rel, scale);
      assert diff > bound >= FLOAT_EPSILON;
    } else {
      ScaleUp(rel, FLOAT_EPSILON, scale);
      assert diff <= bound;
    }
  }

  // ── the token comparison ignores layout, and nothing else ────────

  /** Two outputs match by token exactly when they consist of the same words. */
  lemma TokenMatchesWords(expected: string, actual: string)
    ensures Token(expected, actual).matches <==> Words(expected) == Words(actual)
  {
    TokenizeFindsWords(expected);
    TokenizeFindsWords(actual);
  }

  lemma NoWords()
    ensures Words("") == []
  {
  }

  /**
    White space may be laid out in any way: any stretch of it can be replaced by any other, at either end also by
    nothing.
  */
  lemma LayoutIsIgnored(before: string, space: string, after: string, space': string)
    requires space != "" && AllSpace(space) && space' != "" && AllSpace(space')
    ensures Token(before + space + after, before + space' + after).matches
    ensures Token(space + after, after).matches && Token(before + space, before).matches
    ensures Token(UnixLines(before), before).matches
  {
    hide IsSpace, Token, Tokenize, UnixLines, Words;
    NoWords();
    WordsSeparate(before, space, after);
    WordsSeparate(before, space', after);
    WordsSeparate("", space, after);
    WordsSeparate(before, space, "");
    assert "" + space + after == space + after && before + space + "" == before + space;
    TokenMatchesWords(before + space + after, before + space' + after);
    TokenMatchesWords(space + after, after);
    TokenMatchesWords(before + space, before);
    UnixLinesWords(before);
    TokenMatchesWords(UnixLines(before), before);
  }

  /** Tokens joined by single spaces are tokenized back to themselves; so every output matches its own normal form. */
  lemma TokenizeRoundTrip(ts: seq<string>, s: string)
    requires forall i :: 0 <= i < |ts| ==> IsWord(ts[i])
    ensures Tokenize(Join(ts, " ")) == ts
    ensures Token(Join(Tokenize(s), " "), s).matches
  {
    TokenizeFindsWords(Join(ts, " "));
    JoinedWords(ts);
    TokenizeFindsWords(s);
    WordsAreWords(s);
    JoinedWords(Words(s));
    TokenizeFindsWords(Join(Words(s), " "));
  }

  // ── spacing errors, and tokens that are no numbers ───────────────

  lemma {:induction false} TrimEndDrops(core: string, space: string)
    requires AllSpace(space)
    ensures TrimEnd(core + space) == TrimEnd(core)
    decreases |space|
  {
    hide IsSpace;
    if space == "" {
      assert core + space == core;
    } else {
      var shorter := space[..|space| - 1];
      assert (core + space)[..|core + space| - 1] == core + shorter;
      assert (core + space)[|core + space| - 1] == space[|space| - 1];
      TrimEndDrops(core, shorter);
    }
  }

  lemma {:induction false} TrimEndRest(s: string) returns (space: string)
    ensures AllSpace(space) && s == TrimEnd(s) + space
  {
    hide IsSpace;
    space := "";
    if s != "" && IsSpace(s[|s| - 1]) {
      var rest := TrimEndRest(s[..|s| - 1]);
      space := rest + [s[|s| - 1]];
    }
  }

  // One text, but for line endings and white space at the end.
  ghost predicate SameButForTheEnd(expected: string, actual: string) {
    exists core, s1, s2 ::
      AllSpace(s1) && AllSpace(s2) && UnixLines(expected) == core + s1 && UnixLines(actual) == core + s2
  }

  lemma SameButForTheEndIs(expected: string, actual: string)
    ensures SameButForTheEnd(expected, actual) <==> TrimEnd(UnixLines(expected)) == TrimEnd(UnixLines(actual))
  {
    hide UnixLines, TrimEnd, AllSpace;
    var e, a := UnixLines(expected), UnixLines(actual);
    var s1 := TrimEndRest(e);
    var s2 := TrimEndRest(a);
    if TrimEnd(e) == TrimEnd(a) {
      assert e == TrimEnd(e) + s1 && a == TrimEnd(e) + s2;
    }
    if core, t1, t2 :| AllSpace(t1) && AllSpace(t2) && e == core + t1 && a == core + t2 {
      TrimEndDrops(core, t1);
      TrimEndDrops(core, t2);
    }
  }

  /**
    By tokens, outputs of the same words are accepted as they stand exactly if they are one text but for
    line endings and white space at the end, and with a spacing error otherwise; other words never match.
  */
  lemma SpacingErrorExactly(expected: string, actual: string)
    ensures Token(expected, actual)
            == if Words(expected) != Words(actual) then CompareResult(false, false)
               else CompareResult(true, !SameButForTheEnd(expected, actual))
  {
    TokenizeFindsWords(expected);
    TokenizeFindsWords(actual);
    SameButForTheEndIs(expected, actual);
  }

  /** A token that is no number, expected or given, matches itself only. */
  lemma NonNumbersMatchThemselves(num: string -> Number, e: string, a: string)
    requires num(e) == NotANumber || num(a) == NotANumber
    ensures TokenClose(num, e, a) <==> e == a
  {
  }

  predicate EndsLine(s: string) {
    s != "" && s[|s| - 1] == '\n'
  }

  // b is a with one newline more, where a has none.
  predicate OneNewlineMore(a: string, b: string) {
    !EndsLine(a) && b == a + "\n"
  }

  /**
    Exactly means: the same but for line endings, and but for one newline at the end of one of the two where the
    other has none.
  */
  lemma ExactMatches(expected: string, actual: string)
    ensures !Exact(expected, actual).presentationError
    ensures Exact(expected, actual).matches <==>
              var e, a := UnixLines(expected), UnixLines(actual);
              e == a || OneNewlineMore(e, a) || OneNewlineMore(a, e)
  {
    hide UnixLines;
    SameWithoutNewline(UnixLines(expected), UnixLines(actual));
  }

  lemma SameWithoutNewline(e: string, a: string)
    ensures DropNewline(e) == DropNewline(a) <==> e == a || OneNewlineMore(e, a) || OneNewlineMore(a, e)
  {
    NewlineBack(e);
    NewlineBack(a);
    NewlineGone(e);
    NewlineGone(a);
  }

  lemma NewlineBack(s: string)
    ensures s == if EndsLine(s) then DropNewline(s) + "\n" else DropNewline(s)
  {
  }

  lemma NewlineGone(s: string)
    ensures DropNewline(s + "\n") == s
  {
  }
}
