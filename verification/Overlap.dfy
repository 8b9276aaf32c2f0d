/**
  The coach's response validator: what of a model's answer may be shown.

  The detector compares windows of twelve words of the withheld editorial with the answer, but only
  every sixth window.  How much must be quoted to be caught, however it is laid out, is proved here,
  and what the validator then shows.
*/
module Overlap {
  import opened Wrappers
  import opened Text

  const WINDOW := 12
  const STRIDE := 6
  const MIN_EDITORIAL := 40
  const MIN_HIDDEN_INPUT := 8
  const MAX_CODE := 400
  const MAX_SUMMARY := 1200
  const MAX_POINTS := 8
  const MAX_POINT := 500

  // Literals are cut where one is too long for the verifier to look inside.
  const SCRUBBED_SUMMARY := "Here is a hint to guide you " + "without giving away the answer."
  const SCRUBBED_POINT := "Re-read the constraints and " + "think about which " + "data structure fits."
  const EMPTY_SUMMARY := "Let me help you think " + "through this problem."
  const OMITTED := "[code omitted — try " + "implementing this yourself]"

  // What is withheld; `lower` stands for toLowerCase.
  datatype Context = Context(editorial: Option<string>, hiddenInputs: seq<string>, lower: string -> string)

  // .includes(t)
  predicate Includes(s: string, t: string) {
    |t| <= |s| && (s[..|t|] == t || Includes(s[1..], t))
  }

  // .replace(/\s+/g, ' ')
  function Collapse(s: string): string
    decreases |s|
  {
    if s == "" then ""
    else if IsSpace(s[0]) then
      SkipSpaceShrinks(s);
      " " + Collapse(SkipSpace(s))
    else [s[0]] + Collapse(s[1..])
  }

  // .split(' ')
  function SplitAtSpaces(s: string): (ws: seq<string>)
    ensures |ws| >= 1
  {
    if s == "" then [""]
    else
      var rest := SplitAtSpaces(s[1..]);
      if s[0] == ' ' then [""] + rest else [[s[0]] + rest[0]] + rest[1..]
  }

  function Norm(ctx: Context, s: string): string {
    Collapse(ctx.lower(s))
  }

  function Window(ws: seq<string>, i: nat): string
    requires i + WINDOW <= |ws|
  {
    Join(ws[i..i + WINDOW], " ")
  }

  // ── the detector ─────────────────────────────────────────────────

  ghost predicate WindowFound(ws: seq<string>, out: string, i: nat) {
    i + WINDOW <= |ws| && Includes(out, Window(ws, i))
  }

  ghost predicate Detected(ws: seq<string>, out: string) {
    exists i: nat :: i % STRIDE == 0 && WindowFound(ws, out, i)
  }

  ghost predicate LeaksEditorial(ctx: Context, text: string) {
    && ctx.editorial.Some? && |ctx.editorial.value| >= MIN_EDITORIAL
    && Detected(SplitAtSpaces(Norm(ctx, ctx.editorial.value)), Norm(ctx, text))
  }

  method FindEditorial(ctx: Context, text: string) returns (leaks: bool)
    ensures leaks <==> LeaksEditorial(ctx, text)
  {
    hide Includes, Collapse, SplitAtSpaces;
    if ctx.editorial.None? || |ctx.editorial.value| < MIN_EDITORIAL {
      return false;
    }
    var out := Norm(ctx, text);
    var words := SplitAtSpaces(Norm(ctx, ctx.editorial.value));
    var i := 0;
    while i + WINDOW <= |words|
      invariant i % STRIDE == 0
      invariant forall k: nat :: k < i && k % STRIDE == 0 ==> !WindowFound(words, out, k)
    {
      if Includes(out, Join(words[i..i + WINDOW], " ")) {
        assert WindowFound(words, out, i);
        return true;
      }
      NextCompared(i);
      i := i + STRIDE;
    }
    return false;
  }

  lemma NextCompared(i: nat)
    requires i % STRIDE == 0
    ensures (i + STRIDE) % STRIDE == 0
    ensures forall k: nat :: k < i + STRIDE && k % STRIDE == 0 ==> k <= i
  {
  }

  predicate LeaksHiddenTests(ctx: Context, text: string) {
    exists k :: 0 <= k < |ctx.hiddenInputs| && |ctx.hiddenInputs[k]| >= MIN_HIDDEN_INPUT
      && Includes(text, ctx.hiddenInputs[k])
  }

  // ── what is quoted ───────────────────────────────────────────────

  ghost predicate Occurs(s: string, t: string) {
    exists a, b :: s == a + t + b
  }

  lemma StartsThere(t: string, b: string)
    ensures ("" + t + b)[..|t|] == t
  {
  }

  lemma Tail(a: string, t: string, b: string)
    requires a != ""
    ensures (a + t + b)[1..] == a[1..] + t + b
  {
  }

  lemma OccursLater(s: string, t: string)
    requires Occurs(s, t) && |t| <= |s| && s[..|t|] != t
    ensures s != "" && Occurs(s[1..], t)
  {
    var a, b :| s == a + t + b;
    StartsThere(t, b);
    Tail(a, t, b);
  }

  lemma OccursEarlier(s: string, t: string)
    requires s != "" && Occurs(s[1..], t)
    ensures Occurs(s, t)
  {
    var a, b :| s[1..] == a + t + b;
    assert s == ([s[0]] + a) + t + b;
  }

  lemma {:induction false} IncludesIsOccurs(s: string, t: string)
    ensures Includes(s, t) <==> Occurs(s, t)
  {
    if |t| <= |s| {
      if s[..|t|] == t {
        assert s == "" + t + s[|t|..];
      } else {
        hide Occurs;
        IncludesIsOccurs(s[1..], t);
        if Occurs(s[1..], t) { OccursEarlier(s, t); }
        if Occurs(s, t) { OccursLater(s, t); }
      }
    }
  }

  lemma OccursWithin(s: string, t: string, u: string)
    requires Occurs(s, t) && Occurs(t, u)
    ensures Occurs(s, u)
  {
    var a, b :| s == a + t + b;
    var c, d :| t == c + u + d;
    assert s == (a + c) + u + (d + b);
  }

  lemma Regrouped(a: string, b: string, c: string, d: string, e: string)
    ensures a + b + (c + d + e) == (a + b + c) + d + e
  {
  }

  lemma {:induction false} JoinAppend(xs: seq<string>, ys: seq<string>, sep: string)
    requires xs != [] && ys != []
    ensures Join(xs + ys, sep) == Join(xs, sep) + sep + Join(ys, sep)
  {
    var all, rest := xs + ys, xs[1..];
    assert all[0] == xs[0] && all[1..] == rest + ys;
    if |xs| == 1 {
      assert rest + ys == ys;
    } else {
      JoinAppend(rest, ys, sep);
      Regrouped(xs[0], sep, Join(rest, sep), sep, Join(ys, sep));
    }
  }

  lemma HeadOccurs(xs: seq<string>, ys: seq<string>)
    requires xs != []
    ensures Occurs(Join(xs + ys, " "), Join(xs, " "))
  {
    hide Join;
    var whole, head := Join(xs + ys, " "), Join(xs, " ");
    if ys == [] {
      assert xs + ys == xs;
      assert whole == "" + head + "";
    } else {
      JoinAppend(xs, ys, " ");
      assert whole == "" + head + (" " + Join(ys, " "));
    }
  }

  lemma TailOccurs(xs: seq<string>, ys: seq<string>)
    requires ys != []
    ensures Occurs(Join(xs + ys, " "), Join(ys, " "))
  {
    hide Join;
    var whole, tail := Join(xs + ys, " "), Join(ys, " ");
    if xs == [] {
      assert xs + ys == ys;
      assert whole == "" + tail + "";
    } else {
      JoinAppend(xs, ys, " ");
      assert whole == (Join(xs, " ") + " ") + tail + "";
    }
  }

  // A stretch of words occurs in the joined whole.
  lemma StretchOccurs(ws: seq<string>, i: nat, j: nat)
    requires i < j <= |ws|
    ensures Occurs(Join(ws, " "), Join(ws[i..j], " "))
  {
    hide Join, Occurs;
    var before, mid, after := ws[..i], ws[i..j], ws[j..];
    assert ws == before + (mid + after);
    TailOccurs(before, mid + after);
    HeadOccurs(mid, after);
    OccursWithin(Join(ws, " "), Join(mid + after, " "), Join(mid, " "));
  }

  lemma {:induction false} CollapseSplits(s: string)
    ensures SplitAtSpaces(Collapse(s)) == SplitRuns(s)
    decreases |s|
  {
    if s != "" {
      if IsSpace(s[0]) {
        SkipSpaceShrinks(s);
        CollapseSplits(SkipSpace(s));
        assert Collapse(s)[1..] == Collapse(SkipSpace(s));
      } else {
        CollapseSplits(s[1..]);
        assert Collapse(s)[1..] == Collapse(s[1..]);
      }
    }
  }

  lemma {:induction false} SplitJoins(s: string)
    ensures Join(SplitAtSpaces(s), " ") == s
  {
    if s != "" {
      var rest := SplitAtSpaces(s[1..]);
      SplitJoins(s[1..]);
      if s[0] == ' ' {
        assert Join([""] + rest, " ") == "" + " " + Join(rest, " ");
      } else {
        var first := [s[0]] + rest[0];
        assert ([first] + rest[1..])[1..] == rest[1..];
        assert Join([first] + rest[1..], " ") == [s[0]] + Join(rest, " ");
      }
      assert [s[0]] + s[1..] == s;
    }
  }

  // Text as the detector sees it: its words, cut at any white space, in lower case.
  function WordsOf(ctx: Context, s: string): seq<string> {
    SplitRuns(ctx.lower(s))
  }

  lemma NormIsWords(ctx: Context, s: string)
    ensures SplitAtSpaces(Norm(ctx, s)) == WordsOf(ctx, s) && Norm(ctx, s) == Join(WordsOf(ctx, s), " ")
  {
    CollapseSplits(ctx.lower(s));
    SplitJoins(Norm(ctx, s));
  }

  ghost predicate SameStretch(ed: seq<string>, i: nat, ws: seq<string>, j: nat, n: nat) {
    i + n <= |ed| && j + n <= |ws| && ed[i..i + n] == ws[j..j + n]
  }

  // n consecutive words of the editorial follow each other in the text.
  ghost predicate Quotes(ed: seq<string>, ws: seq<string>, n: nat) {
    exists i: nat, j: nat :: SameStretch(ed, i, ws, j, n)
  }

  // n consecutive words of the editorial, from word i on, stand verbatim in the normalised text.
  ghost predicate Verbatim(ed: seq<string>, out: string, i: nat, n: nat) {
    i + n <= |ed| && Occurs(out, Join(ed[i..i + n], " "))
  }

  lemma WindowIn17(j: nat) returns (i: nat)
    ensures i % STRIDE == 0 && j <= i && i + WINDOW <= j + 17
  {
    i := (j + 5) / 6 * 6;
  }

  lemma SliceOfSlice(ws: seq<string>, j: nat, n: nat, i: nat, m: nat)
    requires j <= i && i + m <= j + n <= |ws|
    ensures ws[j..j + n][i - j..i - j + m] == ws[i..i + m]
  {
    var outer := ws[j..j + n];
    var inner := outer[i - j..i - j + m];
    assert forall k :: 0 <= k < m ==> inner[k] == outer[i - j + k] == ws[i + k];
  }

  lemma StretchDetected(ed: seq<string>, out: string, j: nat)
    requires Verbatim(ed, out, j, 17)
    ensures Detected(ed, out)
  {
    hide Join, Includes, Occurs;
    var i := WindowIn17(j);
    var stretch := ed[j..j + 17];
    SliceOfSlice(ed, j, 17, i, WINDOW);
    StretchOccurs(stretch, i - j, i - j + WINDOW);
    OccursWithin(out, Join(stretch, " "), Window(ed, i));
    IncludesIsOccurs(out, Window(ed, i));
    assert WindowFound(ed, out, i);
  }

  lemma QuotedIsVerbatim(ed: seq<string>, ws: seq<string>, i: nat, j: nat)
    requires SameStretch(ed, i, ws, j, 17)
    ensures Verbatim(ed, Join(ws, " "), i, 17)
  {
    StretchOccurs(ws, j, j + 17);
  }

  /**
    Although only every sixth window is compared, no quotation of 17 consecutive words escapes: not if it
    stands verbatim in the normalised text, and not if its words follow each other in any layout and case.
  */
  lemma SeventeenWordsAreCaught(ctx: Context, text: string)
    requires ctx.editorial.Some? && |ctx.editorial.value| >= 40
    requires var ed := WordsOf(ctx, ctx.editorial.value);
             Quotes(ed, WordsOf(ctx, text), 17) || exists i: nat :: Verbatim(ed, Norm(ctx, text), i, 17)
    ensures LeaksEditorial(ctx, text)
  {
    hide Join, SplitRuns, Collapse, SplitAtSpaces, Occurs, Detected, Verbatim, SameStretch;
    var ed, ws, out := WordsOf(ctx, ctx.editorial.value), WordsOf(ctx, text), Norm(ctx, text);
    NormIsWords(ctx, ctx.editorial.value);
    NormIsWords(ctx, text);
    if Quotes(ed, ws, 17) {
      var i: nat, j: nat :| SameStretch(ed, i, ws, j, 17);
      QuotedIsVerbatim(ed, ws, i, j);
    }
    var i: nat :| Verbatim(ed, out, i, 17);
    StretchDetected(ed, out, i);
  }

  lemma FoundIsVerbatim(ed: seq<string>, out: string, i: nat)
    requires WindowFound(ed, out, i)
    ensures Verbatim(ed, out, i, WINDOW)
  {
    IncludesIsOccurs(out, Window(ed, i));
  }

  /**
    Nothing is flagged without cause: a flagged text contains twelve consecutive words of an editorial that is not
    short.
  */
  lemma FlaggedMeansTwelveWords(ctx: Context, text: string)
    requires LeaksEditorial(ctx, text)
    ensures |ctx.editorial.value| >= 40
    ensures exists i: nat :: Verbatim(WordsOf(ctx, ctx.editorial.value), Norm(ctx, text), i, 12)
  {
    NormIsWords(ctx, ctx.editorial.value);
    var ed, out := WordsOf(ctx, ctx.editorial.value), Norm(ctx, text);
    var i: nat :| WindowFound(ed, out, i);
    FoundIsVerbatim(ed, out, i);
  }

  // ── 16 words are not enough ──────────────────────────────────────

  function Repeat(t: string, n: nat): seq<string> {
    if n == 0 then [] else [t] + Repeat(t, n - 1)
  }

  lemma {:induction false} RepeatIs(t: string, n: nat)
    ensures |Repeat(t, n)| == n && forall i :: 0 <= i < n ==> Repeat(t, n)[i] == t
  {
    if n > 0 { RepeatIs(t, n - 1); }
  }

  predicate Lacks(s: string, c: char) {
    forall i :: 0 <= i < |s| ==> s[i] != c
  }

  lemma {:induction false} JoinLacks(ts: seq<string>, c: char)
    requires c != ' ' && forall i :: 0 <= i < |ts| ==> Lacks(ts[i], c)
    ensures Lacks(Join(ts, " "), c)
  {
    if |ts| > 1 { JoinLacks(ts[1..], c); }
  }

  // One z and sixteen times ab: the only window compared starts with the z.
  const ZAndAbs := ["z"] + Repeat("ab", 16)

  lemma AbsEscape()
    ensures !Detected(ZAndAbs, Join(Repeat("ab", 16), " "))
  {
    var out := Join(Repeat("ab", 16), " ");
    RepeatIs("ab", 16);
    JoinLacks(Repeat("ab", 16), 'z');
    forall i: nat | i % STRIDE == 0 ensures !WindowFound(ZAndAbs, out, i) {
      if WindowFound(ZAndAbs, out, i) {
        FoundIsVerbatim(ZAndAbs, out, i);
        FirstWindowLacks(ZAndAbs, out, i);
      }
    }
  }

  lemma FirstWindowLacks(ed: seq<string>, out: string, i: nat)
    requires |ed| == 17 && ed[0] == "z" && i % STRIDE == 0 && Verbatim(ed, out, i, WINDOW)
    ensures !Lacks(out, 'z')
  {
    assert i == 0;
    StartsWith(ed[0..WINDOW]);
    OccursShares(out, Join(ed[0..WINDOW], " "));
  }

  lemma StartsWith(ts: seq<string>)
    requires |ts| > 1 && ts[0] != ""
    ensures Join(ts, " ") != "" && Join(ts, " ")[0] == ts[0][0]
  {
  }

  lemma OccursShares(s: string, t: string)
    requires Occurs(s, t) && t != ""
    ensures exists i :: 0 <= i < |s| && s[i] == t[0]
  {
    var a, b :| s == a + t + b;
    assert s[|a|] == t[0];
  }

  lemma {:induction false} SplitRunsWord(t: string)
    requires forall i :: 0 <= i < |t| ==> !IsSpace(t[i])
    ensures SplitRuns(t) == [t]
  {
    hide IsSpace;
    if t != "" {
      SplitRunsWord(t[1..]);
      assert [t[0]] + t[1..] == t;
    }
  }

  lemma {:induction false} SplitRunsAfterWord(t: string, rest: string)
    requires forall i :: 0 <= i < |t| ==> !IsSpace(t[i])
    requires rest != "" && !IsSpace(rest[0])
    ensures SplitRuns(t + " " + rest) == [t] + SplitRuns(rest)
  {
    hide IsSpace;
    var s := t + " " + rest;
    if t == "" {
      BlankIsSpace();
      assert s[0] == ' ' && s[1..] == rest;
      assert SkipSpace(s) == SkipSpace(rest) == rest;
    } else {
      assert s[1..] == t[1..] + " " + rest;
      SplitRunsAfterWord(t[1..], rest);
      assert [t[0]] + t[1..] == t;
    }
  }

  lemma BlankIsSpace()
    ensures IsSpace(' ')
  {
  }

  /** Words joined by single blanks are the words the detector sees. */
  lemma {:induction false} SplitRunsJoined(ts: seq<string>)
    requires ts != [] && forall i :: 0 <= i < |ts| ==> IsWord(ts[i])
    ensures SplitRuns(Join(ts, " ")) == ts && Join(ts, " ") != "" && !IsSpace(Join(ts, " ")[0])
  {
    hide IsSpace, SplitRuns;
    assert IsWord(ts[0]);
    if |ts| == 1 {
      SplitRunsWord(ts[0]);
      assert ts == [ts[0]];
    } else {
      var rest := ts[1..];
      assert forall i :: 0 <= i < |rest| ==> rest[i] == ts[i + 1];
      SplitRunsJoined(rest);
      SplitRunsAfterWord(ts[0], Join(rest, " "));
      assert Join(ts, " ") == ts[0] + " " + Join(rest, " ");
      assert [ts[0]] + rest == ts;
    }
  }

  lemma {:induction false} AbsLength(n: nat)
    requires n > 0
    ensures |Join(Repeat("ab", n), " ")| == 3 * n - 1
  {
    if n > 1 {
      AbsLength(n - 1);
      assert Repeat("ab", n)[1..] == Repeat("ab", n - 1);
    }
  }

  predicate Withheld(ctx: Context) {
    ctx.editorial.Some? && |ctx.editorial.value| >= 40
  }

  // Whatever is withheld, a text with a quotation of n consecutive words is flagged.
  ghost predicate QuotationsAreCaught(n: nat) {
    forall ctx, text :: Withheld(ctx) && Quotes(WordsOf(ctx, ctx.editorial.value), WordsOf(ctx, text), n)
      ==> LeaksEditorial(ctx, text)
  }

  const AbContext := Context(Some(Join(ZAndAbs, " ")), [], (s: string) => s)

  lemma AbContextIs()
    ensures var text := Join(Repeat("ab", 16), " ");
            && Withheld(AbContext) && WordsOf(AbContext, AbContext.editorial.value) == ZAndAbs
            && WordsOf(AbContext, text) == Repeat("ab", 16) && Norm(AbContext, text) == text
  {
    hide Join, SplitRuns, Collapse;
    var abs := Repeat("ab", 16);
    RepeatIs("ab", 16);
    forall t | t in {"z", "ab"} ensures IsWord(t) {}
    assert forall i :: 0 <= i < |ZAndAbs| ==> ZAndAbs[i] in {"z", "ab"};
    SplitRunsJoined(ZAndAbs);
    SplitRunsJoined(abs);
    NormIsWords(AbContext, Join(abs, " "));
    AbsLength(16);
    JoinAppend(["z"], abs, " ");
  }

  lemma LongerQuotes(ed: seq<string>, ws: seq<string>, n: nat, m: nat)
    requires m <= n && Quotes(ed, ws, n)
    ensures Quotes(ed, ws, m)
  {
    var i: nat, j: nat :| SameStretch(ed, i, ws, j, n);
    assert ed[i..i + m] == ed[i..i + n][..m] && ws[j..j + m] == ws[j..j + n][..m];
    assert SameStretch(ed, i, ws, j, m);
  }

  lemma AbsAreQuoted()
    ensures Quotes(ZAndAbs, Repeat("ab", 16), 16)
  {
    RepeatIs("ab", 16);
    assert SameStretch(ZAndAbs, 1, Repeat("ab", 16), 0, 16);
  }

  lemma SixteenWordsCanPass()
    ensures !QuotationsAreCaught(16)
  {
    hide Quotes, Detected, Join, WordsOf, Norm;
    AbsAreQuoted();
    AbContextIs();
    AbsEscape();
    NormIsWords(AbContext, AbContext.editorial.value);
    assert !LeaksEditorial(AbContext, Join(Repeat("ab", 16), " "));
  }

  /** Seventeen is exact: quotations of n consecutive words are always caught if and only if n is at least 17. */
  lemma CaughtExactlyFromSeventeen(n: nat)
    ensures QuotationsAreCaught(n) <==> n >= 17
  {
    hide Quotes, LeaksEditorial, WordsOf;
    if n >= 17 {
      forall ctx, text | Withheld(ctx) && Quotes(WordsOf(ctx, ctx.editorial.value), WordsOf(ctx, text), n)
        ensures LeaksEditorial(ctx, text)
      {
        LongerQuotes(WordsOf(ctx, ctx.editorial.value), WordsOf(ctx, text), n, 17);
        SeventeenWordsAreCaught(ctx, text);
      }
    } else {
      SixteenWordsCanPass();
      var ctx, text :| && Withheld(ctx) && Quotes(WordsOf(ctx, ctx.editorial.value), WordsOf(ctx, text), 16)
                       && !LeaksEditorial(ctx, text);
      LongerQuotes(WordsOf(ctx, ctx.editorial.value), WordsOf(ctx, text), 16, n);
    }
  }

  // ── code blocks ──────────────────────────────────────────────────

  const FENCE := "```"

  predicate FenceAt(s: string, i: nat) {
    i + 3 <= |s| && s[i] == s[i + 1] == s[i + 2] == '`'
  }

  function FirstFence(s: string): (r: Option<nat>)
    ensures r.Some? ==> FenceAt(s, r.value) && forall k: nat :: k < r.value ==> !FenceAt(s, k)
    ensures r.None? ==> forall k: nat :: !FenceAt(s, k)
  {
    if FenceAt(s, 0) then Some(0)
    else if |s| < 3 then None
    else match FirstFence(s[1..])
         case Some(k) => (assert forall j: nat :: j > 0 ==> (FenceAt(s, j) <==> FenceAt(s[1..], j - 1)); Some(k + 1))
         case None => (assert forall j: nat :: j > 0 && FenceAt(s, j) ==> FenceAt(s[1..], j - 1); None)
  }

  // Where /```[\s\S]*?```/ first matches, from the opening fence to after the closing one.
  function FirstBlock(s: string): (r: Option<(nat, nat)>)
    ensures r.Some? ==> r.value.0 + 6 <= r.value.1 <= |s|
  {
    match FirstFence(s)
    case None => None
    case Some(i) =>
      match FirstFence(s[i + 3..])
      case None => None
      case Some(k) => Some((i, i + 3 + k + 3))
  }

  function CodeCharCount(s: string): nat
    decreases |s|
  {
    match FirstBlock(s)
    case None => 0
    case Some((i, j)) => j - i + CodeCharCount(s[j..])
  }

  function StripLargeCode(s: string): string
    decreases |s|
  {
    match FirstBlock(s)
    case None => s
    case Some((i, j)) => s[..i] + OMITTED + StripLargeCode(s[j..])
  }

  ghost predicate HasBlock(s: string) {
    exists i: nat, j: nat :: i + 3 <= j && FenceAt(s, i) && FenceAt(s, j)
  }

  lemma FirstBlockFinds(s: string)
    ensures FirstBlock(s).Some? <==> HasBlock(s)
  {
    match FirstFence(s)
    case None =>
    case Some(i) =>
      var rest := s[i + 3..];
      assert forall j: nat :: FenceAt(rest, j) <==> FenceAt(s, j + i + 3);
      if HasBlock(s) {
        var x: nat, y: nat :| x + 3 <= y && FenceAt(s, x) && FenceAt(s, y);
        assert FenceAt(rest, y - i - 3);
      }
  }

  lemma FencesAfter(s: string, t: string, k: nat)
    requires forall i: nat :: !FenceAt(s, i)
    requires FenceAt(s + OMITTED + t, k)
    ensures k >= |s| + |OMITTED| && FenceAt(t, k - |s| - |OMITTED|)
  {
    var whole := s + OMITTED + t;
    OmittedHasNoTick();
    assert k + 3 <= |s| ==> FenceAt(s, k);
    assert forall m :: |s| <= m < |s| + |OMITTED| ==> whole[m] == OMITTED[m - |s|];
  }

  lemma OmittedHasNoTick()
    ensures Lacks(OMITTED, '`')
  {
    assert Lacks("[code omitted — try ", '`');
    assert Lacks("implementing this yourself]", '`');
  }

  lemma FixedTextsHaveNoTick()
    ensures Lacks(SCRUBBED_SUMMARY, '`') && Lacks(SCRUBBED_POINT, '`') && Lacks(EMPTY_SUMMARY, '`')
  {
    assert Lacks("Here is a hint to guide you ", '`') && Lacks("without giving away the answer.", '`');
    assert Lacks("Re-read the constraints and ", '`') && Lacks("think about which ", '`')
           && Lacks("data structure fits.", '`');
    assert Lacks("Let me help you think ", '`') && Lacks("through this problem.", '`');
  }

  /** Stripping leaves no code block behind, and leaves a text without one alone. */
  lemma {:induction false} StrippedHasNoCode(s: string)
    ensures !HasBlock(StripLargeCode(s)) && CodeCharCount(StripLargeCode(s)) == 0
    ensures !HasBlock(s) ==> StripLargeCode(s) == s
    decreases |s|
  {
    FirstBlockFinds(s);
    FirstBlockFinds(StripLargeCode(s));
    match FirstBlock(s)
    case None =>
    case Some((i, j)) =>
      var before, rest := s[..i], StripLargeCode(s[j..]);
      StrippedHasNoCode(s[j..]);
      assert forall k: nat :: FenceAt(before, k) ==> FenceAt(s, k);
      var whole := before + OMITTED + rest;
      if HasBlock(whole) {
        var x: nat, y: nat :| x + 3 <= y && FenceAt(whole, x) && FenceAt(whole, y);
        FencesAfter(before, rest, x);
        FencesAfter(before, rest, y);
      }
  }

  lemma PrefixHasNoCode(s: string, n: nat)
    requires !HasBlock(s) && n <= |s|
    ensures !HasBlock(s[..n])
  {
    assert forall k: nat :: FenceAt(s[..n], k) ==> FenceAt(s, k);
  }

  /**
    Code is counted exactly where there are blocks: nothing without one, at least six characters with one, and never
    more than the text.
  */
  lemma {:induction false} CodeIsCounted(s: string)
    ensures CodeCharCount(s) <= |s|
    ensures if HasBlock(s) then CodeCharCount(s) >= 6 else CodeCharCount(s) == 0
    decreases |s|
  {
    FirstBlockFinds(s);
    match FirstBlock(s)
    case None =>
    case Some((i, j)) => CodeIsCounted(s[j..]);
  }

  /** A hidden input gives an answer away exactly if it has eight characters or more and stands in it verbatim. */
  lemma HiddenInputsFound(ctx: Context, text: string)
    ensures LeaksHiddenTests(ctx, text) <==> exists k, a, b ::
              0 <= k < |ctx.hiddenInputs| && |ctx.hiddenInputs[k]| >= 8 && text == a + ctx.hiddenInputs[k] + b
  {
    hide Includes;
    if LeaksHiddenTests(ctx, text) {
      var k :| 0 <= k < |ctx.hiddenInputs| && |ctx.hiddenInputs[k]| >= 8 && Includes(text, ctx.hiddenInputs[k]);
      IncludesIsOccurs(text, ctx.hiddenInputs[k]);
      var a, b :| text == a + ctx.hiddenInputs[k] + b;
    }
    if k, a, b :| 0 <= k < |ctx.hiddenInputs| && |ctx.hiddenInputs[k]| >= 8 && text == a + ctx.hiddenInputs[k] + b {
      assert Occurs(text, ctx.hiddenInputs[k]);
      IncludesIsOccurs(text, ctx.hiddenInputs[k]);
    }
  }

  // ── what is shown ────────────────────────────────────────────────

  datatype Shown = Shown(summary: string, points: seq<string>)

  function Trim(s: string): string {
    TrimEnd(SkipSpace(s))
  }

  function Haystack(summary: string, points: seq<string>, complexity: string): string {
    Join([Trim(summary)] + points + [complexity], "\n")
  }

  function Clip(s: string, n: nat): string {
    if |s| <= n then s else s[..n]
  }

  function ClipAll(ps: seq<string>): seq<string> {
    if ps == [] then [] else [Clip(ps[0], MAX_POINT)] + ClipAll(ps[1..])
  }

  function StripAll(ps: seq<string>): seq<string> {
    if ps == [] then [] else [StripLargeCode(ps[0])] + StripAll(ps[1..])
  }

  function ClipPoints(ps: seq<string>): seq<string> {
    ClipAll(if |ps| <= MAX_POINTS then ps else ps[..MAX_POINTS])
  }

  function Bounded(summary: string, points: seq<string>): Shown {
    var s := Clip(summary, MAX_SUMMARY);
    Shown(if s == "" then EMPTY_SUMMARY else s, ClipPoints(points))
  }

  ghost predicate Leaks(ctx: Context, text: string) {
    LeaksEditorial(ctx, text) || LeaksHiddenTests(ctx, text)
  }

  /** Nothing that is shown escapes the checks: they look at the summary, every point and the complexity. */
  lemma HaystackHoldsAll(summary: string, points: seq<string>, complexity: string)
    ensures var text := Haystack(summary, points, complexity);
            && Occurs(text, Trim(summary)) && Occurs(text, complexity)
            && forall k :: 0 <= k < |points| ==> Occurs(text, points[k])
  {
    hide Trim, Occurs;
    var parts := [Trim(summary)] + points + [complexity];
    assert parts[0] == Trim(summary) && parts[|parts| - 1] == complexity;
    PartOccurs(parts, 0);
    PartOccurs(parts, |parts| - 1);
    forall k | 0 <= k < |points| ensures Occurs(Haystack(summary, points, complexity), points[k]) {
      assert parts[k + 1] == points[k];
      PartOccurs(parts, k + 1);
    }
  }

  lemma {:induction false} PartOccurs(parts: seq<string>, k: nat)
    requires k < |parts|
    ensures Occurs(Join(parts, "\n"), parts[k])
  {
    if |parts| == 1 {
      assert parts[0] == "" + parts[0] + "";
    } else if k == 0 {
      assert Join(parts, "\n") == "" + parts[0] + ("\n" + Join(parts[1..], "\n"));
    } else {
      PartOccurs(parts[1..], k - 1);
      assert Join(parts, "\n") == (parts[0] + "\n") + Join(parts[1..], "\n") + "";
      OccursWithin(Join(parts, "\n"), Join(parts[1..], "\n"), parts[k]);
    }
  }

  /** A hidden input of eight characters or more that stands in any point is scrubbed with everything else. */
  lemma HiddenInputInAPoint(ctx: Context, summary: string, points: seq<string>, complexity: string, k: nat, j: nat)
    requires k < |points| && j < |ctx.hiddenInputs| && |ctx.hiddenInputs[j]| >= 8
    requires Occurs(points[k], ctx.hiddenInputs[j])
    ensures Leaks(ctx, Haystack(summary, points, complexity))
  {
    hide Includes, Haystack, Occurs, LeaksEditorial;
    var text := Haystack(summary, points, complexity);
    HaystackHoldsAll(summary, points, complexity);
    OccursWithin(text, points[k], ctx.hiddenInputs[j]);
    IncludesIsOccurs(text, ctx.hiddenInputs[j]);
  }

  // The summary and points of the response; `complexity` is that field of the answer as JSON text.
  method Validate(ctx: Context, rawSummary: string, rawPoints: seq<string>, complexity: string) returns (shown: Shown)
    ensures var text := Haystack(rawSummary, rawPoints, complexity);
            var strip := CodeCharCount(text) > 400;
            && (Leaks(ctx, text) ==> shown == Shown(SCRUBBED_SUMMARY, [SCRUBBED_POINT]))
            && (!Leaks(ctx, text) && !strip ==> shown == Bounded(Trim(rawSummary), rawPoints))
            && (!Leaks(ctx, text) && strip ==> shown == Bounded(StripLargeCode(Trim(rawSummary)), StripAll(rawPoints)))
  {
    hide Includes, Collapse, SplitAtSpaces, StripLargeCode, CodeCharCount, Detected, Trim, Join;
    var summary, points := Trim(rawSummary), rawPoints;
    var haystack := Join([summary] + points + [complexity], "\n");
    var editorial := FindEditorial(ctx, haystack);
    var leaks := editorial || LeaksHiddenTests(ctx, haystack);
    if leaks {
      summary := SCRUBBED_SUMMARY;
      points := [SCRUBBED_POINT];
    }
    if CodeCharCount(haystack) > MAX_CODE {
      FixedTextsStay();
      points := StripAll(points);
      summary := StripLargeCode(summary);
    }
    FixedTextsFit();
    shown := Bounded(summary, points);
  }

  lemma FixedTextsStay()
    ensures StripLargeCode(SCRUBBED_SUMMARY) == SCRUBBED_SUMMARY && StripAll([SCRUBBED_POINT]) == [SCRUBBED_POINT]
  {
    FixedTextsHaveNoTick();
    StrippedHasNoCode(SCRUBBED_SUMMARY);
    StrippedHasNoCode(SCRUBBED_POINT);
    assert StripAll([SCRUBBED_POINT][1..]) == [];
  }

  lemma FixedTextsFit()
    ensures Bounded(SCRUBBED_SUMMARY, [SCRUBBED_POINT]) == Shown(SCRUBBED_SUMMARY, [SCRUBBED_POINT])
  {
    assert ClipAll([SCRUBBED_POINT][1..]) == [];
  }

  lemma {:induction false} ClippedPoints(ps: seq<string>)
    ensures |ClipAll(ps)| == |ps| && forall i :: 0 <= i < |ps| ==> ClipAll(ps)[i] == Clip(ps[i], MAX_POINT)
  {
    if ps != [] { ClippedPoints(ps[1..]); }
  }

  lemma {:induction false} StrippedPoints(ps: seq<string>)
    ensures |StripAll(ps)| == |ps| && forall i :: 0 <= i < |ps| ==> StripAll(ps)[i] == StripLargeCode(ps[i])
  {
    if ps != [] { StrippedPoints(ps[1..]); }
  }

  /** An answer that stays within the bounds is shown as it is, when its summary is not empty. */
  lemma ShortAnswersPass(summary: string, points: seq<string>)
    requires 0 < |summary| <= 1200 && |points| <= 8
    requires forall i :: 0 <= i < |points| ==> |points[i]| <= 500
    ensures Bounded(summary, points) == Shown(summary, points)
  {
    ClippedPoints(points);
  }

  ghost predicate WithoutCode(shown: Shown) {
    !HasBlock(shown.summary) && forall i :: 0 <= i < |shown.points| ==> !HasBlock(shown.points[i])
  }

  /**
    Once stripping sets in, no field that is shown holds a code block, also after clipping; and the bounds always
    hold.
  */
  lemma StrippedAnswersHaveNoCode(summary: string, points: seq<string>)
    ensures WithoutCode(Bounded(StripLargeCode(summary), StripAll(points)))
    ensures var shown := Bounded(summary, points);
            && 0 < |shown.summary| <= 1200 && |shown.points| <= 8
            && forall i :: 0 <= i < |shown.points| ==> |shown.points[i]| <= 500
  {
    hide StripLargeCode, HasBlock;
    var stripped := StripAll(points);
    var kept := if |stripped| <= MAX_POINTS then stripped else stripped[..MAX_POINTS];
    StrippedPoints(points);
    ClippedPoints(kept);
    ClippedPoints(if |points| <= MAX_POINTS then points else points[..MAX_POINTS]);
    StrippedHasNoCode(summary);
    ClipHasNoCode(StripLargeCode(summary), MAX_SUMMARY);
    PlainTextHasNoCode();
    forall i | 0 <= i < |kept| ensures !HasBlock(ClipAll(kept)[i]) {
      assert kept[i] == StripLargeCode(points[i]);
      StrippedHasNoCode(points[i]);
      ClipHasNoCode(kept[i], MAX_POINT);
    }
  }

  lemma ClipHasNoCode(s: string, n: nat)
    requires !HasBlock(s)
    ensures !HasBlock(Clip(s, n))
  {
    if |s| > n { PrefixHasNoCode(s, n); }
  }

  lemma PlainTextHasNoCode()
    ensures !HasBlock(EMPTY_SUMMARY)
  {
    FixedTextsHaveNoTick();
  }
}
