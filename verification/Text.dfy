/** Strings as the judge and the coach cut them: white space, tokens, joins and substrings. */
module Text {
  // \s, and what trim() strips: white space and line terminators.
  predicate IsSpace(c: char) {
    || c == ' ' || '\t' <= c <= '\r'
    || c == '\U{A0}' || c == '\U{1680}' || '\U{2000}' <= c <= '\U{200A}'
    || c == '\U{2028}' || c == '\U{2029}' || c == '\U{202F}' || c == '\U{205F}' || c == '\U{3000}' || c == '\U{FEFF}'
  }

  function SkipSpace(s: string): string {
    if s != "" && IsSpace(s[0]) then SkipSpace(s[1..]) else s
  }

  function TrimEnd(s: string): string {
    if s != "" && IsSpace(s[|s| - 1]) then TrimEnd(s[..|s| - 1]) else s
  }

  // s.split(/\s+/)
  function SplitRuns(s: string): seq<string>
    ensures |SplitRuns(s)| >= 1
    decreases |s|
  {
    if s == "" then [""]
    else if IsSpace(s[0]) then
      SkipSpaceShrinks(s);
      [""] + SplitRuns(SkipSpace(s))
    else
      var rest := SplitRuns(s[1..]);
      [[s[0]] + rest[0]] + rest[1..]
  }

  lemma {:induction false} SkipSpaceShrinks(s: string)
    ensures |SkipSpace(s)| <= |s|
    ensures s != "" && IsSpace(s[0]) ==> |SkipSpace(s)| < |s|
  {
    if s != "" && IsSpace(s[0]) { SkipSpaceShrinks(s[1..]); }
  }

  // .filter(Boolean)
  function NonEmpty(ps: seq<string>): seq<string> {
    if ps == [] then [] else (if ps[0] == "" then [] else [ps[0]]) + NonEmpty(ps[1..])
  }

  // s.trim().split(/\s+/).filter(Boolean)
  function Tokenize(s: string): seq<string> {
    NonEmpty(SplitRuns(TrimEnd(SkipSpace(s))))
  }

  // .replace(/\r\n/g, '\n')
  function UnixLines(s: string): string {
    if s == "" then ""
    else if |s| >= 2 && s[0] == '\r' && s[1] == '\n' then "\n" + UnixLines(s[2..])
    else [s[0]] + UnixLines(s[1..])
  }

  function Join(ts: seq<string>, sep: string): string {
    if ts == [] then "" else if |ts| == 1 then ts[0] else ts[0] + sep + Join(ts[1..], sep)
  }

  predicate AllSpace(s: string) {
    forall i :: 0 <= i < |s| ==> IsSpace(s[i])
  }

  predicate IsWord(t: string) {
    t != "" && forall i :: 0 <= i < |t| ==> !IsSpace(t[i])
  }

  // ── what a tokenizer should compute ──────────────────────────────

  // s cut at every single white space character.
  function Pieces(s: string): seq<string>
    ensures |Pieces(s)| >= 1
  {
    if s == "" then [""]
    else if IsSpace(s[0]) then [""] + Pieces(s[1..])
    else [[s[0]] + Pieces(s[1..])[0]] + Pieces(s[1..])[1..]
  }

  // The maximal runs of characters that are not white space, in order.
  function Words(s: string): seq<string> {
    NonEmpty(Pieces(s))
  }

  lemma {:induction false} NonEmptyAppend(a: seq<string>, b: seq<string>)
    ensures NonEmpty(a + b) == NonEmpty(a) + NonEmpty(b)
  {
    if a == [] {
      assert a + b == b;
    } else {
      assert (a + b)[1..] == a[1..] + b;
      NonEmptyAppend(a[1..], b);
    }
  }

  lemma {:induction false} PiecesAppend(a: string, c: char, b: string)
    requires IsSpace(c)
    ensures Pieces(a + [c] + b) == Pieces(a) + Pieces(b)
  {
    hide IsSpace;
    if a == "" {
      assert (a + [c] + b)[1..] == b;
    } else {
      assert (a + [c] + b)[1..] == a[1..] + [c] + b;
      PiecesAppend(a[1..], c, b);
    }
  }

  /** Any non-empty stretch of white space separates: layout between words does not matter. */
  lemma {:induction false} WordsSeparate(a: string, space: string, b: string)
    requires space != "" && AllSpace(space)
    ensures Words(a + space + b) == Words(a) + Words(b)
    decreases |space|
  {
    hide IsSpace;
    var c := space[0];
    if |space| == 1 {
      assert space == [c];
      PiecesAppend(a, c, b);
      NonEmptyAppend(Pieces(a), Pieces(b));
    } else {
      assert a + space + b == a + [c] + (space[1..] + b);
      assert space[1..] + b == "" + space[1..] + b;
      PiecesAppend(a, c, space[1..] + b);
      NonEmptyAppend(Pieces(a), Pieces(space[1..] + b));
      WordsSeparate("", space[1..], b);
    }
  }

  lemma LeadingSpace(c: char, s: string)
    requires IsSpace(c)
    ensures Words([c] + s) == Words(s)
  {
    WordsSeparate("", [c], s);
    assert "" + [c] + s == [c] + s;
  }

  lemma TrailingSpace(s: string, c: char)
    requires IsSpace(c)
    ensures Words(s + [c]) == Words(s)
  {
    WordsSeparate(s, [c], "");
    assert s + [c] + "" == s + [c];
    assert Words("") == [];
  }

  lemma {:induction false} SkipSpaceWords(s: string)
    ensures Words(SkipSpace(s)) == Words(s)
  {
    if s != "" && IsSpace(s[0]) {
      assert s == [s[0]] + s[1..];
      LeadingSpace(s[0], s[1..]);
      SkipSpaceWords(s[1..]);
    }
  }

  lemma {:induction false} TrimEndWords(s: string)
    ensures Words(TrimEnd(s)) == Words(s)
    decreases |s|
  {
    if s != "" && IsSpace(s[|s| - 1]) {
      assert s == s[..|s| - 1] + [s[|s| - 1]];
      TrailingSpace(s[..|s| - 1], s[|s| - 1]);
      TrimEndWords(s[..|s| - 1]);
    }
  }

  // Equal first pieces, and equal words after them.
  ghost predicate SameWords(p: seq<string>, q: seq<string>)
    requires |p| >= 1 && |q| >= 1
  {
    p[0] == q[0] && NonEmpty(p[1..]) == NonEmpty(q[1..])
  }

  lemma {:induction false} SplitRunsWords(s: string)
    ensures SameWords(SplitRuns(s), Pieces(s))
    decreases |s|
  {
    hide IsSpace;
    if s == "" {
    } else if IsSpace(s[0]) {
      var t := SkipSpace(s);
      SkipSpaceShrinks(s);
      SplitRunsWords(t);
      SkipSpaceWords(s);
      assert s == [s[0]] + s[1..];
      LeadingSpace(s[0], s[1..]);
      assert SplitRuns(s)[1..] == SplitRuns(t) && Pieces(s)[1..] == Pieces(s[1..]);
    } else {
      SplitRunsWords(s[1..]);
      assert SplitRuns(s)[1..] == SplitRuns(s[1..])[1..] && Pieces(s)[1..] == Pieces(s[1..])[1..];
    }
  }

  /** The tokenizer finds exactly the maximal runs of non-space characters. */
  lemma TokenizeFindsWords(s: string)
    ensures Tokenize(s) == Words(s)
  {
    var t := SkipSpace(s);
    SkipSpaceWords(s);
    TrimEndWords(t);
    SplitRunsWords(TrimEnd(t));
  }

  lemma {:induction false} UnixLinesPieces(s: string)
    ensures SameWords(Pieces(UnixLines(s)), Pieces(s))
    decreases |s|
  {
    if s == "" {
    } else if |s| >= 2 && s[0] == '\r' && s[1] == '\n' {
      UnixLinesPieces(s[2..]);
      var u := UnixLines(s[2..]);
      assert ("\n" + u)[1..] == u;
      assert Pieces(UnixLines(s))[1..] == Pieces(u);
      assert Pieces(s)[1..] == Pieces(s[1..]) && s[1..][1..] == s[2..];
      assert Pieces(s[1..]) == [""] + Pieces(s[2..]);
    } else {
      UnixLinesPieces(s[1..]);
      var u := UnixLines(s[1..]);
      assert ([s[0]] + u)[1..] == u;
      if IsSpace(s[0]) {
        assert Pieces(UnixLines(s))[1..] == Pieces(u) && Pieces(s)[1..] == Pieces(s[1..]);
      } else {
        assert Pieces(UnixLines(s))[1..] == Pieces(u)[1..] && Pieces(s)[1..] == Pieces(s[1..])[1..];
      }
    }
  }

  /** Windows and Unix line ends give the same words. */
  lemma UnixLinesWords(s: string)
    ensures Words(UnixLines(s)) == Words(s)
  {
    UnixLinesPieces(s);
  }

  lemma {:induction false} WordIsOnePiece(t: string)
    requires forall i :: 0 <= i < |t| ==> !IsSpace(t[i])
    ensures Pieces(t) == [t]
  {
    if t != "" {
      WordIsOnePiece(t[1..]);
      assert [t[0]] + t[1..] == t;
    }
  }

  /** Round trip: tokens joined by spaces are found again, each of them, in order. */
  lemma {:induction false} JoinedWords(ts: seq<string>)
    requires forall i :: 0 <= i < |ts| ==> IsWord(ts[i])
    ensures Words(Join(ts, " ")) == ts
  {
    if ts == [] {
      assert Words("") == [];
    } else {
      WordOfWord(ts[0]);
      if |ts| > 1 {
        JoinedWords(ts[1..]);
        WordsSeparate(ts[0], " ", Join(ts[1..], " "));
        assert [ts[0]] + ts[1..] == ts;
      } else {
        assert ts == [ts[0]];
      }
    }
  }

  lemma WordOfWord(t: string)
    requires IsWord(t)
    ensures Words(t) == [t]
  {
    WordIsOnePiece(t);
    assert [t][1..] == [];
    assert NonEmpty([t]) == [t] + NonEmpty([]);
  }

  lemma {:induction false} NonEmptyKeepsWords(ps: seq<string>)
    requires forall i, j :: 0 <= i < |ps| && 0 <= j < |ps[i]| ==> !IsSpace(ps[i][j])
    ensures forall i :: 0 <= i < |NonEmpty(ps)| ==> IsWord(NonEmpty(ps)[i])
  {
    if ps != [] {
      NonEmptyKeepsWords(ps[1..]);
    }
  }

  lemma {:induction false} PiecesHaveNoSpace(s: string)
    ensures forall i, j :: 0 <= i < |Pieces(s)| && 0 <= j < |Pieces(s)[i]| ==> !IsSpace(Pieces(s)[i][j])
  {
    hide IsSpace;
    if s != "" {
      PiecesHaveNoSpace(s[1..]);
    }
  }

  lemma WordsAreWords(s: string)
    ensures forall i :: 0 <= i < |Words(s)| ==> IsWord(Words(s)[i])
  {
    PiecesHaveNoSpace(s);
    NonEmptyKeepsWords(Pieces(s));
  }
}
