/**
  What a judged submission's numbers and verdict mean: which cause each verdict
  stands for, which case the overall verdict is that of, and what is counted.
*/
module JudgeRules {
  import opened Wrappers
  import opened Comparators
  import opened Numbers
  import opened Judge
  import StableSort

  // ── causes ───────────────────────────────────────────────────────

  datatype Cause = CompileError | Timeout | OutOfMemory | TooMuchOutput | Crash | WrongOutput | BadSpacing | Nothing

  function Verdict(c: Cause): Judge.Verdict {
    match c
    case CompileError => COMPILATION_ERROR
    case Timeout => TIME_LIMIT_EXCEEDED
    case OutOfMemory => MEMORY_LIMIT_EXCEEDED
    case TooMuchOutput => OUTPUT_LIMIT_EXCEEDED
    case Crash => RUNTIME_ERROR
    case WrongOutput => WRONG_ANSWER
    case BadSpacing => PRESENTATION_ERROR
    case Nothing => ACCEPTED
  }

  // Whether something went wrong with a run of a case; several things can at once.
  predicate Happened(job: Job, tc: TestCase, o: Outcome, c: Cause) {
    var cmp := Compare(job.num, job.comparator, tc.expectedOutput, o.stdout);
    match c
    case CompileError => o.compileError.Some? && o.compileError.value != ""
    case Timeout => o.timedOut
    case OutOfMemory => o.oomKilled
    case TooMuchOutput => o.truncated || ByteLength(o.stdout) > 256 * 1024
    case Crash => o.exitCode != Some(0)
    case WrongOutput => !cmp.matches
    case BadSpacing => cmp.presentationError
    case Nothing => true
  }

  // The weightiest comes first.
  function Rank(c: Cause): nat {
    match c
    case CompileError => 0
    case Timeout => 1
    case OutOfMemory => 2
    case TooMuchOutput => 3
    case Crash => 4
    case WrongOutput => 5
    case BadSpacing => 6
    case Nothing => 7
  }

  ghost predicate IsCause(job: Job, tc: TestCase, o: Outcome, c: Cause) {
    Happened(job, tc, o, c) && forall d :: Happened(job, tc, o, d) ==> Rank(c) <= Rank(d)
  }

  // The engine's answer for a case, cut at what the engine may have missed.
  lemma VerdictOfOutcome(job: Job, tc: TestCase, c: Cause)
    requires job.engine(tc.input).Some? && IsCause(job, tc, job.engine(tc.input).value, c)
    ensures RunOne(job, tc).Some? && RunOne(job, tc).value.verdict == Verdict(c)
  {
    hide Compare, Round, ByteLength;
    var o := job.engine(tc.input).value;
    assert forall d :: Rank(d) < Rank(c) ==> !Happened(job, tc, o, d);
    assert !Happened(job, tc, o, CompileError) || Rank(c) == 0;
    assert !Happened(job, tc, o, Timeout) || Rank(c) <= 1;
    assert !Happened(job, tc, o, OutOfMemory) || Rank(c) <= 2;
    assert !Happened(job, tc, o, TooMuchOutput) || Rank(c) <= 3;
    assert !Happened(job, tc, o, Crash) || Rank(c) <= 4;
    assert !Happened(job, tc, o, WrongOutput) || Rank(c) <= 5;
    assert !Happened(job, tc, o, BadSpacing) || Rank(c) <= 6;
  }

  lemma SomeCause(job: Job, tc: TestCase, o: Outcome) returns (c: Cause)
    ensures IsCause(job, tc, o, c)
  {
    hide Compare, ByteLength;
    c := if Happened(job, tc, o, CompileError) then CompileError
         else if Happened(job, tc, o, Timeout) then Timeout
         else if Happened(job, tc, o, OutOfMemory) then OutOfMemory
         else if Happened(job, tc, o, TooMuchOutput) then TooMuchOutput
         else if Happened(job, tc, o, Crash) then Crash
         else if Happened(job, tc, o, WrongOutput) then WrongOutput
         else if Happened(job, tc, o, BadSpacing) then BadSpacing
         else Nothing;
  }

  lemma VerdictsDiffer(c: Cause, d: Cause)
    requires Verdict(c) == Verdict(d)
    ensures c == d
  {
  }

  /**
    A case's verdict stands for exactly one cause: the weightiest thing that happened, in the order compile
    error, timeout, out of memory, too much output, crash, wrong output, bad spacing.
  */
  lemma VerdictIsWeightiestCause(job: Job, tc: TestCase, c: Cause)
    requires job.engine(tc.input).Some?
    ensures RunOne(job, tc).Some?
    ensures RunOne(job, tc).value.verdict == Verdict(c) <==> IsCause(job, tc, job.engine(tc.input).value, c)
  {
    hide RunOne, IsCause, Verdict;
    var d := SomeCause(job, tc, job.engine(tc.input).value);
    VerdictOfOutcome(job, tc, d);
    if RunOne(job, tc).value.verdict == Verdict(c) { VerdictsDiffer(c, d); }
    if IsCause(job, tc, job.engine(tc.input).value, c) { VerdictOfOutcome(job, tc, c); }
  }

  /** Output is measured in bytes of its encoding: characters one by one, ASCII one each, none more than four. */
  lemma {:induction false} BytesAreCounted(s: string, t: string)
    ensures ByteLength(s + t) == ByteLength(s) + ByteLength(t)
    ensures |s| <= ByteLength(s) <= 4 * |s|
    ensures ByteLength(s) == |s| <==> forall i :: 0 <= i < |s| ==> s[i] < '\U{80}'
  {
    if s == "" {
      assert s + t == t;
    } else {
      assert (s + t)[1..] == s[1..] + t;
      BytesAreCounted(s[1..], t);
      assert forall i :: 0 < i < |s| ==> s[i] == s[1..][i - 1];
      assert forall i :: 0 <= i < |s| - 1 ==> s[1..][i] == s[i + 1];
    }
  }

  // ── the whole submission ─────────────────────────────────────────

  predicate Fails(job: Job, tc: TestCase) {
    RunOne(job, tc).Some? && !IsPass(RunOne(job, tc).value.verdict)
  }

  predicate Passes(job: Job, tc: TestCase) {
    RunOne(job, tc).Some? && IsPass(RunOne(job, tc).value.verdict)
  }

  // Case number i is the first that fails.
  ghost predicate FirstFailing(job: Job, cases: seq<TestCase>, i: nat) {
    i < |cases| && Fails(job, cases[i]) && forall j :: 0 <= j < i ==> Passes(job, cases[j])
  }

  lemma {:induction false} FirstFailAt(job: Job, cases: seq<TestCase>, rs: seq<CaseResult>)
    requires Answers(job, cases, rs)
    ensures FirstFail(rs).Some? ==>
              exists i: nat :: FirstFailing(job, cases, i) && FirstFail(rs) == RunOne(job, cases[i])
  {
    hide RunOne;
    if rs != [] {
      RunOneGives(job, cases[0]);
      var rest, later := cases[1..], rs[1..];
      assert forall i :: 0 <= i < |rest| ==> rest[i] == cases[i + 1] && later[i] == rs[i + 1];
      if IsPass(rs[0].verdict) {
        FirstFailAt(job, rest, later);
        if FirstFail(rs).Some? {
          var i: nat :| FirstFailing(job, rest, i) && FirstFail(later) == RunOne(job, rest[i]);
          assert forall j :: 1 <= j <= i ==> cases[j] == rest[j - 1];
          assert FirstFailing(job, cases, i + 1);
        }
      } else {
        assert FirstFailing(job, cases, 0);
      }
    }
  }

  lemma FirstFailingOfPrefix(job: Job, cases: seq<TestCase>, c: nat, i: nat)
    requires c <= |cases| && FirstFailing(job, cases[..c], i)
    ensures FirstFailing(job, cases, i) && cases[..c][i] == cases[i]
  {
    assert forall j :: 0 <= j <= i ==> cases[..c][j] == cases[j];
  }

  // A run in its place: what it answered, and the rest skipped.
  lemma CutOf(job: Job, cases: seq<TestCase>, stop: bool, partial: bool) returns (c: nat)
    requires JudgeJob(job, cases, stop, partial).Success?
    ensures CutAt(job, Ordered(cases), JudgeJob(job, cases, stop, partial).value.results, c)
    ensures !stop ==> c == |cases|
  {
    hide RunOne, CutAt, RunFrom;
    OrderedIs(cases);
    EveryRunIsCut(job, Ordered(cases), stop);
    c :| CutAt(job, Ordered(cases), RunFrom(job, Ordered(cases), stop, false).value, c) && (!stop ==> c == |cases|);
  }

  lemma FirstFailOfCut(job: Job, cases: seq<TestCase>, rs: seq<CaseResult>, c: nat)
    requires CutAt(job, cases, rs, c) && FirstFail(rs).Some?
    ensures exists i: nat :: FirstFailing(job, cases, i) && FirstFail(rs) == RunOne(job, cases[i])
  {
    hide RunOne, CutAt, Answers, FirstFail;
    CutSums(job, cases, rs, c);
    CutAnswers(job, cases, rs, c);
    FirstFailAt(job, cases[..c], rs[..c]);
    var i: nat :| FirstFailing(job, cases[..c], i) && FirstFail(rs[..c]) == RunOne(job, cases[..c][i]);
    FirstFailingOfPrefix(job, cases, c, i);
  }

  lemma FailedOverall(rs: seq<CaseResult>)
    requires !IsPass(Overall(rs))
    ensures FirstFail(rs).Some? && FirstFail(rs).value.verdict == Overall(rs)
  {
  }

  ghost predicate FailsBy(job: Job, tc: TestCase, v: Judge.Verdict) {
    && job.engine(tc.input).Some?
    && exists c :: IsCause(job, tc, job.engine(tc.input).value, c) && v == Verdict(c)
  }

  lemma FailingHasCause(job: Job, cases: seq<TestCase>, i: nat)
    requires FirstFailing(job, cases, i)
    ensures FailsBy(job, cases[i], RunOne(job, cases[i]).value.verdict)
  {
    hide RunOne, IsCause, Verdict;
    EngineAnswered(job, cases, i);
    var c := SomeCause(job, cases[i], job.engine(cases[i].input).value);
    VerdictOfOutcome(job, cases[i], c);
  }

  /**
    The verdict of a submission that fails is that of its first failing case, public cases first, and so
    stands for the weightiest thing that happened there; it makes no difference what happened later.
  */
  lemma SubmissionFailsByFirstCause(job: Job, cases: seq<TestCase>, stop: bool, partial: bool)
    requires JudgeJob(job, cases, stop, partial).Success?
    requires !IsPass(JudgeJob(job, cases, stop, partial).value.verdict)
    ensures var r, ordered := JudgeJob(job, cases, stop, partial).value, Ordered(cases);
            exists i: nat :: FirstFailing(job, ordered, i) && FailsBy(job, ordered[i], r.verdict)
  {
    hide RunOne, RunFrom, CutAt, FailsBy, FirstFail, Ordered, Overall;
    var r, ordered := JudgeJob(job, cases, stop, partial).value, Ordered(cases);
    var c := CutOf(job, cases, stop, partial);
    FailedOverall(r.results);
    FirstFailOfCut(job, ordered, r.results, c);
    var i: nat :| FirstFailing(job, ordered, i) && FirstFail(r.results) == RunOne(job, ordered[i]);
    FailingHasCause(job, ordered, i);
  }

  lemma CutAnswers(job: Job, cases: seq<TestCase>, rs: seq<CaseResult>, c: nat)
    requires CutAt(job, cases, rs, c)
    ensures c <= |cases| == |rs| && Answers(job, cases[..c], rs[..c])
  {
  }

  lemma EngineAnswered(job: Job, cases: seq<TestCase>, i: nat)
    requires FirstFailing(job, cases, i)
    ensures i < |cases| && job.engine(cases[i].input).Some?
  {
    hide Compare, Round, ByteLength, MapVerdict;
  }

  // ── what is counted ──────────────────────────────────────────────

  function CountPassing(job: Job, cases: seq<TestCase>): nat {
    if cases == [] then 0 else (if Passes(job, cases[0]) then 1 else 0) + CountPassing(job, cases[1..])
  }

  function WeightPassing(job: Job, cases: seq<TestCase>): nat {
    if cases == [] then 0 else (if Passes(job, cases[0]) then cases[0].weight else 0) + WeightPassing(job, cases[1..])
  }

  lemma {:induction false} AnswersCount(job: Job, cases: seq<TestCase>, rs: seq<CaseResult>)
    requires Answers(job, cases, rs)
    ensures Passed(rs) == CountPassing(job, cases) && ScoreSum(rs) == WeightPassing(job, cases)
  {
    hide RunOne;
    if rs != [] {
      RunOneGives(job, cases[0]);
      var rest, later := cases[1..], rs[1..];
      assert forall i :: 0 <= i < |rest| ==> rest[i] == cases[i + 1] && later[i] == rs[i + 1];
      AnswersCount(job, rest, later);
    }
  }

  // The case passes without a spacing error.
  predicate PassesClean(job: Job, tc: TestCase) {
    RunOne(job, tc).Some? && RunOne(job, tc).value.verdict == ACCEPTED
  }

  lemma {:induction false} WeightsInAnyOrder(job: Job, tc: TestCase, cases: seq<TestCase>)
    ensures CountPassing(job, StableSort.Insert(tc, cases, PublicFirst))
            == CountPassing(job, cases) + if Passes(job, tc) then 1 else 0
    ensures WeightPassing(job, StableSort.Insert(tc, cases, PublicFirst))
            == WeightPassing(job, cases) + if Passes(job, tc) then tc.weight else 0
  {
    hide RunOne;
    if cases != [] && PublicFirst(cases[0], tc) { WeightsInAnyOrder(job, tc, cases[1..]); }
  }

  lemma {:induction false} OrderedCounts(job: Job, cases: seq<TestCase>)
    ensures CountPassing(job, Ordered(cases)) == CountPassing(job, cases)
    ensures WeightPassing(job, Ordered(cases)) == WeightPassing(job, cases)
  {
    if cases != [] {
      OrderedCounts(job, cases[1..]);
      WeightsInAnyOrder(job, cases[0], Ordered(cases[1..]));
    }
  }

  /**
    What a full run counts, however the cases were listed: the passing cases and, with partial scoring,
    their weights. Without it the score is all or nothing: everything if and only if every case is
    accepted, so that one spacing error costs all of it although the verdict still counts as a pass.
  */
  lemma ScoreIsExact(job: Job, cases: seq<TestCase>, partial: bool)
    requires JudgeJob(job, cases, false, partial).Success?
    ensures var r := JudgeJob(job, cases, false, partial).value;
            && r.passed == CountPassing(job, cases)
            && r.totalScore == if partial then WeightPassing(job, cases)
                               else if forall i :: 0 <= i < |cases| ==> PassesClean(job, cases[i]) then Weights(cases)
                               else 0
  {
    hide RunOne, RunFrom, Passed, ScoreSum, MaxScoreSum, Weights, CountPassing, WeightPassing, Percentage, Overall;
    var r, ordered := JudgeJob(job, cases, false, partial).value, Ordered(cases);
    OrderedIs(cases);
    FullRunAnswers(job, ordered, false);
    AnswersContribute(job, ordered, r.results);
    AnswersCount(job, ordered, r.results);
    OrderedCounts(job, cases);
    AcceptedExactly(job, ordered, r.results);
    SameCases(job, cases, ordered);
  }

  lemma SameCases(job: Job, cases: seq<TestCase>, ordered: seq<TestCase>)
    requires multiset(cases) == multiset(ordered)
    ensures (forall i :: 0 <= i < |cases| ==> PassesClean(job, cases[i]))
            <==> forall i :: 0 <= i < |ordered| ==> PassesClean(job, ordered[i])
  {
    hide RunOne, PassesClean;
    forall i | 0 <= i < |cases| ensures cases[i] in ordered {
      assert cases[i] in multiset(ordered);
    }
    forall i | 0 <= i < |ordered| ensures ordered[i] in cases {
      assert ordered[i] in multiset(cases);
    }
  }

  lemma AcceptedExactly(job: Job, cases: seq<TestCase>, rs: seq<CaseResult>)
    requires Answers(job, cases, rs)
    ensures Overall(rs) == ACCEPTED <==> forall i :: 0 <= i < |cases| ==> PassesClean(job, cases[i])
  {
    hide RunOne;
    FirstFailFails(rs);
    AnswersContribute(job, cases, rs);
    assert forall i :: 0 <= i < |rs| ==> RunOne(job, cases[i]) == Some(rs[i]);
    if FirstFail(rs).None? {
      assert forall i :: 0 <= i < |rs| ==> IsPass(rs[i].verdict);
    } else {
      assert HasFailure(rs);
    }
  }

  lemma {:induction false} PeaksAre(rs: seq<CaseResult>)
    ensures forall i :: 0 <= i < |rs| ==> rs[i].runtimeMs <= MaxRuntime(rs) && rs[i].memoryKb <= MaxMemory(rs)
    ensures MaxRuntime(rs) == 0 || exists i :: 0 <= i < |rs| && rs[i].runtimeMs == MaxRuntime(rs)
    ensures MaxMemory(rs) == 0 || exists i :: 0 <= i < |rs| && rs[i].memoryKb == MaxMemory(rs)
  {
    if rs != [] {
      PeaksAre(rs[1..]);
      assert forall i :: 0 < i < |rs| ==> rs[i] == rs[1..][i - 1];
      assert forall i :: 0 <= i < |rs| - 1 ==> rs[1..][i] == rs[i + 1];
    }
  }

  // What a case shows of the engine's answer, in milliseconds and kilobytes.
  lemma ShownOfOutcome(job: Job, tc: TestCase)
    requires job.engine(tc.input).Some?
    ensures var o, r := job.engine(tc.input).value, RunOne(job, tc);
            r.Some? && r.value.runtimeMs == Round(o.durationMs) && r.value.memoryKb == Round(o.memoryUsedMb * 1024.0)
  {
    hide MapVerdict, Round, ByteLength;
  }

  lemma NoneWithoutAnswer(job: Job, tc: TestCase)
    ensures RunOne(job, tc).Some? <==> job.engine(tc.input).Some?
  {
    hide MapVerdict, Round, ByteLength;
  }

  // No case needed more than is shown.
  ghost predicate WithinPeaks(job: Job, tc: TestCase, r: JudgeResult) {
    && job.engine(tc.input).Some?
    && var o := job.engine(tc.input).value;
       Round(o.durationMs) <= r.runtimeMs && Round(o.memoryUsedMb * 1024.0) <= r.peakMemoryKb
  }

  lemma AggregatePeaks(rs: seq<CaseResult>, partial: bool)
    ensures var r := Aggregate(rs, partial);
            && r.results == rs
            && (forall i :: 0 <= i < |rs| ==> rs[i].runtimeMs <= r.runtimeMs && rs[i].memoryKb <= r.peakMemoryKb)
            && (r.runtimeMs == 0 || exists i :: 0 <= i < |rs| && rs[i].runtimeMs == r.runtimeMs)
            && (r.peakMemoryKb == 0 || exists i :: 0 <= i < |rs| && rs[i].memoryKb == r.peakMemoryKb)
  {
    hide Overall, Percentage, MaxRuntime, MaxMemory;
    PeaksAre(rs);
  }

  /** The time and memory shown are those of the hungriest case, in milliseconds and kilobytes: no case needed more. */
  lemma PeaksAreShown(job: Job, cases: seq<TestCase>, partial: bool)
    requires JudgeJob(job, cases, false, partial).Success?
    ensures var r := JudgeJob(job, cases, false, partial).value;
            && (forall tc :: tc in cases ==> WithinPeaks(job, tc, r))
            && (r.runtimeMs == 0 || exists i :: 0 <= i < |r.results| && r.results[i].runtimeMs == r.runtimeMs)
            && (r.peakMemoryKb == 0 || exists i :: 0 <= i < |r.results| && r.results[i].memoryKb == r.peakMemoryKb)
  {
    hide RunFrom, Aggregate, RunOne, Round, Ordered;
    var ordered := Ordered(cases);
    var rs := RunFrom(job, ordered, false, false).value;
    var r := JudgeJob(job, cases, false, partial).value;
    OrderedIs(cases);
    FullRunAnswers(job, ordered, false);
    AggregatePeaks(rs, partial);
    forall tc | tc in cases ensures WithinPeaks(job, tc, r) {
      assert tc in multiset(ordered);
      var i :| 0 <= i < |ordered| && ordered[i] == tc;
      assert RunOne(job, ordered[i]) == Some(rs[i]);
      NoneWithoutAnswer(job, tc);
      ShownOfOutcome(job, tc);
    }
  }

  // The cases that share kind and order number with tc, as listed.
  function Siblings(cases: seq<TestCase>, tc: TestCase): seq<TestCase> {
    if cases == [] then []
    else (if cases[0].isHidden == tc.isHidden && cases[0].order == tc.order then [cases[0]] else [])
         + Siblings(cases[1..], tc)
  }

  lemma {:induction false} SiblingsAreAlike(cases: seq<TestCase>, tc: TestCase)
    ensures Siblings(cases, tc) == StableSort.Alike(cases, tc, PublicFirst)
  {
    if cases != [] { SiblingsAreAlike(cases[1..], tc); }
  }

  /**
    The order of judging: public cases before hidden ones, each kind by its order number, and cases with
    the same number as listed; no case is lost or repeated.
  */
  lemma PublicCasesFirst(cases: seq<TestCase>)
    ensures forall tc :: Siblings(Ordered(cases), tc) == Siblings(cases, tc)
    ensures var ordered := Ordered(cases);
            && multiset(ordered) == multiset(cases)
            && forall i, j :: 0 <= i < j < |ordered| ==>
                 && (ordered[i].isHidden ==> ordered[j].isHidden)
                 && (ordered[i].isHidden == ordered[j].isHidden ==> ordered[i].order <= ordered[j].order)
  {
    OrderedIs(cases);
    var ordered := Ordered(cases);
    PublicFirstIsAnOrder();
    forall tc ensures Siblings(ordered, tc) == Siblings(cases, tc) {
      StableSort.SortIsStable(cases, tc, PublicFirst);
      SiblingsAreAlike(cases, tc);
      SiblingsAreAlike(ordered, tc);
    }
    forall i, j | 0 <= i < j < |ordered|
      ensures && (ordered[i].isHidden ==> ordered[j].isHidden)
              && (ordered[i].isHidden == ordered[j].isHidden ==> ordered[i].order <= ordered[j].order)
    {
      assert !PublicFirst(ordered[j], ordered[i]);
    }
  }

  lemma CustomRunsLikeToken(job: Job, tc: TestCase)
    ensures RunOne(job.(comparator := CustomKind), tc) == RunOne(job.(comparator := TokenKind), tc)
  {
    hide Token, Round, ByteLength;
  }

  lemma {:induction false} CustomBatchLikeToken(job: Job, batch: seq<TestCase>)
    ensures RunBatch(job.(comparator := CustomKind), batch) == RunBatch(job.(comparator := TokenKind), batch)
  {
    hide RunOne;
    if batch != [] {
      CustomRunsLikeToken(job, batch[0]);
      CustomBatchLikeToken(job, batch[1..]);
    }
  }

  lemma {:induction false} CustomCasesLikeToken(job: Job, todo: seq<TestCase>, stop: bool, failed: bool)
    ensures RunFrom(job.(comparator := CustomKind), todo, stop, failed)
            == RunFrom(job.(comparator := TokenKind), todo, stop, failed)
    decreases |todo|
  {
    hide RunBatch;
    if todo != [] && !(failed && stop) {
      var n := Batch(|todo|);
      CustomBatchLikeToken(job, todo[..n]);
      var rs := RunBatch(job.(comparator := TokenKind), todo[..n]);
      if rs.Some? { CustomCasesLikeToken(job, todo[n..], stop, failed || HasFailure(rs.value)); }
    }
  }

  /** A problem with a custom comparator is judged by tokens. */
  lemma CustomJudgesLikeToken(job: Job, cases: seq<TestCase>, stop: bool, partial: bool)
    ensures JudgeJob(job.(comparator := CustomKind), cases, stop, partial)
            == JudgeJob(job.(comparator := TokenKind), cases, stop, partial)
  {
    CustomCasesLikeToken(job, Ordered(cases), stop, false);
  }

  /** Judging fails exactly for a problem without cases or, when everything is run, an engine without an answer. */
  lemma JudgingFailsExactly(job: Job, cases: seq<TestCase>, partial: bool)
    ensures JudgeJob(job, cases, false, partial) == Failure(ProblemNotJudgeable) <==> cases == []
    ensures JudgeJob(job, cases, false, partial) == Failure(ExecutionUnavailable)
            <==> exists i :: 0 <= i < |cases| && job.engine(cases[i].input).None?
  {
    hide RunFrom, Percentage, Overall, MapVerdict, Round, ByteLength;
    var ordered := Ordered(cases);
    OrderedIs(cases);
    FullRunAnswers(job, ordered, false);
    if cases != [] {
      if i :| 0 <= i < |cases| && job.engine(cases[i].input).None? {
        assert cases[i] in multiset(ordered);
        var j :| 0 <= j < |ordered| && ordered[j] == cases[i];
        assert RunOne(job, ordered[j]).None?;
      } else {
        forall j | 0 <= j < |ordered| ensures RunOne(job, ordered[j]).Some? {
          assert ordered[j] in multiset(cases);
        }
      }
    }
  }
}
