/**
  Judging a submission: the cases in public-first order, run in batches of four,
  optionally stopping after the first batch with a failure; each run mapped to a
  verdict; the verdicts scored and aggregated.  The execution engine is a function
  from a case's input to an outcome, or to nothing when it is unavailable.
*/
module Judge {
  import opened Wrappers
  import opened Comparators
  import opened Numbers
  import StableSort
  import Text

  const TESTCASE_CONCURRENCY := 4
  const OUTPUT_LIMIT_BYTES := 262144

  datatype Verdict =
    | ACCEPTED | PRESENTATION_ERROR | WRONG_ANSWER | TIME_LIMIT_EXCEEDED | MEMORY_LIMIT_EXCEEDED
    | OUTPUT_LIMIT_EXCEEDED | RUNTIME_ERROR | COMPILATION_ERROR | SKIPPED

  datatype TestCase = TestCase(
    id: string,
    input: string,
    expectedOutput: string,
    isHidden: bool,
    weight: nat,
    order: int)

  datatype Outcome = Outcome(
    stdout: string,
    exitCode: Option<int>,
    durationMs: real,
    memoryUsedMb: real,
    oomKilled: bool,
    timedOut: bool,
    truncated: bool,
    compileError: Option<string>)

  datatype CaseResult = CaseResult(
    testCaseId: string,
    verdict: Verdict,
    runtimeMs: int,
    memoryKb: int,
    score: nat,
    maxScore: nat,
    skipped: bool)

  datatype JudgeResult = JudgeResult(
    verdict: Verdict,
    totalScore: nat,
    maxScore: nat,
    percentage: int,
    passed: nat,
    total: nat,
    runtimeMs: int,
    peakMemoryKb: int,
    results: seq<CaseResult>)

  datatype JudgeError = ProblemNotJudgeable | ExecutionUnavailable

  // Everything about a job and its problem that one case's result depends on.
  datatype Job = Job(engine: string -> Option<Outcome>, comparator: ComparatorKind, num: string -> Number)

  // ── one case ─────────────────────────────────────────────────────

  predicate IsPass(v: Verdict) {
    v == ACCEPTED || v == PRESENTATION_ERROR
  }

  function ByteLength(s: string): nat {
    if s == "" then 0
    else (if s[0] < '\U{80}' then 1 else if s[0] < '\U{800}' then 2 else if s[0] < '\U{10000}' then 3 else 4)
         + ByteLength(s[1..])
  }

  function MapVerdict(o: Outcome, expectedOutput: string, kind: ComparatorKind, num: string -> Number): Verdict {
    if o.compileError.Some? && o.compileError.value != "" then COMPILATION_ERROR
    else if o.timedOut then TIME_LIMIT_EXCEEDED
    else if o.oomKilled then MEMORY_LIMIT_EXCEEDED
    else if o.truncated then OUTPUT_LIMIT_EXCEEDED
    else if o.exitCode.Some? && o.exitCode.value != 0 then RUNTIME_ERROR
    else if o.exitCode.None? then RUNTIME_ERROR
    else
      var cmp := Compare(num, kind, expectedOutput, o.stdout);
      if cmp.matches then (if cmp.presentationError then PRESENTATION_ERROR else ACCEPTED) else WRONG_ANSWER
  }

  function ScoreCase(v: Verdict, weight: nat, skipped: bool): nat {
    if skipped then 0 else if IsPass(v) then weight else 0
  }

  function RunOne(job: Job, tc: TestCase): Option<CaseResult> {
    match job.engine(tc.input)
    case None => None
    case Some(raw) =>
      var o := if !raw.truncated && ByteLength(raw.stdout) > OUTPUT_LIMIT_BYTES then raw.(truncated := true) else raw;
      var v := MapVerdict(o, tc.expectedOutput, job.comparator, job.num);
      Some(CaseResult(tc.id, v, Round(o.durationMs), Round(o.memoryUsedMb * 1024.0),
                      ScoreCase(v, tc.weight, false), tc.weight, false))
  }

  function SkippedResult(tc: TestCase): CaseResult {
    CaseResult(tc.id, SKIPPED, 0, 0, 0, tc.weight, true)
  }

  // ── all cases ────────────────────────────────────────────────────

  predicate PublicFirst(a: TestCase, b: TestCase) {
    if a.isHidden != b.isHidden then !a.isHidden else a.order < b.order
  }

  function Ordered(cases: seq<TestCase>): seq<TestCase> {
    StableSort.Sort(cases, PublicFirst)
  }

  function Prepend(rs: seq<CaseResult>, rest: Option<seq<CaseResult>>): Option<seq<CaseResult>> {
    if rest.None? then None else Some(rs + rest.value)
  }

  function RunBatch(job: Job, batch: seq<TestCase>): Option<seq<CaseResult>> {
    if batch == [] then Some([])
    else
      match RunOne(job, batch[0])
      case None => None
      case Some(r) => Prepend([r], RunBatch(job, batch[1..]))
  }

  function Skips(cases: seq<TestCase>): seq<CaseResult> {
    if cases == [] then [] else [SkippedResult(cases[0])] + Skips(cases[1..])
  }

  predicate HasFailure(rs: seq<CaseResult>) {
    exists i :: 0 <= i < |rs| && !IsPass(rs[i].verdict)
  }

  function Batch(n: nat): nat {
    if n < TESTCASE_CONCURRENCY then n else TESTCASE_CONCURRENCY
  }

  function RunFrom(job: Job, todo: seq<TestCase>, stop: bool, failed: bool): Option<seq<CaseResult>>
    decreases |todo|
  {
    if todo == [] then Some([])
    else if failed && stop then Some(Skips(todo))
    else
      var n := Batch(|todo|);
      match RunBatch(job, todo[..n])
      case None => None
      case Some(rs) => Prepend(rs, RunFrom(job, todo[n..], stop, failed || HasFailure(rs)))
  }

  lemma PrependTwice(a: seq<CaseResult>, b: seq<CaseResult>, rest: Option<seq<CaseResult>>)
    ensures Prepend(a, Prepend(b, rest)) == Prepend(a + b, rest)
    ensures Prepend([], rest) == rest
  {
    if rest.Some? {
      assert a + (b + rest.value) == (a + b) + rest.value;
      assert [] + rest.value == rest.value;
    }
  }

  // Promise.all over one batch.
  method RunTogether(job: Job, batch: seq<TestCase>) returns (r: Option<seq<CaseResult>>)
    ensures r == RunBatch(job, batch)
  {
    hide RunOne, Prepend;
    var results: seq<CaseResult> := [];
    assert batch[0..] == batch;
    PrependTwice([], [], RunBatch(job, batch));
    for j := 0 to |batch|
      invariant RunBatch(job, batch) == Prepend(results, RunBatch(job, batch[j..]))
    {
      var one := RunOne(job, batch[j]);
      assert batch[j..][0] == batch[j] && batch[j..][1..] == batch[j + 1..];
      if one.None? {
        assert Prepend(results, None) == None by { PrependNothing(results); }
        return None;
      }
      PrependTwice(results, [one.value], RunBatch(job, batch[j + 1..]));
      results := results + [one.value];
    }
    PrependNothing(results);
    return Some(results);
  }

  lemma PrependNothing(rs: seq<CaseResult>)
    ensures Prepend(rs, None) == None && Prepend(rs, Some([])) == Some(rs)
  {
    assert rs + [] == rs;
  }

  method SkipAll(todo: seq<TestCase>) returns (skipped: seq<CaseResult>)
    ensures skipped == Skips(todo)
  {
    skipped := [];
    for j := 0 to |todo|
      invariant skipped + Skips(todo[j..]) == Skips(todo)
    {
      skipped := skipped + [SkippedResult(todo[j])];
    }
  }

  method RunAllCases(job: Job, cases: seq<TestCase>, stopOnFirstFail: bool) returns (r: Option<seq<CaseResult>>)
    ensures r == RunFrom(job, Ordered(cases), stopOnFirstFail, false)
  {
    hide RunBatch, Prepend, HasFailure, RunFrom, Skips, StableSort.Sort;
    var ordered := StableSort.Sort(cases, PublicFirst);
    var results: seq<CaseResult> := [];
    var failedEarly := false;
    var i := 0;
    assert ordered[0..] == ordered;
    PrependTwice([], [], RunFrom(job, ordered, stopOnFirstFail, false));
    while i < |ordered|
      invariant 0 <= i <= |ordered|
      invariant RunFrom(job, ordered, stopOnFirstFail, false)
                == Prepend(results, RunFrom(job, ordered[i..], stopOnFirstFail, failedEarly))
    {
      RunFromUnrolls(job, ordered[i..], stopOnFirstFail, failedEarly);
      if failedEarly && stopOnFirstFail {
        var skipped := SkipAll(ordered[i..]);
        PrependSome(results, skipped);
        return Some(results + skipped);
      }
      var n := Batch(|ordered| - i);
      assert ordered[i..][..n] == ordered[i..i + n] && ordered[i..][n..] == ordered[i + n..];
      var batchResults := RunTogether(job, ordered[i..i + n]);
      if batchResults.None? {
        PrependNothing(results);
        return None;
      }
      PrependTwice(results, batchResults.value,
                   RunFrom(job, ordered[i + n..], stopOnFirstFail, failedEarly || HasFailure(batchResults.value)));
      results := results + batchResults.value;
      if HasFailure(batchResults.value) {
        failedEarly := true;
      }
      i := i + n;
    }
    RunFromUnrolls(job, ordered[i..], stopOnFirstFail, failedEarly);
    PrependNothing(results);
    return Some(results);
  }

  lemma RunFromUnrolls(job: Job, todo: seq<TestCase>, stop: bool, failed: bool)
    ensures RunFrom(job, todo, stop, failed)
            == if todo == [] then Some([])
               else if failed && stop then Some(Skips(todo))
               else
                 var n := Batch(|todo|);
                 match RunBatch(job, todo[..n])
                 case None => None
                 case Some(rs) => Prepend(rs, RunFrom(job, todo[n..], stop, failed || HasFailure(rs)))
  {
  }

  lemma PrependSome(rs: seq<CaseResult>, rest: seq<CaseResult>)
    ensures Prepend(rs, Some(rest)) == Some(rs + rest)
  {
  }

  // ── what one case contributes ────────────────────────────────────

  // A result as runOne makes it for tc.
  ghost predicate ResultOf(tc: TestCase, r: CaseResult) {
    && r.testCaseId == tc.id && r.maxScore == tc.weight && !r.skipped && r.verdict != SKIPPED
    && r.score == if IsPass(r.verdict) then tc.weight else 0
  }

  lemma RunOneGives(job: Job, tc: TestCase)
    ensures RunOne(job, tc).Some? ==> ResultOf(tc, RunOne(job, tc).value)
  {
    hide Compare, Round, ByteLength;
  }

  // Every case answered, one result for each.
  ghost predicate Answers(job: Job, cases: seq<TestCase>, rs: seq<CaseResult>) {
    |rs| == |cases| && forall i :: 0 <= i < |rs| ==> RunOne(job, cases[i]) == Some(rs[i])
  }

  lemma {:induction false} RunBatchAnswers(job: Job, batch: seq<TestCase>)
    ensures RunBatch(job, batch).Some? <==> forall i :: 0 <= i < |batch| ==> RunOne(job, batch[i]).Some?
    ensures RunBatch(job, batch).Some? ==> Answers(job, batch, RunBatch(job, batch).value)
  {
    hide RunOne;
    if batch != [] {
      RunBatchAnswers(job, batch[1..]);
      assert forall i :: 0 < i < |batch| ==> batch[i] == batch[1..][i - 1];
      assert forall i :: 0 <= i < |batch| - 1 ==> batch[1..][i] == batch[i + 1];
    }
  }

  ghost predicate AllAnswered(job: Job, cases: seq<TestCase>) {
    forall i :: 0 <= i < |cases| ==> RunOne(job, cases[i]).Some?
  }

  lemma AnsweredApart(job: Job, todo: seq<TestCase>, n: nat)
    requires n <= |todo|
    ensures AllAnswered(job, todo) <==> AllAnswered(job, todo[..n]) && AllAnswered(job, todo[n..])
  {
    hide RunOne;
    var batch, rest := todo[..n], todo[n..];
    assert forall i :: 0 <= i < n ==> batch[i] == todo[i];
    assert forall i :: n <= i < |todo| ==> rest[i - n] == todo[i];
    assert forall i :: 0 <= i < |rest| ==> rest[i] == todo[i + n];
  }

  lemma AnswersTogether(job: Job, todo: seq<TestCase>, n: nat, first: seq<CaseResult>, rest: seq<CaseResult>)
    requires n <= |todo| && Answers(job, todo[..n], first) && Answers(job, todo[n..], rest)
    ensures Answers(job, todo, first + rest)
  {
    hide RunOne;
    var batch, later := todo[..n], todo[n..];
    assert forall i :: 0 <= i < n ==> batch[i] == todo[i];
    assert forall i :: n <= i < |todo| ==> later[i - n] == todo[i];
  }

  /** Running everything answers every case, or the engine was unavailable for one. */
  lemma {:induction false} FullRunAnswers(job: Job, todo: seq<TestCase>, failed: bool)
    ensures RunFrom(job, todo, false, failed).Some? <==> forall i :: 0 <= i < |todo| ==> RunOne(job, todo[i]).Some?
    ensures RunFrom(job, todo, false, failed).Some? ==> Answers(job, todo, RunFrom(job, todo, false, failed).value)
    decreases |todo|
  {
    hide RunOne, Answers;
    if todo == [] {
      NothingAnswered(job);
    } else {
      var n := Batch(|todo|);
      var batch, rest := todo[..n], todo[n..];
      RunBatchAnswers(job, batch);
      AnsweredApart(job, todo, n);
      var rs := RunBatch(job, batch);
      if rs.Some? {
        var later := failed || HasFailure(rs.value);
        FullRunAnswers(job, rest, later);
        if RunFrom(job, rest, false, later).Some? {
          AnswersTogether(job, todo, n, rs.value, RunFrom(job, rest, false, later).value);
        }
      }
    }
  }

  lemma NothingAnswered(job: Job)
    ensures Answers(job, [], [])
  {
  }

  // ── where an early stop cuts ─────────────────────────────────────

  // The number of cases that run: whole batches, up to and including the first with a failure.
  function Cut(full: seq<CaseResult>): (c: nat)
    ensures c <= |full|
    decreases |full|
  {
    var n := Batch(|full|);
    if |full| == n || HasFailure(full[..n]) then n else n + Cut(full[n..])
  }

  // Everything runs before the cut; what fails first is in its last batch.
  ghost predicate CutRight(full: seq<CaseResult>, c: nat) {
    && c <= |full| && (c < |full| ==> c % TESTCASE_CONCURRENCY == 0 && c >= TESTCASE_CONCURRENCY)
    && (c < |full| ==> HasFailure(full[c - TESTCASE_CONCURRENCY..c]))
    && forall i :: 0 <= i < c - TESTCASE_CONCURRENCY ==> IsPass(full[i].verdict)
  }

  /** Stopping early runs whole batches, up to and including the first one with a failure, and no further. */
  lemma {:induction false} CutIs(full: seq<CaseResult>)
    ensures CutRight(full, Cut(full))
    decreases |full|
  {
    hide HasFailure;
    var n := Batch(|full|);
    if |full| != n && !HasFailure(full[..n]) {
      CutIs(full[n..]);
      CutMovesRight(full, n, Cut(full[n..]));
    } else {
      assert n == TESTCASE_CONCURRENCY ==> full[n - TESTCASE_CONCURRENCY..n] == full[..n];
    }
  }

  lemma CutMovesRight(full: seq<CaseResult>, n: nat, c: nat)
    requires n == TESTCASE_CONCURRENCY < |full| && !HasFailure(full[..n]) && CutRight(full[n..], c)
    ensures CutRight(full, n + c)
  {
    var rest := full[n..];
    if c < |rest| {
      assert rest[c - TESTCASE_CONCURRENCY..c] == full[n + c - TESTCASE_CONCURRENCY..n + c];
    }
    forall i | 0 <= i < n + c - TESTCASE_CONCURRENCY ensures IsPass(full[i].verdict) {
      if i < n { assert full[i] == full[..n][i]; } else { assert full[i] == rest[i - n]; }
    }
  }

  // A full run splits into its first batch and the full run of the rest.
  lemma FullRunSplits(job: Job, todo: seq<TestCase>)
    requires todo != [] && RunFrom(job, todo, false, false).Some?
    ensures var n := Batch(|todo|);
            && RunBatch(job, todo[..n]).Some? && RunFrom(job, todo[n..], false, false).Some?
            && |RunBatch(job, todo[..n]).value| == n
            && RunFrom(job, todo, false, false).value
               == RunBatch(job, todo[..n]).value + RunFrom(job, todo[n..], false, false).value
  {
    hide RunBatch;
    var n := Batch(|todo|);
    RunBatchAnswers(job, todo[..n]);
    FailedMattersOnlyWhenStopping(job, todo[n..], HasFailure(RunBatch(job, todo[..n]).value));
  }

  lemma {:induction false} StoppedRunIs(job: Job, todo: seq<TestCase>)
    requires RunFrom(job, todo, false, false).Some?
    ensures var full := RunFrom(job, todo, false, false).value;
            |full| == |todo| && RunFrom(job, todo, true, false) == Some(full[..Cut(full)] + Skips(todo[Cut(full)..]))
    decreases |todo|
  {
    hide RunBatch;
    FullRunAnswers(job, todo, false);
    var full := RunFrom(job, todo, false, false).value;
    if todo == [] {
      assert full[..Cut(full)] + Skips(todo[Cut(full)..]) == [];
    } else {
      FullRunSplits(job, todo);
      var n := Batch(|todo|);
      var rs, rest := RunBatch(job, todo[..n]).value, todo[n..];
      var tail := RunFrom(job, rest, false, false).value;
      FullRunAnswers(job, rest, false);
      assert full[..n] == rs && full[n..] == tail;
      if rest == [] {
        assert Skips(todo[n..]) == [] && full[..n] + [] == rs + [];
      } else if HasFailure(rs) {
        assert RunFrom(job, rest, true, true) == Some(Skips(rest));
      } else {
        StoppedRunIs(job, rest);
        JoinCut(rs, tail, todo, Cut(tail));
      }
    }
  }

  lemma JoinCut(rs: seq<CaseResult>, tail: seq<CaseResult>, todo: seq<TestCase>, c: nat)
    requires |rs| <= |todo| && |tail| == |todo| - |rs| && c <= |tail|
    ensures (rs + tail)[..|rs| + c] + Skips(todo[|rs| + c..]) == rs + (tail[..c] + Skips(todo[|rs|..][c..]))
  {
    hide Skips;
    assert (rs + tail)[..|rs| + c] == rs + tail[..c] && todo[|rs| + c..] == todo[|rs|..][c..];
  }

  lemma {:induction false} FailedMattersOnlyWhenStopping(job: Job, todo: seq<TestCase>, failed: bool)
    ensures RunFrom(job, todo, false, failed) == RunFrom(job, todo, false, false)
    decreases |todo|
  {
    hide RunOne;
    if todo != [] {
      var n := Batch(|todo|);
      var rs := RunBatch(job, todo[..n]);
      if rs.Some? {
        FailedMattersOnlyWhenStopping(job, todo[n..], failed || HasFailure(rs.value));
        FailedMattersOnlyWhenStopping(job, todo[n..], HasFailure(rs.value));
      }
    }
  }

  // ── aggregation ──────────────────────────────────────────────────

  function Passed(rs: seq<CaseResult>): nat {
    if rs == [] then 0 else (if IsPass(rs[0].verdict) then 1 else 0) + Passed(rs[1..])
  }

  function ScoreSum(rs: seq<CaseResult>): nat {
    if rs == [] then 0 else rs[0].score + ScoreSum(rs[1..])
  }

  function MaxScoreSum(rs: seq<CaseResult>): nat {
    if rs == [] then 0 else rs[0].maxScore + MaxScoreSum(rs[1..])
  }

  function MaxRuntime(rs: seq<CaseResult>): int {
    if rs == [] then 0 else var m := MaxRuntime(rs[1..]); if rs[0].runtimeMs > m then rs[0].runtimeMs else m
  }

  function MaxMemory(rs: seq<CaseResult>): int {
    if rs == [] then 0 else var m := MaxMemory(rs[1..]); if rs[0].memoryKb > m then rs[0].memoryKb else m
  }

  function FirstFail(rs: seq<CaseResult>): Option<CaseResult> {
    if rs == [] then None
    else if !IsPass(rs[0].verdict) && !rs[0].skipped then Some(rs[0])
    else FirstFail(rs[1..])
  }

  function Overall(rs: seq<CaseResult>): Verdict {
    match FirstFail(rs)
    case Some(r) => r.verdict
    case None =>
      if exists i :: 0 <= i < |rs| && rs[i].verdict == PRESENTATION_ERROR then PRESENTATION_ERROR else ACCEPTED
  }

  function Percentage(score: nat, max: nat): int {
    if max == 0 then 0 else Round(score as real / max as real * 100.0)
  }

  function Aggregate(rs: seq<CaseResult>, partial: bool): JudgeResult {
    var overall := Overall(rs);
    JudgeResult(overall,
                if partial then ScoreSum(rs) else if overall == ACCEPTED then MaxScoreSum(rs) else 0,
                MaxScoreSum(rs),
                Percentage(ScoreSum(rs), MaxScoreSum(rs)),
                Passed(rs), |rs|, MaxRuntime(rs), MaxMemory(rs), rs)
  }

  function JudgeJob(job: Job, cases: seq<TestCase>, stop: bool, partial: bool): Result<JudgeResult, JudgeError> {
    if cases == [] then Failure(ProblemNotJudgeable)
    else
      match RunFrom(job, Ordered(cases), stop, false)
      case None => Failure(ExecutionUnavailable)
      case Some(rs) => Success(Aggregate(rs, partial))
  }

  method JudgeSubmission(job: Job, cases: seq<TestCase>, stopOnFirstFail: bool, partialScoring: bool)
    returns (r: Result<JudgeResult, JudgeError>)
    ensures r == JudgeJob(job, cases, stopOnFirstFail, partialScoring)
  {
    if cases == [] {
      return Failure(ProblemNotJudgeable);
    }
    var results := RunAllCases(job, cases, stopOnFirstFail);
    if results.None? {
      return Failure(ExecutionUnavailable);
    }
    return Success(Aggregate(results.value, partialScoring));
  }

  lemma {:induction false} SumsAppend(a: seq<CaseResult>, b: seq<CaseResult>)
    ensures Passed(a + b) == Passed(a) + Passed(b)
    ensures ScoreSum(a + b) == ScoreSum(a) + ScoreSum(b)
    ensures MaxScoreSum(a + b) == MaxScoreSum(a) + MaxScoreSum(b)
    ensures FirstFail(a + b) == if FirstFail(a).Some? then FirstFail(a) else FirstFail(b)
  {
    if a == [] {
      assert a + b == b;
    } else {
      assert (a + b)[1..] == a[1..] + b;
      SumsAppend(a[1..], b);
    }
  }

  function Weights(cases: seq<TestCase>): nat {
    if cases == [] then 0 else cases[0].weight + Weights(cases[1..])
  }

  lemma {:induction false} SkipsContribute(cases: seq<TestCase>)
    ensures var rs := Skips(cases);
            && |rs| == |cases| && Passed(rs) == 0 && ScoreSum(rs) == 0 && MaxScoreSum(rs) == Weights(cases)
            && FirstFail(rs).None? && forall i :: 0 <= i < |rs| ==> rs[i] == SkippedResult(cases[i])
  {
    if cases != [] {
      SkipsContribute(cases[1..]);
    }
  }

  lemma {:induction false} AnswersContribute(job: Job, cases: seq<TestCase>, rs: seq<CaseResult>)
    requires Answers(job, cases, rs)
    ensures MaxScoreSum(rs) == Weights(cases) && ScoreSum(rs) <= MaxScoreSum(rs) && Passed(rs) <= |rs|
    ensures FirstFail(rs).None? <==> !HasFailure(rs)
    ensures !HasFailure(rs) <==> Passed(rs) == |rs|
  {
    hide RunOne;
    if rs != [] {
      RunOneGives(job, cases[0]);
      var rest, rcases := rs[1..], cases[1..];
      forall i | 0 <= i < |rest| ensures RunOne(job, rcases[i]) == Some(rest[i]) {
        assert rest[i] == rs[i + 1] && rcases[i] == cases[i + 1];
      }
      AnswersContribute(job, rcases, rest);
      assert HasFailure(rs) <==> !IsPass(rs[0].verdict) || HasFailure(rest) by {
        if HasFailure(rs) {
          var i :| 0 <= i < |rs| && !IsPass(rs[i].verdict);
          assert i > 0 ==> rest[i - 1] == rs[i];
        }
        if HasFailure(rest) {
          var i :| 0 <= i < |rest| && !IsPass(rest[i].verdict);
          assert rs[i + 1] == rest[i];
        }
      }
    }
  }

  // ── what judging guarantees ──────────────────────────────────────

  lemma PublicFirstIsAnOrder()
    ensures StableSort.WeakOrder(PublicFirst)
  {
  }

  lemma {:induction false} InsertWeighs(tc: TestCase, cases: seq<TestCase>)
    ensures Weights(StableSort.Insert(tc, cases, PublicFirst)) == tc.weight + Weights(cases)
  {
    if cases != [] && PublicFirst(cases[0], tc) {
      InsertWeighs(tc, cases[1..]);
    }
  }

  lemma {:induction false} OrderedWeighs(cases: seq<TestCase>)
    ensures Weights(Ordered(cases)) == Weights(cases)
  {
    if cases != [] {
      OrderedWeighs(cases[1..]);
      InsertWeighs(cases[0], Ordered(cases[1..]));
    }
  }

  lemma {:induction false} WeighsApart(a: seq<TestCase>, b: seq<TestCase>)
    ensures Weights(a + b) == Weights(a) + Weights(b)
  {
    if a == [] {
      assert a + b == b;
    } else {
      assert (a + b)[1..] == a[1..] + b;
      WeighsApart(a[1..], b);
    }
  }

  // The results of a run that answers the first c cases and skips the others.
  ghost predicate CutAt(job: Job, cases: seq<TestCase>, rs: seq<CaseResult>, c: nat) {
    && c <= |cases| == |rs|
    && Answers(job, cases[..c], rs[..c])
    && rs[c..] == Skips(cases[c..])
    && (c < |cases| ==> c % 4 == 0 && c >= 4 && HasFailure(rs[c - 4..c]))
  }

  lemma FullIsCutAtEnd(job: Job, cases: seq<TestCase>)
    requires RunFrom(job, cases, false, false).Some?
    ensures CutAt(job, cases, RunFrom(job, cases, false, false).value, |cases|)
  {
    FullRunAnswers(job, cases, false);
    var rs := RunFrom(job, cases, false, false).value;
    assert cases[..|cases|] == cases && rs[..|cases|] == rs && rs[|cases|..] == Skips(cases[|cases|..]);
  }

  lemma StoppedIsCut(job: Job, cases: seq<TestCase>)
    requires RunFrom(job, cases, false, false).Some?
    ensures var full := RunFrom(job, cases, false, false).value; var stopped := RunFrom(job, cases, true, false);
            && |full| == |cases| && Answers(job, cases, full)
            && stopped.Some? && CutAt(job, cases, stopped.value, Cut(full))
            && stopped.value[..Cut(full)] == full[..Cut(full)]
  {
    hide Cut, RunOne, HasFailure;
    FullRunAnswers(job, cases, false);
    StoppedRunIs(job, cases);
    var full := RunFrom(job, cases, false, false).value;
    var c, rs := Cut(full), RunFrom(job, cases, true, false).value;
    CutIs(full);
    SkipsContribute(cases[c..]);
    assert rs[..c] == full[..c] && rs[c..] == Skips(cases[c..]);
    if c < |full| {
      assert rs[c - TESTCASE_CONCURRENCY..c] == full[c - TESTCASE_CONCURRENCY..c];
    }
  }

  lemma FailureBeforeCut(job: Job, cases: seq<TestCase>, rs: seq<CaseResult>, c: nat)
    requires CutAt(job, cases, rs, c)
    ensures c < |cases| ==> HasFailure(rs[..c])
  {
    hide RunOne, Skips, Answers;
    if c < |cases| {
      var last := rs[c - TESTCASE_CONCURRENCY..c];
      var i :| 0 <= i < |last| && !IsPass(last[i].verdict);
      assert rs[..c][c - TESTCASE_CONCURRENCY + i] == last[i];
    }
  }

  lemma CutSums(job: Job, cases: seq<TestCase>, rs: seq<CaseResult>, c: nat)
    requires CutAt(job, cases, rs, c)
    ensures MaxScoreSum(rs) == Weights(cases) && ScoreSum(rs) <= MaxScoreSum(rs)
    ensures Passed(rs) == Passed(rs[..c]) && ScoreSum(rs) == ScoreSum(rs[..c]) && FirstFail(rs) == FirstFail(rs[..c])
    ensures FirstFail(rs).None? <==> Passed(rs) == |rs|
  {
    hide RunOne, HasFailure, Answers, Skips, Passed, ScoreSum, MaxScoreSum, FirstFail, Weights;
    SkipsContribute(cases[c..]);
    AnswersContribute(job, cases[..c], rs[..c]);
    SumsAppend(rs[..c], rs[c..]);
    WeighsApart(cases[..c], cases[c..]);
    assert rs[..c] + rs[c..] == rs && cases[..c] + cases[c..] == cases;
    FailureBeforeCut(job, cases, rs, c);
  }

  // A run that succeeds is cut somewhere, at the end if it does not stop early.
  lemma {:induction false} EveryRunIsCut(job: Job, cases: seq<TestCase>, stop: bool)
    requires RunFrom(job, cases, stop, false).Some?
    ensures exists c: nat :: CutAt(job, cases, RunFrom(job, cases, stop, false).value, c) && (!stop ==> c == |cases|)
    decreases |cases|
  {
    hide RunOne, HasFailure;
    if !stop {
      FullIsCutAtEnd(job, cases);
    } else if cases == [] {
      assert CutAt(job, cases, [], 0);
    } else {
      var n := Batch(|cases|);
      var first, rest := RunBatch(job, cases[..n]).value, cases[n..];
      RunBatchAnswers(job, cases[..n]);
      var rs := RunFrom(job, cases, stop, false).value;
      if HasFailure(first) {
        SkipsContribute(rest);
        RunFromSkips(job, rest);
        assert rs[..n] == first && rs[n..] == Skips(rest);
        assert n < |cases| ==> rs[n - TESTCASE_CONCURRENCY..n] == first;
        assert CutAt(job, cases, rs, n);
      } else {
        EveryRunIsCut(job, rest, stop);
        var tail := RunFrom(job, rest, stop, false).value;
        var c: nat :| CutAt(job, rest, tail, c);
        ShiftCut(job, cases, first, tail, n, c);
      }
    }
  }

  lemma RunFromSkips(job: Job, todo: seq<TestCase>)
    ensures RunFrom(job, todo, true, true) == Some(Skips(todo))
  {
  }

  lemma SplitAppended(first: seq<CaseResult>, tail: seq<CaseResult>, n: nat, c: nat)
    requires |first| == n && c <= |tail|
    ensures (first + tail)[..n + c] == first + tail[..c] && (first + tail)[n + c..] == tail[c..]
  {
  }

  lemma ShiftCut(job: Job, cases: seq<TestCase>, first: seq<CaseResult>, tail: seq<CaseResult>, n: nat, c: nat)
    requires n == Batch(|cases|) && Answers(job, cases[..n], first) && CutAt(job, cases[n..], tail, c)
    ensures CutAt(job, cases, first + tail, n + c)
  {
    hide RunOne, HasFailure;
    var rs, rest := first + tail, cases[n..];
    SplitAppended(first, tail, n, c);
    assert cases[n + c..] == rest[c..];
    var asked, answered := cases[..n + c], rs[..n + c];
    forall i | 0 <= i < n + c ensures RunOne(job, asked[i]) == Some(answered[i]) {
      if i < n {
        assert asked[i] == cases[..n][i] && answered[i] == first[i];
      } else {
        assert asked[i] == rest[..c][i - n] && answered[i] == tail[..c][i - n];
      }
    }
    if c < |rest| {
      assert rs[n + c - TESTCASE_CONCURRENCY..n + c] == tail[c - TESTCASE_CONCURRENCY..c];
    }
  }

  // score / max, between 0 and 1, and growing with score.
  lemma RatioIs(score: nat, max: nat)
    requires score <= max && max > 0
    ensures var ratio := score as real / max as real;
            0.0 <= ratio <= 1.0 && ratio * max as real == score as real
  {
    var m, ratio := max as real, score as real / max as real;
    assert ratio * m == score as real;
    if ratio < 0.0 { ScaleUp(ratio, 0.0, m); }
    if ratio > 1.0 { ScaleUp(1.0, ratio, m); }
  }

  lemma Hundredfold(ratio: real, m: real, s: real)
    requires ratio * m == s
    ensures (ratio * 100.0) * m == 100.0 * s
  {
    assert (ratio * 100.0) * m == 100.0 * (ratio * m);
  }

  lemma HalfLess(x: real, y: real, m: real, xs: real, ys: real)
    requires m > 0.0 && x - 0.5 <= y && x * m == xs && y * m == ys
    ensures xs - ys <= 0.5 * m
  {
    ScaleUp(x, y + 0.5, m);
  }

  lemma RealProduct(p: int, max: nat)
    ensures p as real * max as real == (p * max) as real
  {
  }

  // The whole percentage nearest to 100 * score / max.
  ghost predicate NearestPercent(p: int, score: nat, max: nat) {
    200 * score - max <= 2 * (p * max) <= 200 * score + max
  }

  lemma NearestOfReals(product: int, score: nat, max: nat)
    requires 100.0 * score as real - 0.5 * max as real <= product as real <= 100.0 * score as real + 0.5 * max as real
    ensures 200 * score - max <= 2 * product <= 200 * score + max
  {
  }

  lemma RoundedRatio(p: int, ratio: real, score: nat, max: nat)
    requires max > 0 && ratio * max as real == score as real
    requires ratio * 100.0 - 0.5 <= p as real <= ratio * 100.0 + 0.5
    ensures NearestPercent(p, score, max)
  {
    RealProduct(p, max);
    Hundredfold(ratio, max as real, score as real);
    HalfLess(ratio * 100.0, p as real, max as real, 100.0 * score as real, (p * max) as real);
    HalfLess(p as real, ratio * 100.0, max as real, (p * max) as real, 100.0 * score as real);
    NearestOfReals(p * max, score, max);
  }

  /**
    The shown percentage is a whole number within one half of 100 * score / max, and never falls as the score rises.
  */
  lemma PercentageIsClose(score: nat, max: nat, lower: nat)
    requires lower <= score <= max
    ensures var p := Percentage(score, max);
            && 0 <= p <= 100
            && NearestPercent(p, score, max)
            && Percentage(lower, max) <= p
  {
    if max > 0 {
      var ratio, least := score as real / max as real, lower as real / max as real;
      RatioIs(score, max);
      RatioIs(lower, max);
      RatioGrows(lower, score, max);
      PercentageOfRatio(least, ratio);
      RoundedRatio(Percentage(score, max), ratio, score, max);
    }
  }

  lemma RatioGrows(lower: nat, score: nat, max: nat)
    requires lower <= score && max > 0
    ensures lower as real / max as real <= score as real / max as real
  {
    var ratio, least := score as real / max as real, lower as real / max as real;
    assert ratio * max as real == score as real && least * max as real == lower as real;
    if least > ratio { ScaleUp(ratio, least, max as real); }
  }

  lemma PercentageOfRatio(least: real, ratio: real)
    requires 0.0 <= least <= ratio <= 1.0
    ensures 0 <= Round(least * 100.0) <= Round(ratio * 100.0) <= 100
    ensures ratio * 100.0 - 0.5 <= Round(ratio * 100.0) as real <= ratio * 100.0 + 0.5
  {
    RoundIsMonotone(0.0, least * 100.0);
    RoundIsMonotone(least * 100.0, ratio * 100.0);
    RoundIsMonotone(ratio * 100.0, 100.0);
  }

  /**
    Early stop preserves meaning: whenever the full run succeeds, so does the stopped one, with the same
    overall verdict, the same maximal score and the same number of results; it never passes more cases,
    scores more or shows a higher percentage, and all-or-nothing scores agree.
  */
  lemma EarlyStopPreservesMeaning(job: Job, cases: seq<TestCase>, partial: bool)
    requires JudgeJob(job, cases, false, partial).Success?
    ensures JudgeJob(job, cases, true, partial).Success?
    ensures var full := JudgeJob(job, cases, false, partial).value;
            var stopped := JudgeJob(job, cases, true, partial).value;
            && stopped.verdict == full.verdict
            && stopped.maxScore == full.maxScore
            && stopped.total == full.total
            && stopped.passed <= full.passed
            && stopped.totalScore <= full.totalScore
            && stopped.percentage <= full.percentage
            && (!partial ==> stopped.totalScore == full.totalScore)
  {
    hide RunOne, RunFrom, Percentage, Cut, HasFailure, CutAt, Skips, Answers;
    var ordered := Ordered(cases);
    StoppedIsCut(job, ordered);
    FullIsCutAtEnd(job, ordered);
    var full, stopped := RunFrom(job, ordered, false, false).value, RunFrom(job, ordered, true, false).value;
    var c := Cut(full);
    CutSums(job, ordered, full, |ordered|);
    CutSums(job, ordered, stopped, c);
    CutLengths(job, ordered, full, |ordered|);
    CutLengths(job, ordered, stopped, c);
    SumsAppend(full[..c], full[c..]);
    assert full[..c] + full[c..] == full;
    if FirstFail(stopped).None? {
      NothingSkipped(job, ordered, stopped, c);
      assert stopped == full;
    }
    PercentageIsClose(ScoreSum(full), MaxScoreSum(full), ScoreSum(stopped));
  }

  lemma CutLengths(job: Job, cases: seq<TestCase>, rs: seq<CaseResult>, c: nat)
    requires CutAt(job, cases, rs, c)
    ensures c <= |cases| == |rs|
  {
  }

  lemma NothingSkipped(job: Job, cases: seq<TestCase>, rs: seq<CaseResult>, c: nat)
    requires CutAt(job, cases, rs, c) && FirstFail(rs).None?
    ensures c == |cases| && rs[..c] == rs
  {
    hide RunOne;
    CutSums(job, cases, rs, c);
    AnswersContribute(job, cases[..c], rs[..c]);
    SkipsContribute(cases[c..]);
    SumsAppend(rs[..c], rs[c..]);
    assert rs[..c] + rs[c..] == rs;
  }

  // Results in the order of the ordered cases, each for its own case.
  ghost predicate ResultsFor(cases: seq<TestCase>, rs: seq<CaseResult>) {
    && |rs| == |cases|
    && forall i :: 0 <= i < |rs| ==> rs[i].testCaseId == cases[i].id && rs[i].maxScore == cases[i].weight
  }

  /**
    Judging end to end: one result per case, public cases first and then by order; what is skipped is a
    suffix that starts at a multiple of four right after a batch with a failure; the verdict is a pass
    exactly when every case passed; the maximal score is the sum of the weights, however the cases were
    listed; and the percentage is the exact ratio to within one half.
  */
  lemma JudgeEndToEnd(job: Job, cases: seq<TestCase>, stop: bool, partial: bool)
    requires JudgeJob(job, cases, stop, partial).Success?
    ensures var r := JudgeJob(job, cases, stop, partial).value;
            && multiset(Ordered(cases)) == multiset(cases) && StableSort.Sorted(Ordered(cases), PublicFirst)
            && ResultsFor(Ordered(cases), r.results)
            && (exists c: nat :: CutAt(job, Ordered(cases), r.results, c) && (!stop ==> c == |cases|))
            && r.total == |cases| && r.passed <= r.total
            && (IsPass(r.verdict) <==> r.passed == r.total)
            && r.maxScore == Weights(cases) && r.totalScore <= r.maxScore
            && 0 <= r.percentage <= 100
            && NearestPercent(r.percentage, ScoreSum(r.results), r.maxScore)
  {
    hide RunOne, RunFrom, Percentage, NearestPercent, HasFailure, CutAt, Skips, Answers, Passed, ScoreSum,
         MaxScoreSum, FirstFail, Overall, Weights;
    var ordered := Ordered(cases);
    var rs := RunFrom(job, ordered, stop, false).value;
    OrderedIs(cases);
    EveryRunIsCut(job, ordered, stop);
    var c: nat :| CutAt(job, ordered, rs, c) && (!stop ==> c == |ordered|);
    CutLengths(job, ordered, rs, c);
    CutSums(job, ordered, rs, c);
    CutResults(job, ordered, rs, c);
    PassedAtMostAll(rs);
    PercentageIsClose(ScoreSum(rs), MaxScoreSum(rs), 0);
    OverallIsPass(rs);
  }

  lemma OrderedIs(cases: seq<TestCase>)
    ensures multiset(Ordered(cases)) == multiset(cases) && |Ordered(cases)| == |cases|
    ensures StableSort.Sorted(Ordered(cases), PublicFirst) && Weights(Ordered(cases)) == Weights(cases)
  {
    StableSort.SortKeeps(cases, PublicFirst);
    PublicFirstIsAnOrder();
    StableSort.SortSorts(cases, PublicFirst);
    OrderedWeighs(cases);
  }

  lemma CutResults(job: Job, cases: seq<TestCase>, rs: seq<CaseResult>, c: nat)
    requires CutAt(job, cases, rs, c)
    ensures ResultsFor(cases, rs)
  {
    hide RunOne;
    SkipsContribute(cases[c..]);
    forall i | 0 <= i < |rs| ensures rs[i].testCaseId == cases[i].id && rs[i].maxScore == cases[i].weight {
      if i < c {
        assert cases[..c][i] == cases[i] && rs[..c][i] == rs[i];
        RunOneGives(job, cases[i]);
      } else {
        assert rs[c..][i - c] == SkippedResult(cases[c..][i - c]);
      }
    }
  }

  lemma {:induction false} PassedAtMostAll(rs: seq<CaseResult>)
    ensures Passed(rs) <= |rs|
  {
    if rs != [] { PassedAtMostAll(rs[1..]); }
  }

  lemma {:induction false} FirstFailFails(rs: seq<CaseResult>)
    ensures FirstFail(rs).Some? ==> !IsPass(FirstFail(rs).value.verdict)
  {
    if rs != [] { FirstFailFails(rs[1..]); }
  }

  lemma OverallIsPass(rs: seq<CaseResult>)
    ensures IsPass(Overall(rs)) <==> FirstFail(rs).None?
  {
    FirstFailFails(rs);
  }

  // ── verdicts and comparators ─────────────────────────────────────

  // Compiled, within all limits, and exited with 0.
  predicate EndedCleanly(o: Outcome) {
    && !(o.compileError.Some? && o.compileError.value != "") && !o.timedOut && !o.oomKilled && !o.truncated
    && o.exitCode == Some(0)
  }

  /**
    A program is judged on its output exactly when it ended cleanly: otherwise neither the expected output
    nor the comparator makes any difference, and the verdict is none of the three that comparing gives.
  */
  lemma UncleanIgnoresOutput(o: Outcome, num: string -> Number)
    ensures forall e, kind ::
              MapVerdict(o, e, kind, num) in {ACCEPTED, PRESENTATION_ERROR, WRONG_ANSWER} <==> EndedCleanly(o)
    ensures (forall e1, e2, kind1, kind2 :: MapVerdict(o, e1, kind1, num) == MapVerdict(o, e2, kind2, num))
            <==> !EndedCleanly(o)
  {
    if EndedCleanly(o) {
      var other := SomethingElse(num, o.stdout);
      assert MapVerdict(o, o.stdout, ExactKind, num) != MapVerdict(o, other, ExactKind, num);
    } else {
      hide Compare;
    }
  }

  lemma SomethingElse(num: string -> Number, actual: string) returns (other: string)
    ensures Compare(num, ExactKind, actual, actual).matches && !Compare(num, ExactKind, other, actual).matches
  {
    assert Text.UnixLines("a") == "a" && Text.UnixLines("b") == "b";
    other := if Exact("a", actual).matches then "b" else "a";
  }

  lemma StricterCase(job: Job, tc: TestCase)
    ensures var exact := RunOne(job.(comparator := ExactKind), tc);
            var token := RunOne(job.(comparator := TokenKind), tc);
            var float := RunOne(job.(comparator := FloatKind), tc);
            && (exact.Some? <==> token.Some?) && (token.Some? <==> float.Some?)
            && (exact.Some? && IsPass(exact.value.verdict) ==> exact.value.verdict == token.value.verdict == ACCEPTED)
            && (token.Some? && IsPass(token.value.verdict) ==> float.value.verdict == ACCEPTED)
            && (float.Some? ==> float.value.verdict != PRESENTATION_ERROR)
  {
    hide Exact, Token, FloatMatches, Round, ByteLength;
    var raw := job.engine(tc.input);
    if raw.Some? {
      var out, exp := raw.value.stdout, tc.expectedOutput;
      CompareFacts(job.num, exp, out);
    }
  }

  lemma CompareFacts(num: string -> Number, e: string, a: string)
    ensures !Exact(e, a).presentationError
    ensures Exact(e, a).matches ==> Token(e, a) == CompareResult(true, false)
    ensures Token(e, a).matches ==> FloatMatches(num, e, a)
  {
    hide FloatMatches, Text.Tokenize, Text.UnixLines, Text.TrimEnd;
    if Exact(e, a).matches { ExactImpliesToken(e, a); }
    if Token(e, a).matches { TokenImpliesFloat(num, e, a); }
  }

  lemma {:induction false} AllPass(rs: seq<CaseResult>)
    ensures Passed(rs) == |rs| <==> forall i :: 0 <= i < |rs| ==> IsPass(rs[i].verdict)
  {
    if rs != [] {
      AllPass(rs[1..]);
      PassedAtMostAll(rs[1..]);
      assert forall i :: 0 < i < |rs| ==> rs[i] == rs[1..][i - 1];
      assert forall i :: 0 <= i < |rs| - 1 ==> rs[1..][i] == rs[i + 1];
    }
  }

  /**
    The comparators form a hierarchy for whole submissions: what EXACT accepts TOKEN accepts as it stands,
    and what TOKEN passes, spacing errors included, FLOAT accepts.
  */
  lemma StricterComparatorsAcceptLess(job: Job, cases: seq<TestCase>, partial: bool)
    requires JudgeJob(job.(comparator := ExactKind), cases, false, partial).Success?
    ensures var exact := JudgeJob(job.(comparator := ExactKind), cases, false, partial);
            var token := JudgeJob(job.(comparator := TokenKind), cases, false, partial);
            var float := JudgeJob(job.(comparator := FloatKind), cases, false, partial);
            && token.Success? && float.Success?
            && exact.value.passed <= token.value.passed <= float.value.passed
            && (IsPass(exact.value.verdict) ==> token.value.verdict == ACCEPTED)
            && (IsPass(token.value.verdict) ==> float.value.verdict == ACCEPTED)
  {
    hide RunOne, RunFrom, Percentage;
    var ordered := Ordered(cases);
    forall tc: TestCase { StricterCase(job, tc); }
    FullRunAnswers(job.(comparator := ExactKind), ordered, false);
    FullRunAnswers(job.(comparator := TokenKind), ordered, false);
    FullRunAnswers(job.(comparator := FloatKind), ordered, false);
    var exact := RunFrom(job.(comparator := ExactKind), ordered, false, false).value;
    var token := RunFrom(job.(comparator := TokenKind), ordered, false, false).value;
    var float := RunFrom(job.(comparator := FloatKind), ordered, false, false).value;
    PassedGrows(exact, token);
    PassedGrows(token, float);
    JudgedPass(job.(comparator := ExactKind), ordered, exact);
    JudgedPass(job.(comparator := TokenKind), ordered, token);
    JudgedPass(job.(comparator := FloatKind), ordered, float);
    AcceptedUnlessSpacing(token);
    AcceptedUnlessSpacing(float);
  }

  lemma {:induction false} PassedGrows(a: seq<CaseResult>, b: seq<CaseResult>)
    requires |a| == |b| && forall i :: 0 <= i < |a| && IsPass(a[i].verdict) ==> IsPass(b[i].verdict)
    ensures Passed(a) <= Passed(b)
  {
    if a != [] {
      assert forall i :: 0 <= i < |a| - 1 ==> a[1..][i] == a[i + 1] && b[1..][i] == b[i + 1];
      PassedGrows(a[1..], b[1..]);
    }
  }

  lemma JudgedPass(job: Job, cases: seq<TestCase>, rs: seq<CaseResult>)
    requires Answers(job, cases, rs)
    ensures IsPass(Overall(rs)) <==> forall i :: 0 <= i < |rs| ==> IsPass(rs[i].verdict)
  {
    hide RunOne;
    AnswersContribute(job, cases, rs);
    OverallIsPass(rs);
  }

  lemma AcceptedUnlessSpacing(rs: seq<CaseResult>)
    ensures IsPass(Overall(rs)) && (forall i :: 0 <= i < |rs| ==> rs[i].verdict != PRESENTATION_ERROR)
            ==> Overall(rs) == ACCEPTED
  {
    FirstFailFails(rs);
  }
}
