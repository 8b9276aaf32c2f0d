/**
  The rules of a battle as a player knows them: who may do what in which state,
  who wins, and what the room and the log then show.  They are stated over every
  run of the entry points without the functions that carry the entry points out.
*/
module BattleRules {
  import opened Wrappers
  import opened BattleTypes
  import opened BattleLifecycle

  // ── states ───────────────────────────────────────────────────────

  predicate ByHost(s: Slot, actor: UserId, nonce: int)
    requires s.battle.Some?
  {
    actor == s.battle.value.hostId && nonce > NonceOf(s, actor)
  }

  predicate Running(state: RuntimeState) {
    state == ACTIVE || state == PAUSED
  }

  // The first accepted verdict of a one-versus-one battle that is ACTIVE wins it.
  predicate WinsBy(s: Slot, op: Op) {
    && op.RecordVerdict? && op.accepted
    && s.runtime.Some? && s.runtime.value.state == ACTIVE && s.runtime.value.mode == OneVsOne
  }

  // Where a battle stands after an operation.
  function StageAfter(s: Slot, op: Op): RuntimeState
    requires s.battle.Some?
  {
    var now := Stage(s);
    match op
    case Start(actor) => if now == WAITING && actor == s.battle.value.hostId then COUNTDOWN else now
    case RunStartActive(_) => if now == COUNTDOWN then ACTIVE else now
    case Pause(actor, nonce, _) => if now == ACTIVE && ByHost(s, actor, nonce) then PAUSED else now
    case Resume(actor, nonce, _) => if now == PAUSED && ByHost(s, actor, nonce) then ACTIVE else now
    case FinishBattle(actor, nonce, _, _) => if Running(now) && ByHost(s, actor, nonce) then FINISHED else now
    case RunExpire(_) => if Running(now) then FINISHED else now
    case RunReadyTimeout(_) => if now == WAITING then CANCELLED else now
    case RecordVerdict(_, _, _) => if WinsBy(s, op) then FINISHED else now
    case Create(_, _, _, _, _) => now
    case Join(_) => now
  }

  lemma StepFollowsRules(s: Slot, op: Op)
    requires Lawful(s) && s.battle.Some?
    ensures Do(s, op).0.battle.Some? && Stage(Do(s, op).0) == StageAfter(s, op)
  {
    hide Ranked, Seated;
  }

  lemma RunFromVacant(ops: seq<Op>)
    requires AllAdmissible(ops)
    ensures Lawful(Run(Vacant, ops))
  {
    RunIsLawful(Vacant, ops);
  }

  /** On every run, an operation moves a battle exactly as its rules say: by whom, out of which state, into which. */
  lemma RunFollowsRules(ops: seq<Op>, op: Op)
    requires AllAdmissible(ops) && Run(Vacant, ops).battle.Some?
    ensures var s := Run(Vacant, ops); Do(s, op).0.battle.Some? && Stage(Do(s, op).0) == StageAfter(s, op)
  {
    hide Run, Do, Lawful;
    RunFromVacant(ops);
    StepFollowsRules(Run(Vacant, ops), op);
  }

  // ── the winner ───────────────────────────────────────────────────

  // Whom an operation that finishes a battle makes the winner.
  function WinnerBy(op: Op): Option<UserId> {
    match op
    case RecordVerdict(user, _, _) => Some(user)
    case FinishBattle(_, _, forced, _) => forced
    case _ => None
  }

  // The row, the room, the players' places and the one publication after a finish.
  ghost predicate FinishedFor(s: Slot, s': Slot, winner: Option<UserId>)
    requires s.battle.Some? && s.runtime.Some?
  {
    && s'.battle.Some? && s'.runtime.None?
    && var b, b' := s.battle.value, s'.battle.value;
       && b'.status == Finished && b'.roomStatus == RoomCompleted && b'.winner == winner
       && b'.hostId == b.hostId && b'.capacity == b.capacity
       && s'.results == [BattleResult(winner, s.runtime.value.participantIds, s.runtime.value.rated)]
       && |b'.participants| == |b.participants|
       && forall i :: 0 <= i < |b.participants| ==> PlacedFor(b.participants[i], b'.participants[i], winner)
  }

  // The winner is first with 100 points; everybody else is second with the points they had.
  predicate PlacedFor(p: Participant, p': Participant, winner: Option<UserId>) {
    && p'.userId == p.userId
    && (if winner == Some(p.userId) then p'.rank == Some(1) && p'.score == 100
        else p'.rank == Some(2) && p'.score == p.score)
  }

  lemma FinishFollowsRules(s: Slot, op: Op)
    requires Lawful(s) && s.battle.Some? && s.runtime.Some? && StageAfter(s, op) == FINISHED
    ensures FinishedFor(s, Do(s, op).0, WinnerBy(op))
  {
    hide Seated;
  }

  /**
    A verdict ends a battle if and only if the battle is ACTIVE, one-versus-one, and the verdict accepted;
    the stored and published winner is then the user whose verdict it was. Any other verdict of an ACTIVE
    battle adds one log entry and changes nothing else, and any other verdict at all changes nothing.
  */
  lemma VerdictDecides(ops: seq<Op>, user: UserId, accepted: bool, kept: set<JobKind>)
    requires AllAdmissible(ops)
    ensures var s, op := Run(Vacant, ops), RecordVerdict(user, accepted, kept);
            var s' := Do(s, op).0;
            && (s.runtime.Some? && s'.runtime.None? <==> WinsBy(s, op))
            && (WinsBy(s, op) ==> s.battle.Some? && FinishedFor(s, s', Some(user)))
            && (!WinsBy(s, op) && s.runtime.Some? && s.runtime.value.state == ACTIVE ==>
                  s' == s.(log := s.log + [BattleEvent(|s.log| + 1, SubmissionEvent(user))]))
            && (!(s.runtime.Some? && s.runtime.value.state == ACTIVE) ==> s' == s)
  {
    hide Run, Do, Ranked, Seated, FinishedFor;
    var s, op := Run(Vacant, ops), RecordVerdict(user, accepted, kept);
    RunFromVacant(ops);
    RecordStep(s, user, accepted, kept);
    if s.battle.Some? && WinsBy(s, op) { FinishFollowsRules(s, op); }
  }

  lemma RecordStep(s: Slot, user: UserId, accepted: bool, kept: set<JobKind>)
    requires Lawful(s)
    ensures var op := RecordVerdict(user, accepted, kept);
            var s' := Do(s, op).0;
            && (s.runtime.Some? && s'.runtime.None? <==> WinsBy(s, op))
            && (!WinsBy(s, op) && s.runtime.Some? && s.runtime.value.state == ACTIVE ==>
                  s' == s.(log := s.log + [BattleEvent(|s.log| + 1, SubmissionEvent(user))]))
            && (!(s.runtime.Some? && s.runtime.value.state == ACTIVE) ==> s' == s)
  {
    hide Ranked, Seated;
  }

  // The i-th operation finished the battle.
  ghost predicate FinishedAt(ops: seq<Op>, i: nat) {
    && i < |ops|
    && var s := Run(Vacant, ops[..i]);
       s.battle.Some? && s.runtime.Some? && StageAfter(s, ops[i]) == FINISHED
  }

  /**
    The winner of a finished battle, over any run: there is exactly one operation that finished it, and
    the winner is the user of the first accepted verdict, whom the host chose, or nobody, by the kind of
    that operation.
  */
  lemma WinnerIsEarned(ops: seq<Op>)
    requires AllAdmissible(ops)
    ensures var r := Run(Vacant, ops);
            r.battle.Some? && r.battle.value.status == Finished ==>
              && (exists i: nat :: FinishedAt(ops, i) && r.battle.value.winner == WinnerBy(ops[i]))
              && forall i: nat, j: nat :: FinishedAt(ops, i) && FinishedAt(ops, j) ==> i == j
  {
    var r := Run(Vacant, ops);
    if r.battle.Some? && r.battle.value.status == Finished {
      FinishExists(ops);
      forall i: nat, j: nat | FinishedAt(ops, i) && FinishedAt(ops, j) ensures i == j {
        if i < j { FinishIsLast(ops, i, j); }
        if j < i { FinishIsLast(ops, j, i); }
      }
    }
  }

  lemma {:induction false} RunSplits(s: Slot, first: seq<Op>, second: seq<Op>)
    ensures Run(s, first + second) == Run(Run(s, first), second)
    decreases |first|
  {
    hide Do;
    if first == [] {
      assert first + second == second;
    } else {
      assert (first + second)[1..] == first[1..] + second;
      RunSplits(Do(s, first[0]).0, first[1..], second);
    }
  }

  lemma RunNext(ops: seq<Op>, i: nat)
    requires i < |ops|
    ensures Run(Vacant, ops[..i + 1]) == Do(Run(Vacant, ops[..i]), ops[i]).0
  {
    hide Do;
    assert ops[..i + 1] == ops[..i] + [ops[i]];
    RunSplits(Vacant, ops[..i], [ops[i]]);
    assert [ops[i]][1..] == [];
  }

  // After the operation that finished it, a battle has no record.
  lemma FinishIsLast(ops: seq<Op>, i: nat, j: nat)
    requires AllAdmissible(ops) && i < j && FinishedAt(ops, i)
    ensures !FinishedAt(ops, j)
  {
    hide Do, Run;
    if j < |ops| {
      var s := Run(Vacant, ops[..i]);
      RunFromVacant(ops[..i]);
      RunFromVacant(ops[..i + 1]);
      FinishFollowsRules(s, ops[i]);
      RunNext(ops, i);
      assert ops[..j] == ops[..i + 1] + ops[i + 1..j];
      RunSplits(Vacant, ops[..i + 1], ops[i + 1..j]);
      OverForever(Run(Vacant, ops[..i + 1]), ops[i + 1..j]);
    }
  }

  lemma {:induction false} FinishExists(ops: seq<Op>)
    requires AllAdmissible(ops)
    requires var r := Run(Vacant, ops); r.battle.Some? && r.battle.value.status == Finished
    ensures exists i: nat :: FinishedAt(ops, i) && Run(Vacant, ops).battle.value.winner == WinnerBy(ops[i])
    decreases |ops|
  {
    hide Do, Run, Lawful, StageAfter;
    NothingHappened();
    var n := |ops| - 1;
    var done, last := ops[..n], ops[n];
    var s, r := Run(Vacant, done), Run(Vacant, ops);
    assert ops[..n + 1] == ops;
    RunNext(ops, n);
    RunFromVacant(done);
    LastStep(s, last);
    if s.battle.Some? && s.runtime.Some? {
      assert FinishedAt(ops, n);
    } else {
      FinishExists(done);
      var i: nat :| FinishedAt(done, i) && s.battle.value.winner == WinnerBy(done[i]);
      assert done[..i] == ops[..i];
      assert FinishedAt(ops, i);
    }
  }

  lemma NothingHappened()
    ensures Run(Vacant, []) == Vacant
  {
  }

  // A battle that is finished after a step was finished before it, or by it.
  lemma LastStep(s: Slot, op: Op)
    requires Lawful(s)
    requires var s' := Do(s, op).0; s'.battle.Some? && s'.battle.value.status == Finished
    ensures s.battle.Some?
    ensures if s.runtime.Some? then StageAfter(s, op) == FINISHED && Do(s, op).0.battle.value.winner == WinnerBy(op)
            else s.battle == Do(s, op).0.battle
  {
    hide Do, Seated;
    if s.battle.None? {
      FreshBattle(s, op);
    } else if s.runtime.Some? {
      StepFollowsRules(s, op);
      StillScheduled(s, op);
      FinishFollowsRules(s, op);
    } else {
      SettledStays(s, op);
    }
  }

  lemma FreshBattle(s: Slot, op: Op)
    requires Lawful(s) && s.battle.None?
    ensures Do(s, op).0.battle.Some? ==> Do(s, op).0.battle.value.status == Scheduled
  {
  }

  lemma StillScheduled(s: Slot, op: Op)
    requires Lawful(s) && s.battle.Some? && s.runtime.Some?
    ensures Do(s, op).0.battle.Some?
    ensures Do(s, op).0.battle.value.status == Finished ==> Stage(Do(s, op).0) == FINISHED
  {
    hide Ranked, Seated;
  }

  lemma SettledStays(s: Slot, op: Op)
    requires Lawful(s) && s.battle.Some? && s.runtime.None?
    ensures Do(s, op).0.battle == s.battle
  {
    hide Ranked, Seated;
  }

  // ── players, log and time ────────────────────────────────────────

  /**
    A user gets into a battle exactly while it is live and has room, and is not in it yet; row and record
    then both list the newcomer last, and nothing else of either changes.
  */
  lemma JoinAdmits(ops: seq<Op>, user: UserId)
    requires AllAdmissible(ops) && Run(Vacant, ops).battle.Some?
    ensures var s := Run(Vacant, ops);
            var (s', reply) := Do(s, Join(user));
            var b := s.battle.value;
            && (reply.Success? <==>
                  s.runtime.Some? && user !in UserIds(b.participants) && |b.participants| < b.capacity)
            && (reply == Failure(AlreadyJoined) <==> user in UserIds(b.participants))
            && (reply.Failure? ==> s' == s)
            && (reply.Success? ==>
                  && s'.battle == Some(b.(participants := b.participants + [Participant(user, None, 0)]))
                  && s'.runtime == Some(s.runtime.value.(participantIds := UserIds(b.participants) + [user]))
                  && s'.log == s.log + [BattleEvent(|s.log| + 1, ParticipantEvent(user))])
  {
    hide Run, Seated;
    RunFromVacant(ops);
  }

  /**
    A battle begins with its host alone in a room of the wished size, and its clock when the countdown ends;
    starting changes only the state.
  */
  lemma BattleBegins(ops: seq<Op>, op: Op)
    requires AllAdmissible(ops)
    ensures var s, s' := Run(Vacant, ops), Do(Run(Vacant, ops), op).0;
            && (s.battle.None? && op.Create? ==>
                  && s'.battle == Some(Battle(Scheduled, op.host, op.capacity, RoomWaiting,
                                              [Participant(op.host, None, 0)], None))
                  && s'.runtime == Some(RuntimeBattle(op.host, op.mode, op.rated, WAITING, [op.host], None,
                                                      op.durationMs, None, None)))
            && (s.battle.Some? && s.runtime.Some? && Stage(s) == WAITING && StageAfter(s, op) == COUNTDOWN ==>
                  s'.battle == s.battle && s'.runtime == Some(s.runtime.value.(state := COUNTDOWN)))
            && (s.battle.Some? && s.runtime.Some? && Stage(s) == COUNTDOWN && op.RunStartActive? ==>
                  && s'.battle == Some(s.battle.value.(status := InProgress))
                  && s'.runtime == Some(s.runtime.value.(state := ACTIVE, startedAt := Some(op.now))))
  {
    hide Run, Do, Lawful;
    RunFromVacant(ops);
    BeginStep(Run(Vacant, ops), op);
  }

  lemma BeginStep(s: Slot, op: Op)
    requires Lawful(s)
    ensures var s' := Do(s, op).0;
            && (s.battle.None? && op.Create? ==>
                  && s'.battle == Some(Battle(Scheduled, op.host, op.capacity, RoomWaiting,
                                              [Participant(op.host, None, 0)], None))
                  && s'.runtime == Some(RuntimeBattle(op.host, op.mode, op.rated, WAITING, [op.host], None,
                                                      op.durationMs, None, None)))
            && (s.battle.Some? && s.runtime.Some? && Stage(s) == WAITING && StageAfter(s, op) == COUNTDOWN ==>
                  s'.battle == s.battle && s'.runtime == Some(s.runtime.value.(state := COUNTDOWN)))
            && (s.battle.Some? && s.runtime.Some? && Stage(s) == COUNTDOWN && op.RunStartActive? ==>
                  && s'.battle == Some(s.battle.value.(status := InProgress))
                  && s'.runtime == Some(s.runtime.value.(state := ACTIVE, startedAt := Some(op.now))))
  {
    hide Ranked, Seated;
  }

  // What an operation of a live battle is logged as, if at all.
  function Logs(s: Slot, op: Op): Option<Happening>
    requires s.battle.Some? && s.runtime.Some?
  {
    if StageAfter(s, op) != Stage(s) then Some(StateEvent(StageAfter(s, op)))
    else if op.Join? && op.user !in UserIds(s.battle.value.participants)
         && |s.battle.value.participants| < s.battle.value.capacity then Some(ParticipantEvent(op.user))
    else if op.RecordVerdict? && Stage(s) == ACTIVE then Some(SubmissionEvent(op.user))
    else None
  }

  /**
    While a battle lives, its log tells the story: one numbered entry for each change of state, arrival and verdict.
  */
  lemma LogTellsTheStory(ops: seq<Op>, op: Op)
    requires AllAdmissible(ops) && Run(Vacant, ops).battle.Some? && Run(Vacant, ops).runtime.Some?
    ensures var s, s' := Run(Vacant, ops), Do(Run(Vacant, ops), op).0;
            s'.runtime.Some? ==>
              s'.log == s.log + if Logs(s, op).Some? then [BattleEvent(|s.log| + 1, Logs(s, op).value)] else []
  {
    hide Run, Do;
    RunFromVacant(ops);
    LogStep(Run(Vacant, ops), op);
  }

  lemma LogStep(s: Slot, op: Op)
    requires Lawful(s) && s.battle.Some? && s.runtime.Some?
    ensures var s' := Do(s, op).0;
            s'.runtime.Some? ==>
              s'.log == s.log + if Logs(s, op).Some? then [BattleEvent(|s.log| + 1, Logs(s, op).value)] else []
  {
    hide Ranked, Seated;
  }

  // No operation takes the battle out of PAUSED.
  ghost predicate StaysPaused(s: Slot, ops: seq<Op>)
    decreases |ops|
  {
    && s.battle.Some? && s.runtime.Some? && Stage(s) == PAUSED
    && (ops != [] ==> StaysPaused(Do(s, ops[0]).0, ops[1..]))
  }

  lemma PausedStep(s: Slot, op: Op)
    requires Lawful(s) && s.battle.Some? && s.runtime.Some? && Stage(s) == PAUSED && StageAfter(s, op) == PAUSED
    ensures var r, s' := s.runtime.value, Do(s, op).0;
            && s'.battle.Some? && s'.runtime.Some?
            && (s'.runtime.value.pausedAt, s'.runtime.value.durationMs, s'.runtime.value.startedAt)
               == (r.pausedAt, r.durationMs, r.startedAt)
  {
    hide Ranked, Seated;
  }

  lemma {:induction false} PausedClockStands(s: Slot, ops: seq<Op>)
    requires Lawful(s) && AllAdmissible(ops) && StaysPaused(s, ops)
    ensures var r, s' := s.runtime.value, Run(s, ops);
            && s'.battle.Some? && s'.runtime.Some? && Stage(s') == PAUSED
            && (s'.runtime.value.pausedAt, s'.runtime.value.durationMs, s'.runtime.value.startedAt)
               == (r.pausedAt, r.durationMs, r.startedAt)
    decreases |ops|
  {
    hide Do, Lawful;
    if ops != [] {
      StepIsLawful(s, ops[0]);
      StepFollowsRules(s, ops[0]);
      PausedStep(s, ops[0]);
      PausedClockStands(Do(s, ops[0]).0, ops[1..]);
    }
  }

  lemma PauseStops(s: Slot, actor: UserId, nonce: int, now: int)
    requires Lawful(s) && s.battle.Some? && StageAfter(s, Pause(actor, nonce, now)) == PAUSED && Stage(s) == ACTIVE
    ensures Do(s, Pause(actor, nonce, now)).0.runtime == Some(s.runtime.value.(state := PAUSED, pausedAt := Some(now)))
  {
  }

  lemma ResumeGoesOn(s: Slot, actor: UserId, nonce: int, now: int)
    requires Lawful(s) && s.battle.Some? && s.runtime.Some? && Stage(s) == PAUSED
    requires StageAfter(s, Resume(actor, nonce, now)) == ACTIVE
    requires s.runtime.value.pausedAt.Some? && s.runtime.value.pausedAt.value != 0
    ensures Do(s, Resume(actor, nonce, now)).0.runtime
            == Some(s.runtime.value.(state := ACTIVE, pausedAt := None,
                                     durationMs := s.runtime.value.durationMs + now - s.runtime.value.pausedAt.value))
  {
  }

  /**
    Time stands still during a pause: whatever happens between pausing and resuming, the battle goes on
    with its start unchanged and exactly the length of the pause added to its duration.  (A pause at time 0
    would not count: the code takes it for none.)
  */
  lemma PausedTimeIsAdded(ops: seq<Op>, pause: Op, between: seq<Op>, resume: Op)
    requires AllAdmissible(ops) && AllAdmissible(between) && pause.Pause? && resume.Resume? && pause.now != 0
    requires var s := Run(Vacant, ops); s.battle.Some? && Stage(s) == ACTIVE && StageAfter(s, pause) == PAUSED
    requires StaysPaused(Do(Run(Vacant, ops), pause).0, between)
    requires var s := Run(Do(Run(Vacant, ops), pause).0, between); s.battle.Some? && StageAfter(s, resume) == ACTIVE
    ensures var s := Run(Vacant, ops);
            var s' := Do(Run(Do(s, pause).0, between), resume).0;
            && s.runtime.Some? && s'.runtime.Some?
            && s'.runtime.value.durationMs == s.runtime.value.durationMs + (resume.now - pause.now)
            && s'.runtime.value.startedAt == s.runtime.value.startedAt && s'.runtime.value.pausedAt.None?
  {
    hide Run, Do, Lawful, StaysPaused, StageAfter;
    var s := Run(Vacant, ops);
    RunFromVacant(ops);
    PauseStops(s, pause.actor, pause.nonce, pause.now);
    StepIsLawful(s, pause);
    var s1 := Do(s, pause).0;
    PausedClockStands(s1, between);
    RunIsLawful(s1, between);
    ResumeGoesOn(Run(s1, between), resume.actor, resume.nonce, resume.now);
  }
}
