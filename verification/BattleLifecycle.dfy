/**
  The battle engine with each service method as one atomic step.  The state of a
  battle is split over a durable row, a volatile runtime record, a set of delayed
  jobs, an event log and per-user nonces; a `Slot` is all of it for one battle.

  Entry points are the ones that are wired: the create, join, start, pause,
  resume and finish routes, the three jobs of the scheduler worker, and verdicts
  arriving from the judge.
*/
module BattleLifecycle {
  import opened Wrappers
  import opened BattleTypes

  type BattleId = string

  datatype JobKind = START_ACTIVE | EXPIRE | READY_TIMEOUT

  datatype RoomStatus = RoomWaiting | RoomCompleted | RoomCancelled

  datatype Participant = Participant(userId: UserId, rank: Option<int>, score: int)

  datatype Battle = Battle(
    status: BattleStatus,
    hostId: UserId,
    capacity: nat,
    roomStatus: RoomStatus,
    participants: seq<Participant>,
    winner: Option<UserId>)

  datatype Happening = StateEvent(state: RuntimeState) | ParticipantEvent(user: UserId) | SubmissionEvent(user: UserId)

  datatype BattleEvent = BattleEvent(number: int, what: Happening)

  datatype BattleResult = BattleResult(winner: Option<UserId>, participantIds: seq<UserId>, rated: bool)

  datatype Slot = Slot(
    battle: Option<Battle>,
    runtime: Option<RuntimeBattle>,
    jobs: set<JobKind>,
    log: seq<BattleEvent>,
    nonces: map<UserId, int>,
    results: seq<BattleResult>)

  datatype Error =
    | BattleNotFound | NotHost | InvalidTransition | BattleFinished | ReplayProtection
    | AlreadyJoined | RoomClosed | RoomFull

  type Reply = Result<(), Error>

  const Vacant := Slot(None, None, {}, [], map[], [])

  // ── the parts every method is made of ────────────────────────────

  function NextSeq(log: seq<BattleEvent>): int {
    if log == [] then 1 else log[|log| - 1].number + 1
  }

  function Logged(s: Slot, what: Happening): Slot {
    s.(log := s.log + [BattleEvent(NextSeq(s.log), what)])
  }

  function UserIds(ps: seq<Participant>): seq<UserId> {
    seq(|ps|, i requires 0 <= i < |ps| => ps[i].userId)
  }

  function Ranked(ps: seq<Participant>, winner: Option<UserId>): seq<Participant> {
    seq(|ps|, i requires 0 <= i < |ps| =>
      if Some(ps[i].userId) == winner then Participant(ps[i].userId, Some(1), 100)
      else Participant(ps[i].userId, Some(2), ps[i].score))
  }

  // The compare-and-set, with nobody else about.
  // Which states the service's one transition error names.
  datatype TransitionError = NotAnEdge | Missing | InState(state: RuntimeState)

  function TransitionRefusal(s: Slot, from: RuntimeState, to: RuntimeState): Option<TransitionError> {
    if !CanTransition(from, to) then Some(NotAnEdge)
    else if s.runtime.None? then Some(Missing)
    else if s.runtime.value.state != from then Some(InState(s.runtime.value.state))
    else None
  }

  function Moved(s: Slot, from: RuntimeState, next: RuntimeBattle -> RuntimeBattle): Result<Slot, Error> {
    if s.runtime.None? || s.runtime.value.state != from then Failure(InvalidTransition)
    else Success(s.(runtime := Some(next(s.runtime.value))))
  }

  // cancelAll swallows the failure of a removal: the jobs in kept stay in the queue.
  function Finalized(s: Slot, b: Battle, r: RuntimeBattle, winner: Option<UserId>, kept: set<JobKind>): Slot {
    Slot(Some(b.(status := Finished, roomStatus := RoomCompleted, winner := winner,
                 participants := Ranked(b.participants, winner))),
         None, s.jobs * kept, [], s.nonces,
         s.results + [BattleResult(winner, r.participantIds, r.rated)])
  }

  function CancelledSlot(s: Slot, b: Battle, kept: set<JobKind>): Slot {
    Slot(Some(b.(status := Aborted, roomStatus := RoomCancelled)), None, s.jobs * kept, [], s.nonces, s.results)
  }

  function NonceOf(s: Slot, u: UserId): int {
    if u in s.nonces then s.nonces[u] else 0
  }

  // ── the entry points ─────────────────────────────────────────────

  datatype Op =
    | Create(host: UserId, mode: BattleMode, rated: bool, capacity: nat, durationMs: int)
    | Join(user: UserId)
    | Start(actor: UserId)
    | RunStartActive(now: int)
    | Pause(actor: UserId, nonce: int, now: int)
    | Resume(actor: UserId, nonce: int, now: int)
    | FinishBattle(actor: UserId, nonce: int, forced: Option<UserId>, kept: set<JobKind>)
    | RunExpire(kept: set<JobKind>)
    | RunReadyTimeout(kept: set<JobKind>)
    | RecordVerdict(user: UserId, accepted: bool, kept: set<JobKind>)

  function DoCreate(s: Slot, host: UserId, mode: BattleMode, rated: bool, capacity: nat, durationMs: int)
    : (Slot, Reply)
  {
    if s.battle.Some? then (s, Success(())) // an id is generated afresh for every create
    else
      (Slot(Some(Battle(Scheduled, host, capacity, RoomWaiting, [Participant(host, None, 0)], None)),
            Some(RuntimeBattle(host, mode, rated, WAITING, [host], None, durationMs, None, None)),
            s.jobs + {READY_TIMEOUT}, s.log, s.nonces, s.results),
       Success(()))
  }

  function DoJoin(s: Slot, user: UserId): (Slot, Reply) {
    match s.battle
    case None => (s, Failure(BattleNotFound))
    case Some(b) =>
      if user in UserIds(b.participants) then (s, Failure(AlreadyJoined))
      else if b.roomStatus != RoomWaiting then (s, Failure(RoomClosed))
      else if |b.participants| >= b.capacity then (s, Failure(RoomFull))
      else
        var joined := s.(battle := Some(b.(participants := b.participants + [Participant(user, None, 0)])));
        var known := match s.runtime
                     case None => None
                     case Some(r) => Some(r.(participantIds := if user in r.participantIds then r.participantIds
                                                               else r.participantIds + [user]));
        (Logged(joined.(runtime := known), ParticipantEvent(user)), Success(()))
  }

  function DoStart(s: Slot, actor: UserId): (Slot, Reply) {
    if s.battle.None? then (s, Failure(BattleNotFound))
    else if s.battle.value.hostId != actor then (s, Failure(NotHost))
    else
      match Moved(s, WAITING, (r: RuntimeBattle) => r.(state := COUNTDOWN))
      case Failure(e) => (s, Failure(e))
      case Success(s') =>
        var logged := Logged(s', StateEvent(COUNTDOWN));
        (logged.(jobs := logged.jobs + {START_ACTIVE}), Success(()))
  }

  // The worker takes the job off the queue before it calls the service.
  function DoActivate(queued: Slot, now: int): (Slot, Reply) {
    if START_ACTIVE !in queued.jobs then (queued, Success(()))
    else
      var s := queued.(jobs := queued.jobs - {START_ACTIVE});
      if s.battle.None? then (s, Failure(BattleNotFound))
      else
        match Moved(s, COUNTDOWN, (r: RuntimeBattle) => r.(state := ACTIVE, startedAt := Some(now)))
        case Failure(e) => (s, Failure(e))
        case Success(s') =>
          var logged := Logged(s'.(battle := Some(s.battle.value.(status := InProgress))), StateEvent(ACTIVE));
          (logged.(jobs := logged.jobs + {EXPIRE}), Success(()))
  }

  function DoPause(s: Slot, actor: UserId, nonce: int, now: int): (Slot, Reply) {
    if nonce <= NonceOf(s, actor) then (s, Failure(ReplayProtection))
    else
      var t := s.(nonces := s.nonces[actor := nonce]);
      if t.battle.None? then (t, Failure(BattleNotFound))
      else if t.battle.value.hostId != actor then (t, Failure(NotHost))
      else
        match Moved(t, ACTIVE, (r: RuntimeBattle) => r.(state := PAUSED, pausedAt := Some(now)))
        case Failure(e) => (t, Failure(e))
        case Success(t') => (Logged(t', StateEvent(PAUSED)), Success(()))
  }

  function Resumed(r: RuntimeBattle, now: int): RuntimeBattle {
    var pausedMs := if r.pausedAt.Some? && r.pausedAt.value != 0 then now - r.pausedAt.value else 0;
    r.(state := ACTIVE, pausedAt := None, durationMs := r.durationMs + pausedMs)
  }

  function DoResume(s: Slot, actor: UserId, nonce: int, now: int): (Slot, Reply) {
    if nonce <= NonceOf(s, actor) then (s, Failure(ReplayProtection))
    else
      var t := s.(nonces := s.nonces[actor := nonce]);
      if t.battle.None? then (t, Failure(BattleNotFound))
      else if t.battle.value.hostId != actor then (t, Failure(NotHost))
      else
        match Moved(t, PAUSED, (r: RuntimeBattle) => Resumed(r, now))
        case Failure(e) => (t, Failure(e))
        case Success(t') => (Logged(t', StateEvent(ACTIVE)), Success(()))
  }

  function DoFinish(s: Slot, actor: UserId, nonce: int, forced: Option<UserId>, kept: set<JobKind>): (Slot, Reply) {
    if nonce <= NonceOf(s, actor) then (s, Failure(ReplayProtection))
    else
      var t := s.(nonces := s.nonces[actor := nonce]);
      if t.battle.None? then (t, Failure(BattleNotFound))
      else if t.battle.value.status == Finished then (t, Failure(BattleFinished))
      else if t.battle.value.hostId != actor then (t, Failure(NotHost))
      else if t.runtime.None? then (t, Failure(BattleNotFound))
      else if t.runtime.value.state != ACTIVE && t.runtime.value.state != PAUSED then (t, Failure(InvalidTransition))
      else
        var winner := if forced.Some? then forced else t.runtime.value.winnerId;
        (Finalized(t, t.battle.value, t.runtime.value, winner, kept), Success(()))
  }

  function DoExpire(queued: Slot, kept: set<JobKind>): (Slot, Reply) {
    if EXPIRE !in queued.jobs then (queued, Success(()))
    else
      var s := queued.(jobs := queued.jobs - {EXPIRE});
      if s.runtime.None? then (s, Success(()))
      else if s.battle.None? then (s, Failure(BattleNotFound))
      else if s.runtime.value.state == WAITING || s.runtime.value.state == COUNTDOWN then
        (CancelledSlot(s, s.battle.value, kept), Success(()))
      else
        (Finalized(s, s.battle.value, s.runtime.value, s.runtime.value.winnerId, kept), Success(()))
  }

  function DoReadyTimeout(queued: Slot, kept: set<JobKind>): (Slot, Reply) {
    if READY_TIMEOUT !in queued.jobs then (queued, Success(()))
    else
      var s := queued.(jobs := queued.jobs - {READY_TIMEOUT});
      if s.runtime.None? || s.runtime.value.state != WAITING then (s, Success(()))
      else if s.battle.None? then (s, Failure(BattleNotFound))
      else (CancelledSlot(s, s.battle.value, kept), Success(()))
  }

  function DoRecord(s: Slot, user: UserId, accepted: bool, kept: set<JobKind>): (Slot, Reply) {
    if s.runtime.None? || s.runtime.value.state != ACTIVE then (s, Success(()))
    else if s.battle.None? then (s, Failure(BattleNotFound))
    else
      var t := Logged(s, SubmissionEvent(user));
      var r := s.runtime.value;
      if accepted && r.mode == OneVsOne && r.winnerId.None? then
        (Finalized(t, t.battle.value, r.(winnerId := Some(user)), Some(user), kept), Success(()))
      else
        (t, Success(()))
  }

  function Do(s: Slot, op: Op): (Slot, Reply) {
    match op
    case Create(host, mode, rated, capacity, durationMs) => DoCreate(s, host, mode, rated, capacity, durationMs)
    case Join(user) => DoJoin(s, user)
    case Start(actor) => DoStart(s, actor)
    case RunStartActive(now) => DoActivate(s, now)
    case Pause(actor, nonce, now) => DoPause(s, actor, nonce, now)
    case Resume(actor, nonce, now) => DoResume(s, actor, nonce, now)
    case FinishBattle(actor, nonce, forced, kept) => DoFinish(s, actor, nonce, forced, kept)
    case RunExpire(kept) => DoExpire(s, kept)
    case RunReadyTimeout(kept) => DoReadyTimeout(s, kept)
    case RecordVerdict(user, accepted, kept) => DoRecord(s, user, accepted, kept)
  }

  function Run(s: Slot, ops: seq<Op>): Slot
    decreases |ops|
  {
    if ops == [] then s else Run(Do(s, ops[0]).0, ops[1..])
  }

  // createBattleSchema: a room holds at least two.
  predicate Admissible(op: Op) {
    op.Create? ==> op.capacity >= 2
  }

  // ── the life cycle invariant ─────────────────────────────────────

  ghost predicate Consecutive(log: seq<BattleEvent>) {
    forall i :: 0 <= i < |log| ==> log[i].number == i + 1
  }

  // The timers that must, and those that must not, be pending in each live state.
  ghost predicate TimersFit(state: RuntimeState, jobs: set<JobKind>) {
    match state
    case WAITING => READY_TIMEOUT in jobs && START_ACTIVE !in jobs && EXPIRE !in jobs
    case COUNTDOWN => START_ACTIVE in jobs && EXPIRE !in jobs
    case ACTIVE => EXPIRE in jobs && START_ACTIVE !in jobs
    case PAUSED => EXPIRE in jobs && START_ACTIVE !in jobs
    case _ => false
  }

  ghost predicate Live(s: Slot, b: Battle, r: RuntimeBattle) {
    && TimersFit(r.state, s.jobs)
    && b.status == ToPersistedStatus(r.state)
    && b.roomStatus == RoomWaiting && b.winner.None? && r.winnerId.None?
    && r.hostId == b.hostId
    && r.participantIds == UserIds(b.participants)
    && (r.pausedAt.Some? <==> r.state == PAUSED)
    && (r.startedAt.Some? <==> r.state == ACTIVE || r.state == PAUSED)
    && s.results == []
    && Consecutive(s.log)
  }

  ghost predicate Over(s: Slot, b: Battle) {
    && b.roomStatus != RoomWaiting && s.log == []
    && (b.status == Finished ==> |s.results| == 1 && s.results[0].winner == b.winner)
    && (b.status != Finished ==> b.status == Aborted && s.results == [] && b.winner.None?)
  }

  ghost predicate Seated(b: Battle) {
    && |b.participants| <= b.capacity
    && b.hostId in UserIds(b.participants)
    && forall i, j :: 0 <= i < j < |b.participants| ==> b.participants[i].userId != b.participants[j].userId
  }

  ghost predicate Lawful(s: Slot) {
    match s.battle
    case None => s.runtime.None? && s.jobs == {} && s.log == [] && s.results == []
    case Some(b) => Seated(b) && if s.runtime.Some? then Live(s, b, s.runtime.value) else Over(s, b)
  }

  // Where the battle stands: the live state, or the terminal state its row records.
  function Stage(s: Slot): RuntimeState
    requires s.battle.Some?
  {
    if s.runtime.Some? then s.runtime.value.state
    else if s.battle.value.status == Finished then FINISHED else CANCELLED
  }

  ghost predicate Advances(s: Slot, s': Slot) {
    s.battle.Some? ==>
      && s'.battle.Some?
      && (Stage(s') == Stage(s) || CanTransition(Stage(s), Stage(s')))
      && (s.runtime.None? ==> s'.runtime.None? && s'.battle == s.battle && s'.results == s.results)
  }

  lemma SeatedStays(b: Battle, b': Battle)
    requires Seated(b) && UserIds(b'.participants) == UserIds(b.participants)
    requires b'.capacity == b.capacity && b'.hostId == b.hostId
    ensures Seated(b')
  {
    var ids, ids' := UserIds(b.participants), UserIds(b'.participants);
    forall i, j | 0 <= i < j < |b'.participants| ensures b'.participants[i].userId != b'.participants[j].userId {
      assert ids[i] == ids'[i] && ids[j] == ids'[j];
    }
  }

  lemma LoggedConsecutive(s: Slot, what: Happening)
    requires Consecutive(s.log)
    ensures Consecutive(Logged(s, what).log)
  {
  }

  lemma FinalizedIsOver(s: Slot, b: Battle, r: RuntimeBattle, winner: Option<UserId>, kept: set<JobKind>)
    requires s.battle == Some(b) && Seated(b) && s.results == []
    ensures var s' := Finalized(s, b, r, winner, kept);
            s'.battle.Some? && Seated(s'.battle.value) && Over(s', s'.battle.value) && Stage(s') == FINISHED
  {
    var b' := Finalized(s, b, r, winner, kept).battle.value;
    assert UserIds(b'.participants) == UserIds(b.participants);
    SeatedStays(b, b');
  }

  lemma JoinIsLawful(s: Slot, user: UserId)
    requires Lawful(s)
    ensures Lawful(DoJoin(s, user).0) && Advances(s, DoJoin(s, user).0)
  {
    var s' := DoJoin(s, user).0;
    if s.battle.Some? && DoJoin(s, user).1.Success? {
      var b, b' := s.battle.value, s'.battle.value;
      assert UserIds(b'.participants) == UserIds(b.participants) + [user];
      forall i, j | 0 <= i < j < |b'.participants| ensures b'.participants[i].userId != b'.participants[j].userId {
        assert UserIds(b.participants)[i] == b'.participants[i].userId;
      }
    }
  }

  lemma StepIsLawful(s: Slot, op: Op)
    requires Lawful(s) && Admissible(op)
    ensures Lawful(Do(s, op).0) && Advances(s, Do(s, op).0)
  {
    match op {
      case Join(user) =>
        JoinIsLawful(s, user);
      case FinishBattle(actor, nonce, forced, kept) =>
        FinishIsLawful(s, actor, nonce, forced, kept);
      case RunExpire(kept) =>
        ExpireIsLawful(s, kept);
      case RecordVerdict(user, accepted, kept) =>
        RecordIsLawful(s, user, accepted, kept);
      case RunStartActive(now) =>
        ActivateIsLawful(s, now);
      case RunReadyTimeout(kept) =>
        TimeoutIsLawful(s, kept);
      case Create(_, _, _, _, _) =>
        CreateIsLawful(s, op);
      case Start(actor) =>
        StartIsLawful(s, actor);
      case Pause(actor, nonce, now) =>
        PauseIsLawful(s, actor, nonce, now);
      case Resume(actor, nonce, now) =>
        ResumeIsLawful(s, actor, nonce, now);
    }
  }

  lemma CreateIsLawful(s: Slot, op: Op)
    requires Lawful(s) && Admissible(op) && op.Create?
    ensures Lawful(Do(s, op).0) && Advances(s, Do(s, op).0)
  {
    if s.battle.None? {
      assert UserIds([Participant(op.host, None, 0)]) == [op.host];
    }
  }

  lemma StartIsLawful(s: Slot, actor: UserId)
    requires Lawful(s)
    ensures Lawful(DoStart(s, actor).0) && Advances(s, DoStart(s, actor).0)
  {
  }

  lemma ActivateIsLawful(s: Slot, now: int)
    requires Lawful(s)
    ensures Lawful(DoActivate(s, now).0) && Advances(s, DoActivate(s, now).0)
  {
    var s' := DoActivate(s, now).0;
    if s'.battle != s.battle {
      SeatedStays(s.battle.value, s'.battle.value);
    }
  }

  lemma PauseIsLawful(s: Slot, actor: UserId, nonce: int, now: int)
    requires Lawful(s)
    ensures Lawful(DoPause(s, actor, nonce, now).0) && Advances(s, DoPause(s, actor, nonce, now).0)
  {
  }

  lemma ResumeIsLawful(s: Slot, actor: UserId, nonce: int, now: int)
    requires Lawful(s)
    ensures Lawful(DoResume(s, actor, nonce, now).0) && Advances(s, DoResume(s, actor, nonce, now).0)
  {
  }

  lemma FinishIsLawful(s: Slot, actor: UserId, nonce: int, forced: Option<UserId>, kept: set<JobKind>)
    requires Lawful(s)
    ensures var s' := DoFinish(s, actor, nonce, forced, kept).0; Lawful(s') && Advances(s, s')
  {
    hide Finalized, Seated;
    var t := s.(nonces := s.nonces[actor := nonce]);
    if s.battle.Some? && s.runtime.Some? {
      var winner := if forced.Some? then forced else s.runtime.value.winnerId;
      FinalizedIsOver(t, s.battle.value, s.runtime.value, winner, kept);
      FinalizedHasNoRecord(t, s.battle.value, s.runtime.value, winner, kept);
    }
  }

  lemma FinalizedHasNoRecord(s: Slot, b: Battle, r: RuntimeBattle, winner: Option<UserId>, kept: set<JobKind>)
    ensures Finalized(s, b, r, winner, kept).runtime.None?
  {
  }

  lemma ExpireIsLawful(s: Slot, kept: set<JobKind>)
    requires Lawful(s)
    ensures var s' := DoExpire(s, kept).0; Lawful(s') && Advances(s, s')
  {
    hide Finalized, Seated;
    if EXPIRE in s.jobs && s.battle.Some? && s.runtime.Some? {
      var t := s.(jobs := s.jobs - {EXPIRE});
      FinalizedIsOver(t, s.battle.value, s.runtime.value, s.runtime.value.winnerId, kept);
      FinalizedHasNoRecord(t, s.battle.value, s.runtime.value, s.runtime.value.winnerId, kept);
    }
  }

  lemma TimeoutIsLawful(s: Slot, kept: set<JobKind>)
    requires Lawful(s)
    ensures var s' := DoReadyTimeout(s, kept).0; Lawful(s') && Advances(s, s')
  {
    var s' := DoReadyTimeout(s, kept).0;
    if s'.battle != s.battle {
      SeatedStays(s.battle.value, s'.battle.value);
    }
  }

  lemma RecordIsLawful(s: Slot, user: UserId, accepted: bool, kept: set<JobKind>)
    requires Lawful(s)
    ensures var s' := DoRecord(s, user, accepted, kept).0; Lawful(s') && Advances(s, s')
  {
    hide Finalized, Seated;
    if s.battle.Some? && s.runtime.Some? {
      var t, r := Logged(s, SubmissionEvent(user)), s.runtime.value.(winnerId := Some(user));
      LoggedConsecutive(s, SubmissionEvent(user));
      FinalizedIsOver(t, s.battle.value, r, Some(user), kept);
      FinalizedHasNoRecord(t, s.battle.value, r, Some(user), kept);
    }
  }

  // ── whole runs ───────────────────────────────────────────────────

  ghost predicate AllAdmissible(ops: seq<Op>) {
    forall i :: 0 <= i < |ops| ==> Admissible(ops[i])
  }

  /**
    On every run of the wired entry points: the durable status is the projection of the live state, each
    live state has its timer pending, an EXPIRE job is pending only in ACTIVE or PAUSED or once the record
    is gone, a finished battle has exactly one published result with the stored winner, the event log
    is numbered from 1 without gaps, and the room never holds more players than its capacity.
  */
  lemma {:induction false} RunIsLawful(s: Slot, ops: seq<Op>)
    requires Lawful(s) && AllAdmissible(ops)
    ensures Lawful(Run(s, ops))
    decreases |ops|
  {
    hide Lawful, Do;
    if ops != [] {
      StepIsLawful(s, ops[0]);
      RunIsLawful(Do(s, ops[0]).0, ops[1..]);
    }
  }

  /** Every state change on every run is an edge of the state machine. */
  lemma EveryChangeIsAnEdge(ops: seq<Op>, op: Op)
    requires AllAdmissible(ops) && Admissible(op)
    ensures var s := Run(Vacant, ops); Advances(s, Do(s, op).0)
  {
    hide Do, Run;
    RunIsLawful(Vacant, ops);
    StepIsLawful(Run(Vacant, ops), op);
  }

  /**
    The lobby branch of expire is dead code: when an EXPIRE job runs and finds a record, the battle is
    ACTIVE or PAUSED.  That branch would take COUNTDOWN to EXPIRED, which is not an edge.
  */
  lemma ExpireNeverFindsALobby(ops: seq<Op>)
    requires AllAdmissible(ops)
    ensures var s := Run(Vacant, ops);
            EXPIRE in s.jobs && s.runtime.Some? ==> s.runtime.value.state == ACTIVE || s.runtime.value.state == PAUSED
    ensures !CanTransition(COUNTDOWN, EXPIRED)
  {
    hide Run;
    RunIsLawful(Vacant, ops);
  }

  /** A battle that runs out of time is always a draw. */
  lemma TimeExpiredIsADraw(ops: seq<Op>, kept: set<JobKind>)
    requires AllAdmissible(ops)
    ensures var s := Run(Vacant, ops); var s' := Do(s, RunExpire(kept)).0;
            s.runtime.Some? && s'.runtime.None? ==>
              s'.battle.Some? && s'.battle.value.status == Finished && s'.battle.value.winner.None?
              && s'.results == [BattleResult(None, s.runtime.value.participantIds, s.runtime.value.rated)]
  {
    hide Run;
    RunIsLawful(Vacant, ops);
  }

  /** Once the record is gone the row, FINISHED or ABORTED, and the published result never change again. */
  lemma {:induction false} OverForever(s: Slot, ops: seq<Op>)
    requires Lawful(s) && AllAdmissible(ops) && s.battle.Some? && s.runtime.None?
    ensures var r := Run(s, ops);
            && r.battle == s.battle && r.runtime.None? && r.results == s.results && r.log == []
            && (s.battle.value.status == Finished || s.battle.value.status == Aborted)
    decreases |ops|
  {
    hide Do;
    if ops != [] {
      StepIsLawful(s, ops[0]);
      OverForever(Do(s, ops[0]).0, ops[1..]);
    }
  }

  /** No battle is ever stuck: from any reachable live state the pending timers alone bring it to an end. */
  lemma TimersEndTheBattle(ops: seq<Op>, now: int)
    requires AllAdmissible(ops) && Run(Vacant, ops).battle.Some?
    ensures var s := Run(Vacant, ops);
            var s1 := Do(s, RunReadyTimeout({})).0;
            var s2 := Do(s1, RunStartActive(now)).0;
            Do(s2, RunExpire({})).0.runtime.None?
  {
    hide Run;
    RunIsLawful(Vacant, ops);
  }

  // ── replay protection ────────────────────────────────────────────

  function UsesNonce(op: Op): Option<(UserId, int)> {
    match op
    case Pause(actor, nonce, _) => Some((actor, nonce))
    case Resume(actor, nonce, _) => Some((actor, nonce))
    case FinishBattle(actor, nonce, _, _) => Some((actor, nonce))
    case _ => None
  }

  lemma StepRaisesNonces(s: Slot, op: Op, u: UserId)
    ensures NonceOf(s, u) <= NonceOf(Do(s, op).0, u)
    ensures var n := UsesNonce(op);
            n.Some? && Do(s, op).1 != Failure(ReplayProtection) ==> NonceOf(Do(s, op).0, n.value.0) == n.value.1
  {
  }

  lemma {:induction false} RunRaisesNonces(s: Slot, ops: seq<Op>, u: UserId)
    ensures NonceOf(s, u) <= NonceOf(Run(s, ops), u)
    decreases |ops|
  {
    hide Do, NonceOf;
    if ops != [] {
      StepRaisesNonces(s, ops[0], u);
      RunRaisesNonces(Do(s, ops[0]).0, ops[1..], u);
    }
  }

  /**
    A nonce that got past the check never gets past it again: whatever happens in between, the repeat is refused and
    changes nothing.
  */
  lemma NonceWorksOnce(s: Slot, first: Op, between: seq<Op>, again: Op)
    requires UsesNonce(first).Some? && UsesNonce(again).Some?
    requires UsesNonce(again).value.0 == UsesNonce(first).value.0
             && UsesNonce(again).value.1 <= UsesNonce(first).value.1
    requires Do(s, first).1 != Failure(ReplayProtection)
    ensures var t := Run(Do(s, first).0, between); Do(t, again) == (t, Failure(ReplayProtection))
  {
    var u := UsesNonce(first).value.0;
    StepRaisesNonces(s, first, u);
    RunRaisesNonces(Do(s, first).0, between, u);
  }

  // ── the engine ───────────────────────────────────────────────────

  class BattleEngine {
    var battles: map<BattleId, Battle>
    var runtimes: map<BattleId, RuntimeBattle>
    var jobs: map<BattleId, set<JobKind>>
    var logs: map<BattleId, seq<BattleEvent>>
    var nonces: map<BattleId, map<UserId, int>>
    var published: map<BattleId, seq<BattleResult>>

    function View(id: BattleId): Slot
      reads this
    {
      Slot(if id in battles then Some(battles[id]) else None,
           if id in runtimes then Some(runtimes[id]) else None,
           if id in jobs then jobs[id] else {},
           if id in logs then logs[id] else [],
           if id in nonces then nonces[id] else map[],
           if id in published then published[id] else [])
    }

    constructor ()
      ensures forall id :: View(id) == Vacant
    {
      battles, runtimes, jobs, logs, nonces, published := map[], map[], map[], map[], map[], map[];
    }

    method EmitAndLog(id: BattleId, what: Happening)
      modifies this`logs
      ensures View(id) == Logged(old(View(id)), what)
      ensures forall other :: other != id ==> View(other) == old(View(other))
    {
      var log := if id in logs then logs[id] else [];
      logs := logs[id := log + [BattleEvent(NextSeq(log), what)]];
    }

    method CheckAndBumpNonce(id: BattleId, u: UserId, nonce: int) returns (ok: bool)
      modifies this`nonces
      ensures ok == (nonce > NonceOf(old(View(id)), u))
      ensures View(id) == if ok then old(View(id)).(nonces := old(View(id)).nonces[u := nonce]) else old(View(id))
      ensures forall other :: other != id ==> View(other) == old(View(other))
    {
      var known := if id in nonces then nonces[id] else map[];
      var current := if u in known then known[u] else 0;
      if nonce <= current {
        return false;
      }
      nonces := nonces[id := known[u := nonce]];
      return true;
    }

    method GuardedTransition(id: BattleId, from: RuntimeState, to: RuntimeState, next: RuntimeBattle -> RuntimeBattle)
      returns (moved: Result<RuntimeBattle, TransitionError>)
      modifies this`runtimes
      ensures match moved
              case Failure(e) => TransitionRefusal(old(View(id)), from, to) == Some(e) && View(id) == old(View(id))
              case Success(record) =>
                && TransitionRefusal(old(View(id)), from, to).None?
                && Moved(old(View(id)), from, next) == Success(View(id)) && View(id).runtime == Some(record)
      ensures forall other :: other != id ==> View(other) == old(View(other))
    {
      if !CanTransition(from, to) {
        return Failure(NotAnEdge);
      }
      if id !in runtimes {
        return Failure(Missing);
      }
      if runtimes[id].state != from {
        return Failure(InState(runtimes[id].state));
      }
      runtimes := runtimes[id := next(runtimes[id])];
      return Success(runtimes[id]);
    }

    method Schedule(id: BattleId, kind: JobKind)
      modifies this`jobs
      ensures View(id) == old(View(id)).(jobs := old(View(id)).jobs + {kind})
      ensures forall other :: other != id ==> View(other) == old(View(other))
    {
      jobs := jobs[id := (if id in jobs then jobs[id] else {}) + {kind}];
    }

    method TakeJob(id: BattleId, kind: JobKind) returns (taken: bool)
      modifies this`jobs
      ensures taken == (kind in old(View(id)).jobs)
      ensures View(id) == if taken then old(View(id)).(jobs := old(View(id)).jobs - {kind}) else old(View(id))
      ensures forall other :: other != id ==> View(other) == old(View(other))
    {
      if id !in jobs || kind !in jobs[id] {
        return false;
      }
      jobs := jobs[id := jobs[id] - {kind}];
      return true;
    }

    method Finalize(id: BattleId, winner: Option<UserId>, r: RuntimeBattle, kept: set<JobKind>)
      requires id in battles
      modifies this
      ensures View(id) == Finalized(old(View(id)), old(battles[id]), r, winner, kept)
      ensures forall other :: other != id ==> View(other) == old(View(other))
    {
      FinishRow(id, winner);
      CancelAll(id, kept);
      EmitAndLog(id, StateEvent(FINISHED));
      Publish(id, BattleResult(winner, r.participantIds, r.rated));
      DropRuntime(id);
    }

    method FinishRow(id: BattleId, winner: Option<UserId>)
      requires id in battles
      modifies this`battles
      ensures View(id) == old(View(id)).(battle := Some(old(battles[id]).(
                            status := Finished, roomStatus := RoomCompleted, winner := winner,
                            participants := Ranked(old(battles[id]).participants, winner))))
      ensures forall other :: other != id ==> View(other) == old(View(other))
    {
      var b := battles[id];
      battles := battles[id := b.(status := Finished, roomStatus := RoomCompleted, winner := winner,
                                  participants := Ranked(b.participants, winner))];
    }

    method CancelAll(id: BattleId, kept: set<JobKind>)
      modifies this`jobs
      ensures View(id) == old(View(id)).(jobs := old(View(id)).jobs * kept)
      ensures forall other :: other != id ==> View(other) == old(View(other))
    {
      jobs := jobs[id := (if id in jobs then jobs[id] else {}) * kept];
    }

    method Publish(id: BattleId, result: BattleResult)
      modifies this`published
      ensures View(id) == old(View(id)).(results := old(View(id)).results + [result])
      ensures forall other :: other != id ==> View(other) == old(View(other))
    {
      published := published[id := (if id in published then published[id] else []) + [result]];
    }

    method CancelInternal(id: BattleId, to: RuntimeState, kept: set<JobKind>)
      requires id in battles
      modifies this
      ensures View(id) == CancelledSlot(old(View(id)), old(battles[id]), kept)
      ensures forall other :: other != id ==> View(other) == old(View(other))
    {
      battles := battles[id := battles[id].(status := Aborted, roomStatus := RoomCancelled)];
      CancelAll(id, kept);
      EmitAndLog(id, StateEvent(to));
      DropRuntime(id);
    }

    // The store's delete: the record and the event log go together.
    method DropRuntime(id: BattleId)
      modifies this`runtimes, this`logs
      ensures View(id) == old(View(id)).(runtime := None, log := [])
      ensures forall other :: other != id ==> View(other) == old(View(other))
    {
      runtimes := runtimes - {id};
      logs := logs - {id};
    }

    method CreateBattle(id: BattleId, host: UserId, mode: BattleMode, rated: bool, capacity: nat, durationMs: int)
      requires id !in battles
      modifies this
      ensures View(id) == DoCreate(old(View(id)), host, mode, rated, capacity, durationMs).0
      ensures forall other :: other != id ==> View(other) == old(View(other))
    {
      battles := battles[id := Battle(Scheduled, host, capacity, RoomWaiting, [Participant(host, None, 0)], None)];
      runtimes := runtimes[id := RuntimeBattle(host, mode, rated, WAITING, [host], None, durationMs, None, None)];
      assert forall other :: other != id ==> View(other) == old(View(other));
      Schedule(id, READY_TIMEOUT);
    }

    method JoinBattle(id: BattleId, user: UserId) returns (r: Reply)
      modifies this
      ensures (View(id), r) == DoJoin(old(View(id)), user)
      ensures forall other :: other != id ==> View(other) == old(View(other))
    {
      if id !in battles {
        return Failure(BattleNotFound);
      }
      var b := battles[id];
      if user in UserIds(b.participants) {
        return Failure(AlreadyJoined);
      }
      if b.roomStatus != RoomWaiting {
        return Failure(RoomClosed);
      }
      if |b.participants| >= b.capacity {
        return Failure(RoomFull);
      }
      battles := battles[id := b.(participants := b.participants + [Participant(user, None, 0)])];
      if id in runtimes && user !in runtimes[id].participantIds {
        runtimes := runtimes[id := runtimes[id].(participantIds := runtimes[id].participantIds + [user])];
      }
      EmitAndLog(id, ParticipantEvent(user));
      return Success(());
    }

    method StartCountdown(id: BattleId, actor: UserId) returns (r: Reply)
      modifies this
      ensures (View(id), r) == DoStart(old(View(id)), actor)
      ensures forall other :: other != id ==> View(other) == old(View(other))
    {
      if id !in battles {
        return Failure(BattleNotFound);
      }
      if battles[id].hostId != actor {
        return Failure(NotHost);
      }
      var moved := GuardedTransition(id, WAITING, COUNTDOWN, (r: RuntimeBattle) => r.(state := COUNTDOWN));
      if moved.Failure? {
        return Failure(InvalidTransition);
      }
      EmitAndLog(id, StateEvent(COUNTDOWN));
      Schedule(id, START_ACTIVE);
      return Success(());
    }

    method Activate(id: BattleId, now: int) returns (r: Reply)
      modifies this
      ensures (View(id), r) == DoActivate(old(View(id)), now)
      ensures forall other :: other != id ==> View(other) == old(View(other))
    {
      hide Logged;
      var taken := TakeJob(id, START_ACTIVE);
      if !taken {
        return Success(());
      }
      if id !in battles {
        return Failure(BattleNotFound);
      }
      var begun := (r: RuntimeBattle) => r.(state := ACTIVE, startedAt := Some(now));
      var moved := GuardedTransition(id, COUNTDOWN, ACTIVE, begun);
      if moved.Failure? {
        return Failure(InvalidTransition);
      }
      MarkStarted(id);
      EmitAndLog(id, StateEvent(ACTIVE));
      Schedule(id, EXPIRE);
      return Success(());
    }

    method MarkStarted(id: BattleId)
      requires id in battles
      modifies this`battles
      ensures View(id) == old(View(id)).(battle := Some(old(battles[id]).(status := InProgress)))
      ensures forall other :: other != id ==> View(other) == old(View(other))
    {
      battles := battles[id := battles[id].(status := InProgress)];
    }

    method PauseBattle(id: BattleId, actor: UserId, nonce: int, now: int) returns (r: Reply)
      modifies this
      ensures (View(id), r) == DoPause(old(View(id)), actor, nonce, now)
      ensures forall other :: other != id ==> View(other) == old(View(other))
    {
      var accepted := CheckAndBumpNonce(id, actor, nonce);
      if !accepted {
        return Failure(ReplayProtection);
      }
      if id !in battles {
        return Failure(BattleNotFound);
      }
      if battles[id].hostId != actor {
        return Failure(NotHost);
      }
      var moved := GuardedTransition(id, ACTIVE, PAUSED,
          (r: RuntimeBattle) => r.(state := PAUSED, pausedAt := Some(now)));
      if moved.Failure? {
        return Failure(InvalidTransition);
      }
      EmitAndLog(id, StateEvent(PAUSED));
      return Success(());
    }

    method ResumeBattle(id: BattleId, actor: UserId, nonce: int, now: int) returns (r: Reply)
      modifies this
      ensures (View(id), r) == DoResume(old(View(id)), actor, nonce, now)
      ensures forall other :: other != id ==> View(other) == old(View(other))
    {
      var accepted := CheckAndBumpNonce(id, actor, nonce);
      if !accepted {
        return Failure(ReplayProtection);
      }
      if id !in battles {
        return Failure(BattleNotFound);
      }
      if battles[id].hostId != actor {
        return Failure(NotHost);
      }
      var moved := GuardedTransition(id, PAUSED, ACTIVE, (r: RuntimeBattle) => Resumed(r, now));
      if moved.Failure? {
        return Failure(InvalidTransition);
      }
      EmitAndLog(id, StateEvent(ACTIVE));
      return Success(());
    }

    method HostFinish(id: BattleId, actor: UserId, nonce: int, forced: Option<UserId>, kept: set<JobKind>)
      returns (r: Reply)
      modifies this
      ensures (View(id), r) == DoFinish(old(View(id)), actor, nonce, forced, kept)
      ensures forall other :: other != id ==> View(other) == old(View(other))
    {
      var accepted := CheckAndBumpNonce(id, actor, nonce);
      if !accepted {
        return Failure(ReplayProtection);
      }
      if id !in battles {
        return Failure(BattleNotFound);
      }
      if battles[id].status == Finished {
        return Failure(BattleFinished);
      }
      if battles[id].hostId != actor {
        return Failure(NotHost);
      }
      if id !in runtimes {
        return Failure(BattleNotFound);
      }
      var runtime := runtimes[id];
      if runtime.state != ACTIVE && runtime.state != PAUSED {
        return Failure(InvalidTransition);
      }
      Finalize(id, if forced.Some? then forced else runtime.winnerId, runtime, kept);
      return Success(());
    }

    method Expire(id: BattleId, kept: set<JobKind>) returns (r: Reply)
      modifies this
      ensures (View(id), r) == DoExpire(old(View(id)), kept)
      ensures forall other :: other != id ==> View(other) == old(View(other))
    {
      var taken := TakeJob(id, EXPIRE);
      if !taken || id !in runtimes {
        return Success(());
      }
      if id !in battles {
        return Failure(BattleNotFound);
      }
      if runtimes[id].state == WAITING || runtimes[id].state == COUNTDOWN {
        CancelInternal(id, EXPIRED, kept);
      } else {
        Finalize(id, runtimes[id].winnerId, runtimes[id], kept);
      }
      return Success(());
    }

    method ReadyTimeout(id: BattleId, kept: set<JobKind>) returns (r: Reply)
      modifies this
      ensures (View(id), r) == DoReadyTimeout(old(View(id)), kept)
      ensures forall other :: other != id ==> View(other) == old(View(other))
    {
      var taken := TakeJob(id, READY_TIMEOUT);
      if !taken || id !in runtimes || runtimes[id].state != WAITING {
        return Success(());
      }
      if id !in battles {
        return Failure(BattleNotFound);
      }
      CancelInternal(id, CANCELLED, kept);
      return Success(());
    }

    method RecordSubmission(id: BattleId, user: UserId, accepted: bool, kept: set<JobKind>) returns (r: Reply)
      modifies this
      ensures (View(id), r) == DoRecord(old(View(id)), user, accepted, kept)
      ensures forall other :: other != id ==> View(other) == old(View(other))
    {
      if id !in runtimes || runtimes[id].state != ACTIVE {
        return Success(());
      }
      if id !in battles {
        return Failure(BattleNotFound);
      }
      EmitAndLog(id, SubmissionEvent(user));
      var latest := runtimes[id];
      if accepted && latest.mode == OneVsOne && latest.winnerId.None? {
        runtimes := runtimes[id := latest.(winnerId := Some(user))];
        Finalize(id, Some(user), runtimes[id], kept);
      }
      return Success(());
    }
  }
}
