/**
  The runtime record of one battle under concurrent calls, one Redis command per step:

    transition()  WATCH, GET, then MULTI/SET/EXEC, up to five attempts
    withLock()    SET NX with a lease, up to fifty tries, compare-and-delete to release
    finish and the accepted-verdict path of recordSubmission run under the lock and
    end in finalize(): durable finish, publication, deletion of the record

  A connection keeps one WATCH state, so it matters which callers share one.
*/
module BattleStoreProtocol {
  import opened Wrappers
  import opened BattleTypes

  type Caller = nat

  type Connection = nat

  const CAS_ATTEMPTS := 5
  const LOCK_TRIES := 50

  datatype Call =
    | Transition(expected: RuntimeState)
    | Finish(isHost: bool, forced: Option<UserId>)
    | Accept(user: UserId)

  datatype Config = Config(
    call: Caller -> Call,
    connection: Caller -> Connection,
    mutate: (Caller, RuntimeBattle) -> RuntimeBattle,
    leasesExpire: bool)

  datatype Phase =
    | Ready(attempt: nat)
    | Watching(attempt: nat)                         // WATCH sent
    | Computed(attempt: nat, current: RuntimeBattle) // GET answered with the expected state
    | Unwatching
    | Locking(tries: nat)
    | Held                                           // lock taken
    | Checked                                        // finish: status and host checked
    | Putting(latest: RuntimeBattle)                 // accept: record to be written back with its winner
    | Finalizing(winner: Option<UserId>)
    | Publishing(winner: Option<UserId>)
    | Deleting
    | Releasing
    | Done
    | Failed

  datatype Write =
    | Commit(caller: Caller, read: RuntimeBattle, before: Option<RuntimeBattle>, after: Option<RuntimeBattle>)
    | Put(caller: Caller, before: Option<RuntimeBattle>, after: Option<RuntimeBattle>)
    | Delete(caller: Caller, before: Option<RuntimeBattle>, after: Option<RuntimeBattle>)

  datatype State = State(
    record: Option<RuntimeBattle>,
    watches: map<Connection, bool>,       // watching connections; true once the record was touched
    lock: Option<Caller>,
    phases: map<Caller, Phase>,
    writes: seq<Write>,                   // every write to the record, in order
    passed: seq<(Caller, Option<UserId>)>, // lock holders that passed their checks, with the winner they chose
    finishes: seq<Option<UserId>>,        // durable finish writes
    results: seq<Option<UserId>>)         // published results

  datatype Action = Step(caller: Caller) | ExpireLease

  function PhaseOf(s: State, c: Caller): Phase {
    if c in s.phases then s.phases[c] else Ready(0)
  }

  function Touched(watches: map<Connection, bool>): map<Connection, bool> {
    map k | k in watches :: true
  }

  function At(s: State, c: Caller, p: Phase): State {
    s.(phases := s.phases[c := p])
  }

  // ── transition() ─────────────────────────────────────────────────

  function StepTransition(cfg: Config, s: State, c: Caller, expected: RuntimeState): State {
    var k := cfg.connection(c);
    match PhaseOf(s, c)
    case Ready(n) =>
      At(s, c, Watching(n)).(watches := if k in s.watches then s.watches else s.watches[k := false])
    case Watching(n) =>
      if s.record.None? || s.record.value.state != expected then At(s, c, Unwatching)
      else At(s, c, Computed(n, s.record.value))
    case Unwatching =>
      At(s, c, Failed).(watches := s.watches - {k})
    case Computed(n, current) =>
      if k in s.watches && s.watches[k] then
        At(s, c, if n + 1 == CAS_ATTEMPTS then Failed else Ready(n + 1)).(watches := s.watches - {k})
      else
        var next := Some(cfg.mutate(c, current));
        At(s, c, Done).(record := next,
                        watches := Touched(s.watches - {k}),
                        writes := s.writes + [Commit(c, current, s.record, next)])
    case _ => s
  }

  // ── withLock() around finish and accept ──────────────────────────

  function StepLocking(s: State, c: Caller, tries: nat): State {
    if s.lock.None? then At(s, c, Held).(lock := Some(c))
    else At(s, c, if tries + 1 == LOCK_TRIES then Failed else Locking(tries + 1))
  }

  function Pass(s: State, c: Caller, p: Phase, winner: Option<UserId>): State {
    At(s, c, p).(passed := s.passed + [(c, winner)])
  }

  function StepFinish(s: State, c: Caller, isHost: bool, forced: Option<UserId>): State {
    match PhaseOf(s, c)
    case Ready(_) => At(s, c, Locking(0))
    case Held => At(s, c, if s.finishes != [] || !isHost then Releasing else Checked)
    case Checked =>
      if s.record.None? || (s.record.value.state != ACTIVE && s.record.value.state != PAUSED) then At(s, c, Releasing)
      else
        var winner := if forced.Some? then forced else s.record.value.winnerId;
        Pass(s, c, Finalizing(winner), winner)
    case _ => StepShared(s, c)
  }

  function StepAccept(s: State, c: Caller, user: UserId): State {
    match PhaseOf(s, c)
    case Ready(_) =>
      if s.record.None? || s.record.value.state != ACTIVE then At(s, c, Done)
      else if s.record.value.mode != OneVsOne || s.record.value.winnerId.Some? then At(s, c, Done)
      else At(s, c, Locking(0))
    case Held =>
      if s.record.None? || s.record.value.winnerId.Some? then At(s, c, Releasing)
      else Pass(s, c, Putting(s.record.value.(winnerId := Some(user))), Some(user))
    case Putting(latest) =>
      At(s, c, Finalizing(Some(user))).(record := Some(latest),
                                        watches := Touched(s.watches),
                                        writes := s.writes + [Put(c, s.record, Some(latest))])
    case _ => StepShared(s, c)
  }

  function StepShared(s: State, c: Caller): State {
    match PhaseOf(s, c)
    case Locking(tries) => StepLocking(s, c, tries)
    case Finalizing(w) => At(s, c, Publishing(w)).(finishes := s.finishes + [w])
    case Publishing(w) => At(s, c, Deleting).(results := s.results + [w])
    case Deleting =>
      At(s, c, Releasing).(record := None,
                           watches := Touched(s.watches),
                           writes := s.writes + [Delete(c, s.record, None)])
    case Releasing => At(s, c, Done).(lock := if s.lock == Some(c) then None else s.lock)
    case _ => s
  }

  function Do(cfg: Config, s: State, a: Action): State {
    match a
    case ExpireLease => if cfg.leasesExpire then s.(lock := None) else s
    case Step(c) =>
      match cfg.call(c)
      case Transition(expected) => StepTransition(cfg, s, c, expected)
      case Finish(isHost, forced) => StepFinish(s, c, isHost, forced)
      case Accept(user) => StepAccept(s, c, user)
  }

  function Initial(record: Option<RuntimeBattle>): State {
    State(record, map[], None, map[], [], [], [], [])
  }

  function Run(cfg: Config, s: State, schedule: seq<Action>): State
    decreases |schedule|
  {
    if schedule == [] then s else Run(cfg, Do(cfg, s, schedule[0]), schedule[1..])
  }

  // ── the compare-and-set is linearizable ──────────────────────────

  ghost predicate OwnConnections(cfg: Config) {
    forall c, d :: c != d && cfg.call(c).Transition? && cfg.call(d).Transition?
      ==> cfg.connection(c) != cfg.connection(d)
  }

  // w replaced exactly what its caller had read, which was in the expected state, by mutate of it.
  ghost predicate SoundWrite(cfg: Config, w: Write) {
    w.Commit? ==>
      && cfg.call(w.caller).Transition?
      && w.before == Some(w.read)
      && w.read.state == cfg.call(w.caller).expected
      && w.after == Some(cfg.mutate(w.caller, w.read))
  }

  // Each write starts from what the previous one left; record holds what the last one left.
  ghost predicate Chained(start: Option<RuntimeBattle>, writes: seq<Write>, record: Option<RuntimeBattle>) {
    if writes == [] then record == start
    else record == writes[|writes| - 1].after && Chained(start, writes[..|writes| - 1], writes[|writes| - 1].before)
  }

  ghost predicate Linearizable(cfg: Config, start: Option<RuntimeBattle>, s: State) {
    && Chained(start, s.writes, s.record)
    && forall i :: 0 <= i < |s.writes| ==> SoundWrite(cfg, s.writes[i])
  }

  // The watching caller c, which expects a state, will see any change of the record.
  ghost predicate Guarded(s: State, p: Phase, k: Connection, expected: RuntimeState) {
    && (p.Watching? || p.Computed? ==> k in s.watches)
    && (p.Computed? ==> p.current.state == expected && (!s.watches[k] ==> s.record == Some(p.current)))
  }

  ghost predicate AllGuarded(cfg: Config, s: State) {
    forall c :: cfg.call(c).Transition? ==> Guarded(s, PhaseOf(s, c), cfg.connection(c), cfg.call(c).expected)
  }

  // What anyone on connection k notices of a step: nothing, or that the record was touched.
  ghost predicate Noticed(s: State, s': State, k: Connection) {
    k in s.watches ==> k in s'.watches && (s'.watches[k] || (s'.record == s.record && s'.watches[k] == s.watches[k]))
  }

  ghost predicate OthersUndisturbed(s: State, s': State, c: Caller) {
    forall d :: d != c ==> PhaseOf(s', d) == PhaseOf(s, d)
  }

  lemma TransitionEffect(cfg: Config, s: State, c: Caller, expected: RuntimeState)
    ensures var s' := StepTransition(cfg, s, c, expected);
            && OthersUndisturbed(s, s', c)
            && (forall k :: k != cfg.connection(c) ==> Noticed(s, s', k))
            && (Guarded(s, PhaseOf(s, c), cfg.connection(c), expected) ==>
                  Guarded(s', PhaseOf(s', c), cfg.connection(c), expected))
  {
  }

  // A step noticed by every connection, and moving nobody but its caller.
  ghost predicate Visible(s: State, s': State, c: Caller) {
    OthersUndisturbed(s, s', c) && forall k :: Noticed(s, s', k)
  }

  lemma SharedEffect(s: State, c: Caller)
    ensures Visible(s, StepShared(s, c), c)
  {
  }

  lemma FinishEffect(s: State, c: Caller, isHost: bool, forced: Option<UserId>)
    ensures Visible(s, StepFinish(s, c, isHost, forced), c)
  {
    hide StepShared;
    SharedEffect(s, c);
  }

  lemma AcceptEffect(s: State, c: Caller, user: UserId)
    ensures Visible(s, StepAccept(s, c, user), c)
  {
    hide StepShared;
    SharedEffect(s, c);
  }

  lemma LockedEffect(s: State, c: Caller, call: Call)
    requires !call.Transition?
    ensures var s' := if call.Finish? then StepFinish(s, c, call.isHost, call.forced) else StepAccept(s, c, call.user);
            OthersUndisturbed(s, s', c) && forall k :: Noticed(s, s', k)
  {
    hide StepFinish, StepAccept;
    if call.Finish? {
      FinishEffect(s, c, call.isHost, call.forced);
    } else {
      AcceptEffect(s, c, call.user);
    }
  }

  lemma StepKeepsGuards(cfg: Config, s: State, a: Action)
    requires OwnConnections(cfg) && AllGuarded(cfg, s)
    ensures AllGuarded(cfg, Do(cfg, s, a))
  {
    hide StepTransition, StepFinish, StepAccept, PhaseOf;
    var s' := Do(cfg, s, a);
    if a.Step? {
      var c := a.caller;
      if cfg.call(c).Transition? {
        TransitionEffect(cfg, s, c, cfg.call(c).expected);
      } else {
        LockedEffect(s, c, cfg.call(c));
      }
      forall d | cfg.call(d).Transition? ensures Guarded(s', PhaseOf(s', d), cfg.connection(d), cfg.call(d).expected) {
        assert Guarded(s, PhaseOf(s, d), cfg.connection(d), cfg.call(d).expected);
        assert d != c ==> PhaseOf(s', d) == PhaseOf(s, d) && Noticed(s, s', cfg.connection(d));
      }
    } else {
      PhasesOnly(s, s');
    }
  }

  lemma PhasesOnly(s: State, s': State)
    requires s.phases == s'.phases
    ensures forall c :: PhaseOf(s', c) == PhaseOf(s, c)
  {
  }

  // A step writes the record once or not at all.
  ghost predicate WroteAtMostOnce(cfg: Config, s: State, s': State) {
    (s'.writes == s.writes && s'.record == s.record)
    || exists w :: SoundWrite(cfg, w) && s'.writes == s.writes + [w] && w.before == s.record && w.after == s'.record
  }

  lemma StepWritesSoundly(cfg: Config, s: State, a: Action)
    requires AllGuarded(cfg, s)
    ensures WroteAtMostOnce(cfg, s, Do(cfg, s, a))
  {
    if a.Step? {
      var c, s' := a.caller, Do(cfg, s, a);
      match cfg.call(c) {
        case Transition(expected) =>
          assert Guarded(s, PhaseOf(s, c), cfg.connection(c), expected);
          if s'.writes != s.writes {
            var w := Commit(c, PhaseOf(s, c).current, s.record, s'.record);
            assert SoundWrite(cfg, w) && s'.writes == s.writes + [w];
          }
        case Finish(_, _) =>
          if s'.writes != s.writes {
            assert SoundWrite(cfg, Delete(c, s.record, None));
          }
        case Accept(user) =>
          if s'.writes != s.writes {
            assert SoundWrite(cfg, Delete(c, s.record, None)) && SoundWrite(cfg, Put(c, s.record, s'.record));
          }
      }
    }
  }

  lemma StepKeepsLinearizable(cfg: Config, start: Option<RuntimeBattle>, s: State, a: Action)
    requires AllGuarded(cfg, s) && Linearizable(cfg, start, s)
    ensures Linearizable(cfg, start, Do(cfg, s, a))
  {
    hide Do, AllGuarded, SoundWrite;
    var s' := Do(cfg, s, a);
    StepWritesSoundly(cfg, s, a);
    if s'.writes != s.writes {
      assert s'.writes[..|s.writes|] == s.writes;
    }
  }

  lemma {:induction false} RunLinearizable(cfg: Config, start: Option<RuntimeBattle>, s: State, schedule: seq<Action>)
    requires OwnConnections(cfg) && AllGuarded(cfg, s) && Linearizable(cfg, start, s)
    ensures var r := Run(cfg, s, schedule); AllGuarded(cfg, r) && Linearizable(cfg, start, r)
    decreases |schedule|
  {
    hide Do, AllGuarded, Linearizable, OwnConnections;
    if schedule != [] {
      StepKeepsGuards(cfg, s, schedule[0]);
      StepKeepsLinearizable(cfg, start, s, schedule[0]);
      RunLinearizable(cfg, start, Do(cfg, s, schedule[0]), schedule[1..]);
    }
  }

  /**
    With a connection for each transition caller, on every schedule of any mixture of calls and with
    leases expiring or not: each successful transition replaced exactly the value stored at that moment,
    which was in the expected state, by mutate of it.
  */
  lemma TransitionIsLinearizable(cfg: Config, start: Option<RuntimeBattle>, schedule: seq<Action>)
    requires OwnConnections(cfg)
    ensures Linearizable(cfg, start, Run(cfg, Initial(start), schedule))
  {
    RunLinearizable(cfg, start, Initial(start), schedule);
  }

  lemma {:induction false} ChainLinks(start: Option<RuntimeBattle>, writes: seq<Write>,
      record: Option<RuntimeBattle>, i: nat)
    requires Chained(start, writes, record) && 0 < i < |writes|
    ensures writes[i].before == writes[i - 1].after
    decreases |writes|
  {
    if i < |writes| - 1 {
      ChainLinks(start, writes[..|writes| - 1], writes[|writes| - 1].before, i);
    }
  }

  /**
    Two transitions out of one state cannot both win one occupancy of it: between two commits that read
    the same state, some write put the record back into that state.
  */
  lemma OneWinnerPerOccupancy(cfg: Config, start: Option<RuntimeBattle>, schedule: seq<Action>, i: nat, j: nat)
    requires OwnConnections(cfg)
    requires var ws := Run(cfg, Initial(start), schedule).writes;
             && i < j < |ws| && ws[i].Commit? && ws[j].Commit? && ws[i].read.state == ws[j].read.state
             && cfg.mutate(ws[i].caller, ws[i].read).state != ws[i].read.state
    ensures var ws := Run(cfg, Initial(start), schedule).writes;
            exists k :: i < k < j && ws[k].after.Some? && ws[k].after.value.state == ws[i].read.state
  {
    var r := Run(cfg, Initial(start), schedule);
    TransitionIsLinearizable(cfg, start, schedule);
    assert SoundWrite(cfg, r.writes[i]) && SoundWrite(cfg, r.writes[j]);
    ChainLinks(start, r.writes, r.record, j);
    assert r.writes[j - 1].after == Some(r.writes[j].read);
  }

  // ── a race out of one state ──────────────────────────────────────

  ghost predicate Racing(cfg: Config, from: RuntimeState) {
    && OwnConnections(cfg)
    && (forall c :: cfg.call(c) == Transition(from))
    && forall c, r :: cfg.mutate(c, r).state != from
  }

  ghost predicate NobodyYet(s: State, start: RuntimeBattle) {
    && s.record == Some(start) && s.writes == []
    && (forall k :: k in s.watches ==> !s.watches[k])
    && forall c :: PhaseOf(s, c) in {Ready(0), Watching(0), Computed(0, start)}
  }

  ghost predicate SomebodyWon(s: State, from: RuntimeState) {
    && |s.writes| == 1 && s.record.Some? && s.record.value.state != from
    && forall c :: PhaseOf(s, c).Done? ==> s.writes[0].caller == c
  }

  lemma RaceStep(cfg: Config, start: RuntimeBattle, s: State, a: Action)
    requires Racing(cfg, start.state) && AllGuarded(cfg, s)
    requires NobodyYet(s, start) || SomebodyWon(s, start.state)
    ensures var s' := Do(cfg, s, a); NobodyYet(s', start) || SomebodyWon(s', start.state)
  {
    hide OwnConnections;
    var s' := Do(cfg, s, a);
    if a.Step? {
      assert Guarded(s, PhaseOf(s, a.caller), cfg.connection(a.caller), cfg.call(a.caller).expected);
      assert forall d :: d != a.caller ==> PhaseOf(s', d) == PhaseOf(s, d);
      assert cfg.call(a.caller) == Transition(start.state);
      assert PhaseOf(s', a.caller) in s'.phases.Values || s' == s;
    } else {
      PhasesOnly(s, s');
    }
  }

  lemma {:induction false} RaceRun(cfg: Config, start: RuntimeBattle, s: State, schedule: seq<Action>)
    requires Racing(cfg, start.state) && AllGuarded(cfg, s)
    requires NobodyYet(s, start) || SomebodyWon(s, start.state)
    ensures var r := Run(cfg, s, schedule); NobodyYet(r, start) || SomebodyWon(r, start.state)
    decreases |schedule|
  {
    hide Do, AllGuarded, OwnConnections, NobodyYet, SomebodyWon;
    if schedule != [] {
      RaceStep(cfg, start, s, schedule[0]);
      StepKeepsGuards(cfg, s, schedule[0]);
      RaceRun(cfg, start, Do(cfg, s, schedule[0]), schedule[1..]);
    }
  }

  /**
    Any number of callers race out of one state: nobody but the single winner ever returns successfully,
    and as soon as one of them has returned, with success or failure, there is that winner.
  */
  lemma RaceHasOneWinner(cfg: Config, start: RuntimeBattle, schedule: seq<Action>, c: Caller)
    requires Racing(cfg, start.state)
    ensures var r := Run(cfg, Initial(Some(start)), schedule);
            && |r.writes| <= 1
            && (PhaseOf(r, c).Done? ==> |r.writes| == 1 && r.writes[0].caller == c)
            && (PhaseOf(r, c).Failed? ==> |r.writes| == 1)
  {
    RaceRun(cfg, start, Initial(Some(start)), schedule);
  }

  // ── sharing a connection ─────────────────────────────────────────

  // p and q both WATCH and GET; q's EXEC flushes the connection's watch, so p's EXEC commits a stale read.
  function StaleCommit(p: Caller, q: Caller): seq<Action> {
    [Step(p), Step(p), Step(q), Step(q), Step(q), Step(p)]
  }

  lemma SharingBreaks(cfg: Config, start: RuntimeBattle, p: Caller, q: Caller)
    requires p != q && cfg.call(p) == cfg.call(q) == Transition(start.state)
    requires cfg.connection(p) == cfg.connection(q) && cfg.mutate(q, start) != start
    ensures !Linearizable(cfg, Some(start), Run(cfg, Initial(Some(start)), StaleCommit(p, q)))
  {
    hide Run, Chained;
    var k := cfg.connection(p);
    var s0, schedule := Initial(Some(start)), StaleCommit(p, q);
    var s2 := Do(cfg, Do(cfg, s0, Step(p)), Step(p));
    assert PhaseOf(s2, p) == Computed(0, start) && s2.watches == map[k := false];
    var s4 := Do(cfg, Do(cfg, s2, Step(q)), Step(q));
    assert PhaseOf(s4, q) == Computed(0, start) && PhaseOf(s4, p) == Computed(0, start)
           && s4.watches == map[k := false];
    var s5 := Do(cfg, s4, Step(q));
    assert k !in s5.watches && PhaseOf(s5, p) == Computed(0, start);
    var s6 := Do(cfg, s5, Step(p));
    assert s6.writes[1] == Commit(p, start, Some(cfg.mutate(q, start)), Some(cfg.mutate(p, start)));
    assert !SoundWrite(cfg, s6.writes[1]);
    RunTwo(cfg, s0, schedule);
    RunTwo(cfg, s2, schedule[2..]);
    RunTwo(cfg, s4, schedule[4..]);
    assert schedule[4..][2..] == [];
    RunNone(cfg, s6);
  }

  lemma RunNone(cfg: Config, s: State)
    ensures Run(cfg, s, []) == s
  {
  }

  lemma RunTwo(cfg: Config, s: State, schedule: seq<Action>)
    requires |schedule| >= 2
    ensures Run(cfg, s, schedule) == Run(cfg, Do(cfg, Do(cfg, s, schedule[0]), schedule[1]), schedule[2..])
  {
    hide Do;
    assert schedule[1..][1..] == schedule[2..];
  }

  /**
    Exactly one connection per transition caller makes the loop linearizable: when every caller expects
    the stored state and changes the record, all schedules are linearizable if and only if no two callers
    share a connection.
  */
  lemma LinearizableExactlyWithOwnConnections(cfg: Config, start: RuntimeBattle)
    requires forall c :: cfg.call(c).Transition? ==>
               cfg.call(c).expected == start.state && cfg.mutate(c, start) != start
    ensures (forall schedule :: Linearizable(cfg, Some(start), Run(cfg, Initial(Some(start)), schedule)))
            <==> OwnConnections(cfg)
  {
    if OwnConnections(cfg) {
      forall schedule ensures Linearizable(cfg, Some(start), Run(cfg, Initial(Some(start)), schedule)) {
        TransitionIsLinearizable(cfg, Some(start), schedule);
      }
    } else {
      var p, q :| p != q && cfg.call(p).Transition? && cfg.call(q).Transition?
          && cfg.connection(p) == cfg.connection(q);
      SharingBreaks(cfg, start, p, q);
    }
  }

  // ── finalized at most once ───────────────────────────────────────

  predicate InSection(p: Phase) {
    p.Held? || p.Checked? || p.Putting? || p.Finalizing? || p.Publishing? || p.Deleting? || p.Releasing?
  }

  // Past the checks, the record not yet deleted.
  predicate Past(p: Phase) {
    p.Putting? || p.Finalizing? || p.Publishing? || p.Deleting?
  }

  ghost predicate NoDelete(writes: seq<Write>) {
    forall i :: 0 <= i < |writes| ==> !writes[i].Delete?
  }

  // The record is gone, and the deletion is the last thing that ever happened to it.
  ghost predicate GoneForGood(s: State) {
    && s.record.None? && s.writes != [] && s.writes[|s.writes| - 1].Delete?
    && NoDelete(s.writes[..|s.writes| - 1])
  }

  ghost predicate Progress(s: State, p: Phase, w: Option<UserId>) {
    match p
    case Putting(latest) => s.finishes == [] && s.results == [] && NoDelete(s.writes) && latest.winnerId == w && w.Some?
    case Finalizing(x) => s.finishes == [] && s.results == [] && NoDelete(s.writes) && x == w
    case Publishing(x) => s.finishes == [w] && s.results == [] && NoDelete(s.writes) && x == w
    case Deleting => s.finishes == [w] && s.results == [w] && NoDelete(s.writes)
    case _ => s.finishes == [w] && s.results == [w] && GoneForGood(s)
  }

  ghost predicate Exclusive(s: State) {
    forall c: Caller :: InSection(PhaseOf(s, c)) ==> s.lock == Some(c)
  }

  ghost predicate Staged(cfg: Config, s: State) {
    if s.passed == [] then
      s.finishes == [] && s.results == [] && NoDelete(s.writes) && forall c :: !Past(PhaseOf(s, c))
    else
      && |s.passed| == 1
      && Progress(s, PhaseOf(s, s.passed[0].0), s.passed[0].1)
      && (PhaseOf(s, s.passed[0].0).Putting? ==> s.passed[0].1 == Winner(cfg.call(s.passed[0].0)))
      && forall c :: c != s.passed[0].0 ==> !Past(PhaseOf(s, c))
  }

  ghost function Winner(call: Call): Option<UserId> {
    if call.Accept? then Some(call.user) else None
  }

  // What a step of c does to the lock: take it when free, give it back, or nothing.
  ghost predicate LockMoves(s: State, s': State, c: Caller) {
    && ((InSection(PhaseOf(s, c)) ==> s.lock == Some(c)) ==> (InSection(PhaseOf(s', c)) ==> s'.lock == Some(c)))
    && (s'.lock == s.lock || (s.lock.None? && s'.lock == Some(c)) || (s.lock == Some(c) && s'.lock.None?))
  }

  lemma TransitionLock(cfg: Config, s: State, c: Caller, expected: RuntimeState)
    ensures LockMoves(s, StepTransition(cfg, s, c, expected), c)
  {
  }

  lemma SharedLock(s: State, c: Caller)
    ensures LockMoves(s, StepShared(s, c), c)
  {
  }

  lemma FinishLock(s: State, c: Caller, isHost: bool, forced: Option<UserId>)
    ensures LockMoves(s, StepFinish(s, c, isHost, forced), c)
  {
    hide StepShared;
    SharedLock(s, c);
  }

  lemma AcceptLock(s: State, c: Caller, user: UserId)
    ensures LockMoves(s, StepAccept(s, c, user), c)
  {
    hide StepShared;
    SharedLock(s, c);
  }

  lemma LockEffect(cfg: Config, s: State, c: Caller)
    ensures LockMoves(s, Do(cfg, s, Step(c)), c) && OthersUndisturbed(s, Do(cfg, s, Step(c)), c)
  {
    hide StepTransition, StepFinish, StepAccept, LockMoves;
    match cfg.call(c) {
      case Transition(expected) =>
        TransitionEffect(cfg, s, c, expected);
        TransitionLock(cfg, s, c, expected);
      case Finish(isHost, forced) =>
        LockedEffect(s, c, cfg.call(c));
        FinishLock(s, c, isHost, forced);
      case Accept(user) =>
        LockedEffect(s, c, cfg.call(c));
        AcceptLock(s, c, user);
    }
  }

  // No step of a caller, a late release included, takes another caller's lease away.
  lemma ReleaseSparesOthers(cfg: Config, s: State, c: Caller, d: Caller)
    requires c != d && s.lock == Some(d)
    ensures Do(cfg, s, Step(c)).lock == Some(d)
  {
    hide Do;
    LockEffect(cfg, s, c);
  }

  /**
    A lease ends only by expiring or by a step of its holder: whatever else all other callers do, late releases
    included, it stays.
  */
  lemma {:induction false} LeaseIsKept(cfg: Config, s: State, schedule: seq<Action>, d: Caller)
    requires s.lock == Some(d) && Step(d) !in schedule && (cfg.leasesExpire ==> ExpireLease !in schedule)
    ensures Run(cfg, s, schedule).lock == Some(d)
    decreases |schedule|
  {
    hide StepTransition, StepFinish, StepAccept;
    if schedule != [] {
      var a := schedule[0];
      assert a in schedule;
      if a.Step? { ReleaseSparesOthers(cfg, s, a.caller, d); }
      LeaseIsKept(cfg, Do(cfg, s, a), schedule[1..], d);
    }
  }

  lemma StepKeepsExclusive(cfg: Config, s: State, c: Caller)
    requires Exclusive(s)
    ensures Exclusive(Do(cfg, s, Step(c)))
  {
    hide Do;
    LockEffect(cfg, s, c);
  }

  // A transition step leaves everything but record, watches and writes alone; what it writes is a commit.
  lemma TransitionWrites(cfg: Config, s: State, c: Caller, expected: RuntimeState)
    ensures var s' := StepTransition(cfg, s, c, expected);
            && (s'.passed, s'.finishes, s'.results) == (s.passed, s.finishes, s.results)
            && (!Past(PhaseOf(s, c)) ==> !Past(PhaseOf(s', c)))
            && (Past(PhaseOf(s, c)) ==> s' == s)
            && (s'.writes == s.writes ==> s'.record == s.record)
            && (s'.writes != s.writes ==>
                  var k := cfg.connection(c);
                  && PhaseOf(s, c).Computed? && !(k in s.watches && s.watches[k])
                  && |s'.writes| == |s.writes| + 1 && s'.writes[..|s.writes|] == s.writes
                  && s'.writes[|s.writes|].Commit?)
  {
    hide Past;
    PhasesArePast();
  }

  lemma PhasesArePast()
    ensures forall p: Phase :: Past(p) <==> p.Putting? || p.Finalizing? || p.Publishing? || p.Deleting?
  {
  }

  lemma TransitionKeepsStaged(cfg: Config, s: State, c: Caller, expected: RuntimeState)
    requires Staged(cfg, s) && Guarded(s, PhaseOf(s, c), cfg.connection(c), expected)
    ensures Staged(cfg, StepTransition(cfg, s, c, expected))
  {
    hide Winner, StepTransition, PhaseOf;
    TransitionEffect(cfg, s, c, expected);
    TransitionWrites(cfg, s, c, expected);
  }

  // While a caller is past its checks, or once the record is gone, nobody else passes.
  lemma NobodyElsePasses(cfg: Config, s: State, c: Caller)
    requires Staged(cfg, s) && Exclusive(s) && s.passed != [] && s.lock == Some(c)
    requires PhaseOf(s, c).Held? || PhaseOf(s, c).Checked?
    ensures s.record.None?
  {
    var d := s.passed[0].0;
    assert InSection(PhaseOf(s, d)) ==> s.lock == Some(d);
  }

  // A step of a caller that is not past its checks, and that touches neither logs nor record.
  lemma QuietKeepsStaged(cfg: Config, s: State, s': State, c: Caller)
    requires Staged(cfg, s) && OthersUndisturbed(s, s', c)
    requires !Past(PhaseOf(s, c)) && !Past(PhaseOf(s', c))
    requires (s'.record, s'.writes, s'.passed, s'.finishes, s'.results)
             == (s.record, s.writes, s.passed, s.finishes, s.results)
    ensures Staged(cfg, s')
  {
    hide Winner, NoDelete, PhaseOf;
  }

  lemma FinalizeKeepsStaged(cfg: Config, s: State, c: Caller)
    requires Staged(cfg, s) && Past(PhaseOf(s, c)) && !PhaseOf(s, c).Putting?
    ensures Staged(cfg, StepShared(s, c))
  {
    hide Winner, NoDelete;
    var s' := StepShared(s, c);
    assert s.passed[0].0 == c;
    assert forall d :: d != c ==> PhaseOf(s', d) == PhaseOf(s, d);
    if PhaseOf(s, c).Deleting? {
      assert s'.writes[..|s'.writes| - 1] == s.writes;
    }
  }

  lemma SharedKeepsStaged(cfg: Config, s: State, c: Caller)
    requires Staged(cfg, s) && !PhaseOf(s, c).Putting?
    ensures Staged(cfg, StepShared(s, c))
  {
    hide Staged;
    if Past(PhaseOf(s, c)) {
      FinalizeKeepsStaged(cfg, s, c);
    } else {
      QuietKeepsStaged(cfg, s, StepShared(s, c), c);
    }
  }

  // A lock holder passes its checks, the first and only one to do so.
  lemma PassKeepsStaged(cfg: Config, s: State, c: Caller, p: Phase, winner: Option<UserId>)
    requires Staged(cfg, s) && s.passed == []
    requires p == Finalizing(winner)
             || (p.Putting? && p.latest.winnerId == winner == Winner(cfg.call(c)) && winner.Some?)
    ensures Staged(cfg, Pass(s, c, p, winner))
  {
    hide NoDelete, Winner;
    assert forall d :: d != c ==> PhaseOf(Pass(s, c, p, winner), d) == PhaseOf(s, d);
  }

  lemma PutKeepsStaged(cfg: Config, s: State, c: Caller, user: UserId)
    requires Staged(cfg, s) && cfg.call(c) == Accept(user) && PhaseOf(s, c).Putting?
    ensures Staged(cfg, StepAccept(s, c, user))
  {
    var s' := StepAccept(s, c, user);
    assert s.passed[0].0 == c;
    assert forall d :: d != c ==> PhaseOf(s', d) == PhaseOf(s, d);
    assert s'.writes[..|s.writes|] == s.writes;
  }

  lemma FinishKeepsStaged(cfg: Config, s: State, c: Caller, isHost: bool, forced: Option<UserId>)
    requires Staged(cfg, s) && Exclusive(s) && cfg.call(c) == Finish(isHost, forced)
    ensures Staged(cfg, StepFinish(s, c, isHost, forced))
  {
    hide StepShared, Staged, Exclusive;
    var s', p := StepFinish(s, c, isHost, forced), PhaseOf(s, c);
    LockedEffect(s, c, cfg.call(c));
    if p.Putting? {
      StuckPutting(s, c);
    } else if !p.Ready? && !p.Held? && !p.Checked? {
      SharedKeepsStaged(cfg, s, c);
    } else if s'.passed == s.passed {
      QuietKeepsStaged(cfg, s, s', c);
    } else {
      FirstToPass(cfg, s, c);
      PassKeepsStaged(cfg, s, c, PhaseOf(s', c), s'.passed[|s.passed|].1);
    }
  }

  lemma StuckPutting(s: State, c: Caller)
    requires PhaseOf(s, c).Putting?
    ensures StepShared(s, c) == s
  {
  }

  lemma FirstToPass(cfg: Config, s: State, c: Caller)
    requires Staged(cfg, s) && Exclusive(s) && (PhaseOf(s, c).Held? || PhaseOf(s, c).Checked?)
    ensures s.record.Some? ==> s.passed == []
  {
    assert InSection(PhaseOf(s, c));
    if s.passed != [] {
      NobodyElsePasses(cfg, s, c);
    }
  }

  lemma AcceptKeepsStaged(cfg: Config, s: State, c: Caller, user: UserId)
    requires Staged(cfg, s) && Exclusive(s) && cfg.call(c) == Accept(user)
    ensures Staged(cfg, StepAccept(s, c, user))
  {
    hide StepShared, Staged, Exclusive;
    var s', p := StepAccept(s, c, user), PhaseOf(s, c);
    LockedEffect(s, c, cfg.call(c));
    if p.Putting? {
      PutKeepsStaged(cfg, s, c, user);
    } else if !p.Ready? && !p.Held? {
      SharedKeepsStaged(cfg, s, c);
    } else if s'.passed == s.passed {
      QuietKeepsStaged(cfg, s, s', c);
    } else {
      FirstToPass(cfg, s, c);
      PassKeepsStaged(cfg, s, c, PhaseOf(s', c), Some(user));
    }
  }

  ghost predicate Protected(cfg: Config, s: State) {
    AllGuarded(cfg, s) && Exclusive(s) && Staged(cfg, s)
  }

  lemma StepKeepsProtected(cfg: Config, s: State, a: Action)
    requires OwnConnections(cfg) && !cfg.leasesExpire && Protected(cfg, s)
    ensures Protected(cfg, Do(cfg, s, a))
  {
    hide StepTransition, StepFinish, StepAccept, Staged, Exclusive, OwnConnections, PhaseOf;
    StepKeepsGuards(cfg, s, a);
    if a.Step? {
      StepKeepsExclusive(cfg, s, a.caller);
      if cfg.call(a.caller).Transition? {
        TransitionKeepsStaged(cfg, s, a.caller, cfg.call(a.caller).expected);
      } else if cfg.call(a.caller).Finish? {
        FinishKeepsStaged(cfg, s, a.caller, cfg.call(a.caller).isHost, cfg.call(a.caller).forced);
      } else {
        AcceptKeepsStaged(cfg, s, a.caller, cfg.call(a.caller).user);
      }
    }
  }

  lemma {:induction false} RunKeepsProtected(cfg: Config, s: State, schedule: seq<Action>)
    requires OwnConnections(cfg) && !cfg.leasesExpire && Protected(cfg, s)
    ensures Protected(cfg, Run(cfg, s, schedule))
    decreases |schedule|
  {
    hide Do, Protected, OwnConnections;
    if schedule != [] {
      StepKeepsProtected(cfg, s, schedule[0]);
      RunKeepsProtected(cfg, Do(cfg, s, schedule[0]), schedule[1..]);
    }
  }

  // One durable finish and one publication at most, both for the first lock holder to pass its checks,
  // and nothing is ever written to the record after its deletion.
  ghost predicate FinalizedOnce(s: State) {
    && |s.passed| <= 1
    && s.results <= s.finishes
    && |s.finishes| <= |s.passed|
    && (forall i :: 0 <= i < |s.finishes| ==> s.finishes[i] == s.passed[i].1)
    && forall i :: 0 <= i < |s.writes| && s.writes[i].Delete? ==>
         i == |s.writes| - 1 && s.record.None? && s.results != []
  }

  /**
    Finalized at most once: whatever finishes, accepted verdicts and transitions race, with a connection
    for each transition caller and leases that do not expire, FinalizedOnce holds at every moment.
  */
  lemma BattleFinalizedOnce(cfg: Config, start: Option<RuntimeBattle>, schedule: seq<Action>)
    requires OwnConnections(cfg) && !cfg.leasesExpire
    ensures FinalizedOnce(Run(cfg, Initial(start), schedule))
  {
    hide Do, Run;
    RunKeepsProtected(cfg, Initial(start), schedule);
    var r := Run(cfg, Initial(start), schedule);
    if r.writes != [] {
      AllButLast(r.writes);
    }
  }

  lemma AllButLast(writes: seq<Write>)
    requires writes != []
    ensures NoDelete(writes[..|writes| - 1]) <==> forall i :: 0 <= i < |writes| - 1 ==> !writes[i].Delete?
  {
    assert forall i :: 0 <= i < |writes| - 1 ==> writes[..|writes| - 1][i] == writes[i];
  }

  // ── who finishes a battle ────────────────────────────────────────

  // A host who named the winner or left it to the record, or a user whose verdict was accepted.
  predicate EarnedBy(call: Call, winner: Option<UserId>) {
    match call
    case Transition(_) => false
    case Finish(isHost, forced) => isHost && (forced.Some? ==> winner == forced)
    case Accept(user) => winner == Some(user)
  }

  ghost predicate AllEarned(cfg: Config, s: State) {
    && (forall i :: 0 <= i < |s.passed| ==> EarnedBy(cfg.call(s.passed[i].0), s.passed[i].1))
    && forall c :: PhaseOf(s, c).Checked? ==> cfg.call(c).Finish? && cfg.call(c).isHost
  }

  lemma StepEarns(cfg: Config, s: State, a: Action)
    requires AllEarned(cfg, s)
    ensures AllEarned(cfg, Do(cfg, s, a))
  {
    hide StepTransition, StepFinish, StepAccept, PhaseOf, EarnedBy;
    if a.Step? {
      LockEffect(cfg, s, a.caller);
      CallerEarns(cfg, s, a.caller);
    } else {
      PhasesOnly(s, Do(cfg, s, a));
    }
  }

  lemma CallerEarns(cfg: Config, s: State, c: Caller)
    requires PhaseOf(s, c).Checked? ==> cfg.call(c).Finish? && cfg.call(c).isHost
    ensures var s' := Do(cfg, s, Step(c));
            && (PhaseOf(s', c).Checked? ==> cfg.call(c).Finish? && cfg.call(c).isHost)
            && (s'.passed == s.passed
                || exists w :: s'.passed == s.passed + [(c, w)] && EarnedBy(cfg.call(c), w))
  {
    hide StepShared, StepTransition, Touched;
    SharedPasses(s, c);
    match cfg.call(c)
    case Transition(expected) => TransitionWrites(cfg, s, c, expected); TransitionUnchecked(cfg, s, c, expected);
    case Finish(isHost, forced) =>
      var s' := Do(cfg, s, Step(c));
      if s'.passed != s.passed {
        var w := if forced.Some? then forced else s.record.value.winnerId;
        assert s'.passed == s.passed + [(c, w)] && EarnedBy(cfg.call(c), w);
      }
    case Accept(user) =>
      var s' := Do(cfg, s, Step(c));
      if s'.passed != s.passed {
        assert s'.passed == s.passed + [(c, Some(user))] && EarnedBy(cfg.call(c), Some(user));
      }
  }

  lemma SharedPasses(s: State, c: Caller)
    ensures StepShared(s, c).passed == s.passed
    ensures PhaseOf(StepShared(s, c), c).Checked? ==> PhaseOf(s, c).Checked?
  {
  }

  lemma TransitionUnchecked(cfg: Config, s: State, c: Caller, expected: RuntimeState)
    ensures PhaseOf(StepTransition(cfg, s, c, expected), c).Checked? ==> PhaseOf(s, c).Checked?
  {
  }

  lemma {:induction false} RunEarns(cfg: Config, s: State, schedule: seq<Action>)
    requires AllEarned(cfg, s)
    ensures AllEarned(cfg, Run(cfg, s, schedule))
    decreases |schedule|
  {
    hide Do, AllEarned;
    if schedule != [] {
      StepEarns(cfg, s, schedule[0]);
      RunEarns(cfg, Do(cfg, s, schedule[0]), schedule[1..]);
    }
  }

  /**
    On every schedule, whoever passes the checks is a host, with the winner the host named if any was named,
    or a user with an accepted verdict, who is then the winner; transitions and strangers never finish a battle.
  */
  lemma PassesAreEarned(cfg: Config, start: Option<RuntimeBattle>, schedule: seq<Action>)
    ensures var s := Run(cfg, Initial(start), schedule);
            forall i :: 0 <= i < |s.passed| ==> EarnedBy(cfg.call(s.passed[i].0), s.passed[i].1)
  {
    hide Run;
    AllReady(Initial(start));
    RunEarns(cfg, Initial(start), schedule);
  }

  // A running duel: what an accepted verdict can decide.
  predicate IsDuel(r: RuntimeBattle) {
    r.state == ACTIVE && r.mode == OneVsOne
  }

  ghost predicate NoDuel(cfg: Config, s: State) {
    && (s.record.Some? ==> !IsDuel(s.record.value))
    && (forall i :: 0 <= i < |s.passed| ==> !cfg.call(s.passed[i].0).Accept?)
    && (forall c :: PhaseOf(s, c).Computed? ==> !IsDuel(PhaseOf(s, c).current))
    && (forall c :: cfg.call(c).Accept? ==> PhaseOf(s, c) == Ready(0) || PhaseOf(s, c).Done?)
    && forall c :: !cfg.call(c).Accept? ==> !PhaseOf(s, c).Putting?
  }

  lemma StepKeepsNoDuel(cfg: Config, s: State, c: Caller)
    requires NoDuel(cfg, s) && forall c, r :: !IsDuel(r) ==> !IsDuel(cfg.mutate(c, r))
    ensures var s' := Do(cfg, s, Step(c));
            && (s'.record.Some? ==> !IsDuel(s'.record.value))
            && (PhaseOf(s', c).Computed? ==> !IsDuel(PhaseOf(s', c).current))
            && (cfg.call(c).Accept? ==> s'.passed == s.passed && (PhaseOf(s', c) == Ready(0) || PhaseOf(s', c).Done?))
            && (!cfg.call(c).Accept? ==> !PhaseOf(s', c).Putting?)
  {
    hide StepTransition, StepFinish, StepAccept, IsDuel;
    assert cfg.call(c).Accept? ==> PhaseOf(s, c) == Ready(0) || PhaseOf(s, c).Done?;
    match cfg.call(c)
    case Transition(expected) => TransitionMakesNoDuel(cfg, s, c, expected);
    case Finish(isHost, forced) => FinishMakesNoDuel(s, c, isHost, forced);
    case Accept(user) => AcceptFindsNoDuel(s, c, user);
  }

  lemma TransitionMakesNoDuel(cfg: Config, s: State, c: Caller, expected: RuntimeState)
    requires s.record.Some? ==> !IsDuel(s.record.value)
    requires PhaseOf(s, c).Computed? ==> !IsDuel(PhaseOf(s, c).current)
    requires !PhaseOf(s, c).Putting? && forall c, r :: !IsDuel(r) ==> !IsDuel(cfg.mutate(c, r))
    ensures var s' := StepTransition(cfg, s, c, expected);
            && (s'.record.Some? ==> !IsDuel(s'.record.value))
            && (PhaseOf(s', c).Computed? ==> !IsDuel(PhaseOf(s', c).current))
            && !PhaseOf(s', c).Putting?
  {
    hide Touched, IsDuel;
  }

  lemma SharedMakesNoDuel(s: State, c: Caller)
    requires s.record.Some? ==> !IsDuel(s.record.value)
    requires PhaseOf(s, c).Computed? ==> !IsDuel(PhaseOf(s, c).current)
    requires !PhaseOf(s, c).Putting?
    ensures var s' := StepShared(s, c);
            && (s'.record.Some? ==> !IsDuel(s'.record.value))
            && (PhaseOf(s', c).Computed? ==> !IsDuel(PhaseOf(s', c).current))
            && !PhaseOf(s', c).Putting?
  {
    hide Touched, IsDuel;
  }

  lemma FinishMakesNoDuel(s: State, c: Caller, isHost: bool, forced: Option<UserId>)
    requires s.record.Some? ==> !IsDuel(s.record.value)
    requires PhaseOf(s, c).Computed? ==> !IsDuel(PhaseOf(s, c).current)
    requires !PhaseOf(s, c).Putting?
    ensures var s' := StepFinish(s, c, isHost, forced);
            && (s'.record.Some? ==> !IsDuel(s'.record.value))
            && (PhaseOf(s', c).Computed? ==> !IsDuel(PhaseOf(s', c).current))
            && !PhaseOf(s', c).Putting?
  {
    hide StepShared, IsDuel;
    SharedMakesNoDuel(s, c);
  }

  lemma AcceptFindsNoDuel(s: State, c: Caller, user: UserId)
    requires s.record.Some? ==> !IsDuel(s.record.value)
    requires PhaseOf(s, c) == Ready(0) || PhaseOf(s, c).Done?
    ensures var s' := StepAccept(s, c, user);
            && s'.record == s.record && s'.passed == s.passed
            && (PhaseOf(s', c) == Ready(0) || PhaseOf(s', c).Done?)
  {
  }

  lemma {:induction false} RunKeepsNoDuel(cfg: Config, s: State, schedule: seq<Action>)
    requires NoDuel(cfg, s) && forall c, r :: !IsDuel(r) ==> !IsDuel(cfg.mutate(c, r))
    ensures NoDuel(cfg, Run(cfg, s, schedule))
    decreases |schedule|
  {
    hide Do, IsDuel, PhaseOf;
    if schedule != [] {
      var s' := Do(cfg, s, schedule[0]);
      if schedule[0].Step? {
        var c := schedule[0].caller;
        StepKeepsNoDuel(cfg, s, c);
        LockEffect(cfg, s, c);
        CallerPasses(cfg, s, c);
      } else {
        ExpiryMovesNobody(cfg, s);
        PhasesOnly(s, s');
      }
      RunKeepsNoDuel(cfg, s', schedule[1..]);
    }
  }

  lemma ExpiryMovesNobody(cfg: Config, s: State)
    ensures var s' := Do(cfg, s, ExpireLease); s'.phases == s.phases && s'.record == s.record && s'.passed == s.passed
  {
  }

  lemma CallerPasses(cfg: Config, s: State, c: Caller)
    ensures var s' := Do(cfg, s, Step(c)); s'.passed == s.passed || exists w :: s'.passed == s.passed + [(c, w)]
  {
    hide StepShared, StepTransition;
    SharedPasses(s, c);
    match cfg.call(c)
    case Transition(expected) => TransitionWrites(cfg, s, c, expected);
    case Finish(_, forced) =>
      var w := if forced.Some? || s.record.None? then forced else s.record.value.winnerId;
      assert Do(cfg, s, Step(c)).passed == s.passed || Do(cfg, s, Step(c)).passed == s.passed + [(c, w)];
    case Accept(user) =>
      assert Do(cfg, s, Step(c)).passed == s.passed || Do(cfg, s, Step(c)).passed == s.passed + [(c, Some(user))];
  }

  /**
    Accepted verdicts decide nothing but running duels: while the record is never an ACTIVE one-versus-one battle,
    none passes.
  */
  lemma VerdictsDecideOnlyDuels(cfg: Config, start: Option<RuntimeBattle>, schedule: seq<Action>)
    requires start.Some? ==> !IsDuel(start.value)
    requires forall c, r :: !IsDuel(r) ==> !IsDuel(cfg.mutate(c, r))
    ensures var s := Run(cfg, Initial(start), schedule);
            forall i :: 0 <= i < |s.passed| ==> cfg.call(s.passed[i].0).Finish?
  {
    hide Run, IsDuel;
    AllReady(Initial(start));
    RunKeepsNoDuel(cfg, Initial(start), schedule);
    PassesAreEarned(cfg, start, schedule);
  }

  // ── how long callers try ─────────────────────────────────────────

  predicate WithinTries(p: Phase) {
    match p
    case Ready(n) => n < 5
    case Watching(n) => n < 5
    case Computed(n, _) => n < 5
    case Locking(tries) => tries < 50
    case _ => true
  }

  lemma StepWithinTries(cfg: Config, s: State, c: Caller)
    requires WithinTries(PhaseOf(s, c))
    ensures var p, p' := PhaseOf(s, c), PhaseOf(Do(cfg, s, Step(c)), c);
            && WithinTries(p')
            && (p'.Failed? && !p.Failed? ==> p.Unwatching? || (p.Computed? && p.attempt == 4) || p == Locking(49))
  {
    hide StepTransition, StepFinish, StepAccept, WithinTries;
    match cfg.call(c)
    case Transition(expected) => TransitionTries(cfg, s, c, expected);
    case Finish(isHost, forced) => FinishTries(s, c, isHost, forced);
    case Accept(user) => AcceptTries(s, c, user);
  }

  // From p a caller stays within its tries at p', and fails for one of the three reasons.
  predicate TriesOn(p: Phase, p': Phase) {
    && WithinTries(p')
    && (p'.Failed? && !p.Failed? ==> p.Unwatching? || (p.Computed? && p.attempt == 4) || p == Locking(49))
  }

  lemma TransitionTries(cfg: Config, s: State, c: Caller, expected: RuntimeState)
    requires WithinTries(PhaseOf(s, c))
    ensures TriesOn(PhaseOf(s, c), PhaseOf(StepTransition(cfg, s, c, expected), c))
  {
    hide Touched;
  }

  lemma SharedTries(s: State, c: Caller)
    requires WithinTries(PhaseOf(s, c))
    ensures TriesOn(PhaseOf(s, c), PhaseOf(StepShared(s, c), c))
  {
    hide Touched;
  }

  lemma FinishTries(s: State, c: Caller, isHost: bool, forced: Option<UserId>)
    requires WithinTries(PhaseOf(s, c))
    ensures TriesOn(PhaseOf(s, c), PhaseOf(StepFinish(s, c, isHost, forced), c))
  {
    hide StepShared;
    SharedTries(s, c);
  }

  lemma AcceptTries(s: State, c: Caller, user: UserId)
    requires WithinTries(PhaseOf(s, c))
    ensures TriesOn(PhaseOf(s, c), PhaseOf(StepAccept(s, c, user), c))
  {
    hide StepShared, Touched;
    SharedTries(s, c);
  }

  /**
    Nobody tries for ever, and nobody gives up early: a transition fails for a wrong state or after losing
    five races, and a lock is given up after fifty tries.
  */
  lemma {:induction false} TriesAreBounded(cfg: Config, s: State, schedule: seq<Action>, c: Caller)
    requires WithinTries(PhaseOf(s, c))
    ensures WithinTries(PhaseOf(Run(cfg, s, schedule), c))
    ensures var r := Run(cfg, s, schedule);
            var p, p' := PhaseOf(r, c), PhaseOf(Do(cfg, r, Step(c)), c);
            p'.Failed? && !p.Failed? ==> p.Unwatching? || (p.Computed? && p.attempt == 4) || p == Locking(49)
    decreases |schedule|
  {
    hide Do, WithinTries, PhaseOf;
    if schedule == [] {
      StepWithinTries(cfg, s, c);
    } else {
      var s' := Do(cfg, s, schedule[0]);
      if schedule[0] == Step(c) {
        StepWithinTries(cfg, s, c);
      } else if schedule[0].Step? {
        LockEffect(cfg, s, schedule[0].caller);
      } else {
        ExpiryMovesNobody(cfg, s);
        PhasesOnly(s, s');
      }
      TriesAreBounded(cfg, s', schedule[1..], c);
    }
  }

  // ── when a lease expires ─────────────────────────────────────────

  // p passes its checks, its lease expires, q passes too; both finish.
  function OutlivedLease(p: Caller, q: Caller): seq<Action> {
    [Step(p), Step(p), Step(p), Step(p), ExpireLease, Step(q), Step(q), Step(q), Step(q), Step(p), Step(q)]
  }

  // A host's finish that finds the lock free and nothing finished passes its checks in four steps.
  lemma HostPasses(cfg: Config, s: State, c: Caller)
    requires cfg.call(c).Finish? && cfg.call(c).isHost && PhaseOf(s, c).Ready? && s.lock.None? && s.finishes == []
    requires s.record.Some? && s.record.value.state == ACTIVE
    ensures var s' := Do(cfg, Do(cfg, Do(cfg, Do(cfg, s, Step(c)), Step(c)), Step(c)), Step(c));
            && PhaseOf(s', c).Finalizing? && OthersUndisturbed(s, s', c)
            && (s'.record, s'.watches, s'.writes, s'.finishes) == (s.record, s.watches, s.writes, s.finishes)
            && s'.lock == Some(c)
  {
    var s1 := Do(cfg, s, Step(c));
    assert PhaseOf(s1, c) == Locking(0);
    var s2 := Do(cfg, s1, Step(c));
    assert PhaseOf(s2, c) == Held;
    var s3 := Do(cfg, s2, Step(c));
    assert PhaseOf(s3, c) == Checked;
  }

  lemma ExpiryBreaks(cfg: Config, start: RuntimeBattle, p: Caller, q: Caller)
    requires p != q && cfg.leasesExpire && start.state == ACTIVE
    requires cfg.call(p).Finish? && cfg.call(p).isHost && cfg.call(q).Finish? && cfg.call(q).isHost
    ensures |Run(cfg, Initial(Some(start)), OutlivedLease(p, q)).finishes| == 2
  {
    hide Run, StepFinish, StepAccept, StepTransition, PhaseOf;
    var s0, schedule := Initial(Some(start)), OutlivedLease(p, q);
    AllReady(s0);
    HostPasses(cfg, s0, p);
    var s2 := Do(cfg, Do(cfg, s0, Step(p)), Step(p));
    var s4 := Do(cfg, Do(cfg, s2, Step(p)), Step(p));
    var s5 := Do(cfg, s4, ExpireLease);
    PhasesOnly(s4, s5);
    HostPasses(cfg, s5, q);
    var s7 := Do(cfg, Do(cfg, s5, Step(q)), Step(q));
    var s9 := Do(cfg, Do(cfg, s7, Step(q)), Step(q));
    FinishesTwice(cfg, s9, p, q);
    RunTwo(cfg, s0, schedule);
    RunTwo(cfg, s2, schedule[2..]);
    assert schedule[2..][2..] == [ExpireLease] + schedule[5..];
    RunFirst(cfg, s4, ExpireLease, schedule[5..]);
    RunTwo(cfg, s5, schedule[5..]);
    RunTwo(cfg, s7, schedule[5..][2..]);
    assert schedule[5..][2..][2..] == [Step(p), Step(q)];
    var last := [Step(p), Step(q)];
    assert last[2..] == [];
    RunTwo(cfg, s9, last);
    RunNone(cfg, Do(cfg, Do(cfg, s9, Step(p)), Step(q)));
  }

  lemma AllReady(s: State)
    requires s.phases == map[]
    ensures forall c :: PhaseOf(s, c) == Ready(0)
  {
  }

  lemma FinishesTwice(cfg: Config, s: State, p: Caller, q: Caller)
    requires p != q && cfg.call(p).Finish? && cfg.call(q).Finish?
    requires PhaseOf(s, p).Finalizing? && PhaseOf(s, q).Finalizing? && s.finishes == []
    ensures |Do(cfg, Do(cfg, s, Step(p)), Step(q)).finishes| == 2
  {
    assert PhaseOf(Do(cfg, s, Step(p)), q).Finalizing?;
  }

  lemma RunFirst(cfg: Config, s: State, a: Action, rest: seq<Action>)
    ensures Run(cfg, s, [a] + rest) == Run(cfg, Do(cfg, s, a), rest)
  {
    hide Do;
    assert ([a] + rest)[1..] == rest;
  }

  // ── when transition callers share a connection ───────────────────

  lemma RunPair(cfg: Config, s: State, a: Action, b: Action, rest: seq<Action>)
    ensures Run(cfg, s, [a, b] + rest) == Run(cfg, Do(cfg, Do(cfg, s, a), b), rest)
  {
    RunTwo(cfg, s, [a, b] + rest);
    assert ([a, b] + rest)[2..] == rest;
  }

  function Twice(c: Caller): seq<Action> {
    [Step(c), Step(c)]
  }

  // The rest of a finish that has passed its checks, up to the release of the lock.
  lemma FinishRunsOut(cfg: Config, s: State, c: Caller, rest: seq<Action>) returns (s': State)
    requires cfg.call(c).Finish? && PhaseOf(s, c).Finalizing? && s.lock == Some(c)
    ensures Run(cfg, s, Twice(c) + (Twice(c) + rest)) == Run(cfg, s', rest)
    ensures OthersUndisturbed(s, s', c) && s'.record.None? && s'.lock.None? && s'.watches == Touched(s.watches)
    ensures s'.writes == s.writes + [Delete(c, s.record, None)] && |s'.finishes| == |s.finishes| + 1
  {
    hide Run;
    RunPair(cfg, s, Step(c), Step(c), Twice(c) + rest);
    var s1 := Do(cfg, s, Step(c));
    assert PhaseOf(s1, c).Publishing?;
    var s2 := Do(cfg, s1, Step(c));
    assert PhaseOf(s2, c).Deleting?;
    RunPair(cfg, s2, Step(c), Step(c), rest);
    var s3 := Do(cfg, s2, Step(c));
    assert PhaseOf(s3, c).Releasing?;
    s' := Do(cfg, s3, Step(c));
  }

  // A transition caller that finds the expected state watches and reads.
  lemma ReadsRecord(cfg: Config, s: State, c: Caller, start: RuntimeBattle, rest: seq<Action>) returns (s': State)
    requires cfg.call(c) == Transition(start.state) && PhaseOf(s, c) == Ready(0) && s.record == Some(start)
    ensures Run(cfg, s, Twice(c) + rest) == Run(cfg, s', rest)
    ensures OthersUndisturbed(s, s', c) && PhaseOf(s', c) == Computed(0, start)
    ensures var k := cfg.connection(c); s'.watches == if k in s.watches then s.watches else s.watches[k := false]
    ensures (s'.record, s'.lock, s'.writes, s'.finishes) == (s.record, s.lock, s.writes, s.finishes)
  {
    hide Run;
    RunPair(cfg, s, Step(c), Step(c), rest);
    var s1 := Do(cfg, s, Step(c));
    assert PhaseOf(s1, c) == Watching(0);
    s' := Do(cfg, s1, Step(c));
  }

  // p and q read the record on one connection; h finishes the battle and deletes it; q's EXEC fails and
  // flushes the watch; p's EXEC then succeeds.
  function Resurrection(p: Caller, q: Caller, h: Caller): seq<Action> {
    Twice(p) + (Twice(q) + (Twice(h) + (Twice(h) + (Twice(h) + (Twice(h) + ([Step(q), Step(p)] + []))))))
  }

  lemma StaleCommitAfterDelete(cfg: Config, s: State, p: Caller, q: Caller, start: RuntimeBattle) returns (s': State)
    requires p != q && cfg.call(p).Transition? && cfg.call(q).Transition? && cfg.connection(p) == cfg.connection(q)
    requires PhaseOf(s, p) == PhaseOf(s, q) == Computed(0, start)
    requires cfg.connection(p) in s.watches && s.watches[cfg.connection(p)]
    ensures s' == Do(cfg, Do(cfg, s, Step(q)), Step(p))
    ensures s'.record == Some(cfg.mutate(p, start)) && s'.lock == s.lock && s'.finishes == s.finishes
    ensures s'.writes == s.writes + [Commit(p, start, s.record, Some(cfg.mutate(p, start)))]
    ensures forall c :: c != p && c != q ==> PhaseOf(s', c) == PhaseOf(s, c)
  {
    var s1 := Do(cfg, s, Step(q));
    assert PhaseOf(s1, p) == Computed(0, start) && cfg.connection(p) !in s1.watches;
    s' := Do(cfg, s1, Step(p));
  }

  lemma ResurrectsFrom(cfg: Config, s: State, start: RuntimeBattle, p: Caller, q: Caller, h: Caller)
    requires p != q && start.state == ACTIVE && cfg.call(h).Finish? && cfg.call(h).isHost
    requires cfg.call(p) == cfg.call(q) == Transition(ACTIVE) && cfg.connection(p) == cfg.connection(q)
    requires s.record == Some(start) && s.lock.None? && s.finishes == [] && cfg.connection(p) !in s.watches
    requires PhaseOf(s, p) == PhaseOf(s, q) == PhaseOf(s, h) == Ready(0)
    ensures var r := Run(cfg, s, Resurrection(p, q, h));
            && |r.finishes| == 1 && r.lock.None? && r.record == Some(cfg.mutate(p, start))
            && |r.writes| == |s.writes| + 2 && r.writes[|s.writes|].Delete? && r.writes[|s.writes| + 1].Commit?
            && forall c :: c !in {p, q, h} ==> PhaseOf(r, c) == PhaseOf(s, c)
  {
    hide Run, Do, StepFinish, StepAccept, StepTransition, PhaseOf;
    var late: seq<Action> := [Step(q), Step(p)] + [];
    var finish := Twice(h) + (Twice(h) + late);
    var s1 := ReadsRecord(cfg, s, p, start, Twice(q) + (Twice(h) + (Twice(h) + finish)));
    var s2 := ReadsRecord(cfg, s1, q, start, Twice(h) + (Twice(h) + finish));
    HostPasses(cfg, s2, h);
    RunPair(cfg, s2, Step(h), Step(h), Twice(h) + finish);
    var s3 := Do(cfg, Do(cfg, s2, Step(h)), Step(h));
    RunPair(cfg, s3, Step(h), Step(h), finish);
    var s4 := Do(cfg, Do(cfg, s3, Step(h)), Step(h));
    var s5 := FinishRunsOut(cfg, s4, h, late);
    RunPair(cfg, s5, Step(q), Step(p), []);
    var r := StaleCommitAfterDelete(cfg, s5, p, q, start);
    RunNone(cfg, r);
  }

  /**
    Sharing a connection breaks the guarantee without any lease expiring: a transition that read the record
    before it was deleted writes it back after the battle was finished.
  */
  lemma SharingResurrects(cfg: Config, start: RuntimeBattle, p: Caller, q: Caller, h: Caller)
    requires p != q && start.state == ACTIVE && cfg.call(h).Finish? && cfg.call(h).isHost
    requires cfg.call(p) == cfg.call(q) == Transition(ACTIVE) && cfg.connection(p) == cfg.connection(q)
    ensures var r := Run(cfg, Initial(Some(start)), Resurrection(p, q, h));
            && |r.finishes| == 1 && r.record == Some(cfg.mutate(p, start))
            && |r.writes| == 2 && r.writes[0].Delete? && r.writes[1].Commit?
            && !FinalizedOnce(r)
  {
    hide Run;
    AllReady(Initial(Some(start)));
    ResurrectsFrom(cfg, Initial(Some(start)), start, p, q, h);
  }

  // As before, but a verdict was accepted while the battle was still ACTIVE and has been waiting for the lock.
  function SecondFinish(p: Caller, q: Caller, h: Caller, a: Caller): seq<Action> {
    [Step(a)] + (Resurrection(p, q, h) + ([Step(a), Step(a)] + ([Step(a), Step(a)] + [])))
  }

  /**
    And the battle is then finished and published a second time, by an accepted verdict that was waiting
    for the lock: under the lock that path looks for a record without a winner, not at state or row.
  */
  lemma SharingFinishesTwice(cfg: Config, start: RuntimeBattle, p: Caller, q: Caller, h: Caller, a: Caller)
    requires p != q && start.state == ACTIVE && cfg.call(h).Finish? && cfg.call(h).isHost
    requires cfg.call(p) == cfg.call(q) == Transition(ACTIVE) && cfg.connection(p) == cfg.connection(q)
    requires cfg.call(a).Accept? && start.mode == OneVsOne && start.winnerId.None?
    requires cfg.mutate(p, start).winnerId.None?
    ensures |Run(cfg, Initial(Some(start)), SecondFinish(p, q, h, a)).finishes| == 2
  {
    hide Run, Resurrection, StepFinish, StepTransition;
    var s0 := Initial(Some(start));
    var end: seq<Action> := [Step(a), Step(a)] + ([Step(a), Step(a)] + []);
    AllReady(s0);
    RunFirst(cfg, s0, Step(a), Resurrection(p, q, h) + end);
    var s1 := Do(cfg, s0, Step(a));
    assert PhaseOf(s1, a) == Locking(0);
    ResurrectsFrom(cfg, s1, start, p, q, h);
    RunSplits(cfg, s1, Resurrection(p, q, h), end);
    var s2 := Run(cfg, s1, Resurrection(p, q, h));
    WaitingAcceptFinishes(cfg, s2, a);
  }

  lemma WaitingAcceptFinishes(cfg: Config, s: State, a: Caller)
    requires cfg.call(a).Accept? && PhaseOf(s, a) == Locking(0) && s.lock.None?
    requires s.record.Some? && s.record.value.winnerId.None?
    ensures var end: seq<Action> := [Step(a), Step(a)] + ([Step(a), Step(a)] + []);
            |Run(cfg, s, end).finishes| == |s.finishes| + 1
  {
    hide Run;
    RunPair(cfg, s, Step(a), Step(a), [Step(a), Step(a)] + []);
    var s1 := Do(cfg, s, Step(a));
    assert PhaseOf(s1, a).Held?;
    var s2 := Do(cfg, s1, Step(a));
    assert PhaseOf(s2, a).Putting?;
    RunPair(cfg, s2, Step(a), Step(a), []);
    var s3 := Do(cfg, s2, Step(a));
    assert PhaseOf(s3, a).Finalizing? && s3.finishes == s.finishes;
    RunNone(cfg, Do(cfg, s3, Step(a)));
  }

  lemma {:induction false} RunSplits(cfg: Config, s: State, first: seq<Action>, second: seq<Action>)
    ensures Run(cfg, s, first + second) == Run(cfg, Run(cfg, s, first), second)
    decreases |first|
  {
    hide Do;
    if first == [] {
      assert first + second == second;
    } else {
      assert (first + second)[1..] == first[1..] + second;
      RunSplits(cfg, Do(cfg, s, first[0]), first[1..], second);
    }
  }

  /**
    What the guarantee rests on, exactly.  While the battle is ACTIVE and two hosts' finishes race with any
    number of transitions out of that state, it is finalized at most once on all schedules if and only if
    no two transition callers share a connection and leases do not expire.
  */
  lemma FinalizedOnceExactly(cfg: Config, start: RuntimeBattle, p: Caller, q: Caller)
    requires start.state == ACTIVE && p != q
    requires cfg.call(p).Finish? && cfg.call(p).isHost && cfg.call(q).Finish? && cfg.call(q).isHost
    requires forall c :: cfg.call(c).Transition? ==> cfg.call(c).expected == ACTIVE
    ensures (forall schedule :: FinalizedOnce(Run(cfg, Initial(Some(start)), schedule)))
            <==> OwnConnections(cfg) && !cfg.leasesExpire
  {
    hide Do, Run;
    if cfg.leasesExpire {
      ExpiryBreaks(cfg, start, p, q);
    } else if !OwnConnections(cfg) {
      var c, d :| c != d && cfg.call(c).Transition? && cfg.call(d).Transition?
          && cfg.connection(c) == cfg.connection(d);
      SharingResurrects(cfg, start, c, d, p);
    } else {
      forall schedule ensures FinalizedOnce(Run(cfg, Initial(Some(start)), schedule)) {
        BattleFinalizedOnce(cfg, Some(start), schedule);
      }
    }
  }
}
