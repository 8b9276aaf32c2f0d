/**
  The cross-node connection cap of the socket service.

  A user's live socket ids are one Redis set. Admission is not one step: a node
  adds the id, asks for the size of the set in a second call, and only then
  decides; a refused socket takes its id out again, and an accepted one does so
  when it disconnects. Any number of nodes do this at once. A schedule lists the
  steps in the order in which the store and the network see them.
*/
module Connections {
  import opened Wrappers

  type SocketId = string

  // Where a socket is in the gateway's code: each value but the last two is followed by one store call or decision.
  datatype Phase =
    | Arrived                    // next: add the id to the user's set
    | Added                      // next: read the size of the set
    | Counted(size: nat)         // next: decide
    | Accepted                   // handlers are installed
    | Refusing                   // next: take the id out again
    | Refused
    | Leaving                    // disconnected after it was accepted; next: take the id out
    | Removed                    // next: read how many remain
    | Departed(remaining: nat)

  datatype Socket = Socket(user: UserId, phase: Phase, live: bool)

  datatype State = State(registry: map<UserId, set<SocketId>>, sockets: map<SocketId, Socket>)

  datatype Step =
    | Connect(id: SocketId, user: UserId)   // a handshake succeeds
    | Advance(id: SocketId)                 // the node takes its next step for this socket
    | Drop(id: SocketId)                    // the transport closes, at any moment

  function Entries(s: State, u: UserId): set<SocketId> {
    if u in s.registry then s.registry[u] else {}
  }

  function WithPhase(s: State, id: SocketId, p: Phase): State
    requires id in s.sockets
  {
    State(s.registry, s.sockets[id := s.sockets[id].(phase := p)])
  }

  function WithEntries(s: State, u: UserId, ids: set<SocketId>): State {
    s.(registry := s.registry[u := ids])
  }

  function DoAdvance(max: nat, s: State, id: SocketId): State
    requires id in s.sockets
  {
    var Socket(u, phase, live) := s.sockets[id];
    var ids := Entries(s, u);
    match phase
    case Arrived => WithEntries(WithPhase(s, id, Added), u, ids + {id})
    case Added => WithPhase(s, id, Counted(|ids|))
    case Counted(size) => WithPhase(s, id, if size > max then Refusing else Accepted)
    case Refusing => WithEntries(WithPhase(s, id, Refused), u, ids - {id})
    case Leaving => WithEntries(WithPhase(s, id, Removed), u, ids - {id})
    case Removed => WithPhase(s, id, Departed(|ids|))
    case _ => s
  }

  // The disconnect handler exists only once the socket has been accepted; before that, a closing transport goes
  // unnoticed.
  function DoDrop(s: State, id: SocketId): State
    requires id in s.sockets
  {
    var x := s.sockets[id];
    if !x.live then s
    else s.(sockets := s.sockets[id := Socket(x.user, if x.phase.Accepted? then Leaving else x.phase, false)])
  }

  function Do(max: nat, s: State, step: Step): State {
    match step
    case Connect(id, user) => if id in s.sockets then s else s.(sockets := s.sockets[id := Socket(user, Arrived, true)])
    case Advance(id) => if id in s.sockets then DoAdvance(max, s, id) else s
    case Drop(id) => if id in s.sockets then DoDrop(s, id) else s
  }

  function Run(max: nat, s: State, schedule: seq<Step>): State
    decreases |schedule|
  {
    if schedule == [] then s else Run(max, Do(max, s, schedule[0]), schedule[1..])
  }

  const Empty := State(map[], map[])

  // ── what holds in every state ────────────────────────────────────

  predicate InRegistry(p: Phase) {
    p.Added? || p.Counted? || p.Accepted? || p.Refusing? || p.Leaving?
  }

  predicate HasPassed(max: nat, p: Phase) {
    (p.Counted? && p.size <= max) || p.Accepted? || p.Leaving?
  }

  function Registered(s: State, u: UserId): set<SocketId> {
    set x | x in s.sockets && s.sockets[x].user == u && InRegistry(s.sockets[x].phase)
  }

  function Passed(max: nat, s: State, u: UserId): set<SocketId> {
    set x | x in s.sockets && s.sockets[x].user == u && HasPassed(max, s.sockets[x].phase)
  }

  // Sockets the user can use.
  function Live(s: State, u: UserId): set<SocketId> {
    set x | x in s.sockets && s.sockets[x] == Socket(u, Accepted, true)
  }

  // Sockets whose transport closed before they were accepted: nobody will ever take their id out.
  function Leaked(s: State, u: UserId): set<SocketId> {
    set x | x in s.sockets && s.sockets[x] == Socket(u, Accepted, false)
  }

  ghost predicate Within(max: nat, s: State, u: UserId) {
    Entries(s, u) == Registered(s, u) && |Passed(max, s, u)| <= max
  }

  ghost predicate Invariant(max: nat, s: State) {
    forall u :: Within(max, s, u)
  }

  lemma SubsetSize<T>(a: set<T>, b: set<T>)
    requires a <= b
    ensures |a| <= |b|
  {
    assert b == a + (b - a);
  }

  // Changing one socket changes one user's sets, and at most by that socket.
  lemma OneSocketMoves(max: nat, s: State, id: SocketId, x: Socket, s': State, v: UserId)
    requires Within(max, s, v)
    requires s'.sockets == s.sockets[id := x]
    requires id in s.sockets ==> s.sockets[id].user == x.user
    requires Entries(s', v) == if v != x.user then Entries(s, v)
                               else if InRegistry(x.phase) then Entries(s, v) + {id} else Entries(s, v) - {id}
    requires v == x.user && HasPassed(max, x.phase) ==> id in Passed(max, s, v) || |Entries(s', v)| <= max
    ensures Within(max, s', v)
  {
    assert Entries(s', v) == Registered(s', v);
    if v == x.user && HasPassed(max, x.phase) && id !in Passed(max, s, v) {
      SubsetSize(Passed(max, s', v), Registered(s', v));
    } else {
      SubsetSize(Passed(max, s', v), Passed(max, s, v));
    }
  }

  lemma StepKeepsInvariant(max: nat, s: State, step: Step)
    requires Invariant(max, s)
    ensures Invariant(max, Do(max, s, step))
  {
    hide Within, Registered, Passed, Do, InRegistry, HasPassed;
    var s' := Do(max, s, step);
    if s' != s {
      StepMovesOneSocket(max, s, step);
      forall v ensures Within(max, s', v) {
        assert Within(max, s, v);
        KnownEntry(max, s, step.id, v);
        if v == s'.sockets[step.id].user {
          StepMovesEntries(max, s, step, v);
          StepPassesWithin(max, s, step, v);
        }
        OneSocketMoves(max, s, step.id, s'.sockets[step.id], s', v);
      }
    }
  }

  lemma StepMovesOneSocket(max: nat, s: State, step: Step)
    ensures var s' := Do(max, s, step);
            s' != s ==>
              && step.id in s'.sockets && s'.sockets == s.sockets[step.id := s'.sockets[step.id]]
              && (step.id in s.sockets ==> s.sockets[step.id].user == s'.sockets[step.id].user)
              && forall v :: v != s'.sockets[step.id].user ==> Entries(s', v) == Entries(s, v)
  {
  }

  lemma StepMovesEntries(max: nat, s: State, step: Step, v: UserId)
    requires Do(max, s, step) != s && step.id in Do(max, s, step).sockets && Do(max, s, step).sockets[step.id].user == v
    requires Within(max, s, v)
    ensures var s' := Do(max, s, step);
            Entries(s', v) == if InRegistry(s'.sockets[step.id].phase) then Entries(s, v) + {step.id}
                              else Entries(s, v) - {step.id}
  {
    hide Within, Registered, Passed, HasPassed;
    KnownEntry(max, s, step.id, v);
    var ids, id := Entries(s, v), step.id;
    assert if id in ids then ids == ids + {id} else ids == ids - {id};
    if step.Advance? {
      AdvanceMovesEntries(max, s, id);
    }
  }

  lemma AdvanceMovesEntries(max: nat, s: State, id: SocketId)
    requires id in s.sockets
    ensures var s', u := DoAdvance(max, s, id), s.sockets[id].user;
            var before, after := s.sockets[id].phase, s'.sockets[id].phase;
            Entries(s', u) == if InRegistry(before) == InRegistry(after) then Entries(s, u)
                              else if InRegistry(after) then Entries(s, u) + {id} else Entries(s, u) - {id}
  {
    hide WithEntries, WithPhase, Entries;
    var x := s.sockets[id];
    var ids := Entries(s, x.user);
    match x.phase
    case Arrived => PhaseAndEntries(s, id, Added, ids + {id});
    case Added => PhaseAndEntries(s, id, Counted(|ids|), ids);
    case Counted(size) => PhaseAndEntries(s, id, if size > max then Refusing else Accepted, ids);
    case Refusing => PhaseAndEntries(s, id, Refused, ids - {id});
    case Leaving => PhaseAndEntries(s, id, Removed, ids - {id});
    case Removed => PhaseAndEntries(s, id, Departed(|ids|), ids);
    case _ =>
  }

  lemma PhaseAndEntries(s: State, id: SocketId, p: Phase, ids: set<SocketId>)
    requires id in s.sockets
    ensures var s', u := WithPhase(s, id, p), s.sockets[id].user;
            && id in s'.sockets && s'.sockets[id] == s.sockets[id].(phase := p)
            && (forall v :: Entries(s', v) == Entries(s, v))
            && Entries(WithEntries(s', u, ids), u) == ids
            && WithEntries(s', u, ids).sockets == s'.sockets
  {
  }

  // The only way to pass anew is to have read a size within the limit.
  lemma StepPassesWithin(max: nat, s: State, step: Step, v: UserId)
    requires Do(max, s, step) != s && step.id in Do(max, s, step).sockets && Do(max, s, step).sockets[step.id].user == v
    requires Within(max, s, v)
    ensures var s' := Do(max, s, step);
            HasPassed(max, s'.sockets[step.id].phase) ==> step.id in Passed(max, s, v) || |Entries(s', v)| <= max
  {
    hide Within, Registered, Passed, InRegistry;
    KnownEntry(max, s, step.id, v);
  }

  lemma KnownEntry(max: nat, s: State, id: SocketId, v: UserId)
    requires Within(max, s, v)
    ensures id in Entries(s, v) <==> id in s.sockets && s.sockets[id].user == v && InRegistry(s.sockets[id].phase)
    ensures id in Passed(max, s, v)
            <==> id in s.sockets && s.sockets[id].user == v && HasPassed(max, s.sockets[id].phase)
  {
  }

  lemma {:induction false} RunKeepsInvariant(max: nat, s: State, schedule: seq<Step>)
    requires Invariant(max, s)
    ensures Invariant(max, Run(max, s, schedule))
    decreases |schedule|
  {
    if schedule != [] {
      StepKeepsInvariant(max, s, schedule[0]);
      RunKeepsInvariant(max, Do(max, s, schedule[0]), schedule[1..]);
    }
  }

  /**
    The cap holds under every interleaving: no user ever has more than the maximum of usable sockets, and
    sockets that died unnoticed count against it, so they can only make the cap tighter.
  */
  lemma CapIsNeverExceeded(max: nat, schedule: seq<Step>, u: UserId)
    ensures var s := Run(max, Empty, schedule);
            |Live(s, u)| <= max && |Live(s, u)| + |Leaked(s, u)| <= max
  {
    var s := Run(max, Empty, schedule);
    RunKeepsInvariant(max, Empty, schedule);
    assert Within(max, s, u);
    assert Live(s, u) !! Leaked(s, u);
    assert |Live(s, u) + Leaked(s, u)| == |Live(s, u)| + |Leaked(s, u)|;
    SubsetSize(Live(s, u) + Leaked(s, u), Passed(max, s, u));
  }

  /**
    In every reachable state, a disconnect that reads an empty set has really found the user without a usable
    socket.
  */
  lemma LastOneOutIsLast(max: nat, schedule: seq<Step>, id: SocketId)
    requires var s := Run(max, Empty, schedule);
             id in s.sockets && s.sockets[id].phase.Removed? && Do(max, s, Advance(id)).sockets[id].phase == Departed(0)
    ensures var s := Run(max, Empty, schedule);
            Live(s, s.sockets[id].user) == {}
  {
    var s := Run(max, Empty, schedule);
    RunKeepsInvariant(max, Empty, schedule);
    var u := s.sockets[id].user;
    assert Within(max, s, u);
    assert Live(s, u) <= Registered(s, u);
  }

  // ── what the separate calls cost ─────────────────────────────────

  // Admission of one socket with no other step in between.
  function Admission(id: SocketId, u: UserId): seq<Step> {
    [Connect(id, u), Advance(id), Advance(id), Advance(id)]
  }

  lemma Runs(max: nat, s: State, first: Step, rest: seq<Step>)
    ensures Run(max, s, [first] + rest) == Run(max, Do(max, s, first), rest)
  {
    assert ([first] + rest)[1..] == rest;
  }

  /** Alone, a new socket is accepted exactly when the user has fewer than the maximum registered. */
  lemma AloneIsExact(max: nat, s: State, id: SocketId, u: UserId)
    requires Invariant(max, s) && id !in s.sockets
    ensures var s' := Run(max, s, Admission(id, u));
            id in Live(s', u) <==> |Entries(s, u)| < max
  {
    assert Within(max, s, u);
    var s1 := Do(max, s, Connect(id, u));
    var s2 := Do(max, s1, Advance(id));
    var s3 := Do(max, s2, Advance(id));
    assert Entries(s2, u) == Entries(s, u) + {id};
    Runs(max, s, Connect(id, u), [Advance(id), Advance(id), Advance(id)]);
    Runs(max, s1, Advance(id), [Advance(id), Advance(id)]);
    Runs(max, s2, Advance(id), [Advance(id)]);
    Runs(max, s3, Advance(id), []);
  }

  // Two sockets that both add themselves before either reads the size.
  function Together(a: SocketId, b: SocketId, u: UserId): seq<Step> {
    [Connect(a, u), Connect(b, u), Advance(a), Advance(b), Advance(a), Advance(b), Advance(a), Advance(b)]
  }

  lemma BothAdded(max: nat, s: State, a: SocketId, b: SocketId, u: UserId, rest: seq<Step>)
    requires a != b && a !in s.sockets && b !in s.sockets
    ensures var s' := WithEntries(s, u, Entries(s, u) + {a, b})
                        .(sockets := s.sockets[a := Socket(u, Added, true)][b := Socket(u, Added, true)]);
            Run(max, s, [Connect(a, u), Connect(b, u), Advance(a), Advance(b)] + rest) == Run(max, s', rest)
  {
    var s1 := Do(max, s, Connect(a, u));
    var s2 := Do(max, s1, Connect(b, u));
    var s3 := Do(max, s2, Advance(a));
    var s4 := Do(max, s3, Advance(b));
    assert s4.sockets == s.sockets[a := Socket(u, Added, true)][b := Socket(u, Added, true)];
    assert s4.registry == s.registry[u := Entries(s, u) + {a, b}] by {
      assert Entries(s, u) + {a} + {b} == Entries(s, u) + {a, b};
    }
    hide Do;
    var ab, bb := [Advance(a), Advance(b)] + rest, [Advance(b)] + rest;
    assert [Connect(a, u), Connect(b, u), Advance(a), Advance(b)] + rest == [Connect(a, u)] + ([Connect(b, u)] + ab);
    assert ab == [Advance(a)] + bb;
    Runs(max, s, Connect(a, u), [Connect(b, u)] + ab);
    Runs(max, s1, Connect(b, u), ab);
    Runs(max, s2, Advance(a), bb);
    Runs(max, s3, Advance(b), rest);
  }

  lemma BothDecide(max: nat, s: State, a: SocketId, b: SocketId, u: UserId)
    requires a != b && a in s.sockets && b in s.sockets
    requires s.sockets[a] == s.sockets[b] == Socket(u, Added, true)
    ensures var s' := Run(max, s, [Advance(a), Advance(b), Advance(a), Advance(b)]);
            && (a in Live(s', u) <==> |Entries(s, u)| <= max)
            && (b in Live(s', u) <==> |Entries(s, u)| <= max)
  {
    var s1 := Do(max, s, Advance(a));
    var s2 := Do(max, s1, Advance(b));
    var s3 := Do(max, s2, Advance(a));
    var s4 := Do(max, s3, Advance(b));
    var last := if |Entries(s, u)| > max then Refusing else Accepted;
    assert s4.sockets[a] == s4.sockets[b] == Socket(u, last, true);
    hide Do;
    Runs(max, s, Advance(a), [Advance(b), Advance(a), Advance(b)]);
    Runs(max, s1, Advance(b), [Advance(a), Advance(b)]);
    Runs(max, s2, Advance(a), [Advance(b)]);
    Runs(max, s3, Advance(b), []);
  }

  /**
    Two sockets that arrive together are both accepted when there is room for both, and otherwise both
    refused: whenever exactly one place is free, nobody gets it.
  */
  lemma TogetherBothOrNeither(max: nat, s: State, a: SocketId, b: SocketId, u: UserId)
    requires Invariant(max, s) && a != b && a !in s.sockets && b !in s.sockets
    ensures var s' := Run(max, s, Together(a, b, u));
            && (a in Live(s', u) <==> |Entries(s, u)| + 2 <= max)
            && (b in Live(s', u) <==> |Entries(s, u)| + 2 <= max)
  {
    hide Run, Do;
    var s1 := WithEntries(s, u, Entries(s, u) + {a, b})
                .(sockets := s.sockets[a := Socket(u, Added, true)][b := Socket(u, Added, true)]);
    assert Within(max, s, u);
    assert a !in Entries(s, u) && b !in Entries(s, u);
    assert |Entries(s, u) + {a, b}| == |Entries(s, u)| + 2;
    var rest := [Advance(a), Advance(b), Advance(a), Advance(b)];
    assert Together(a, b, u) == [Connect(a, u), Connect(b, u), Advance(a), Advance(b)] + rest;
    BothAdded(max, s, a, b, u, rest);
    BothDecide(max, s1, a, b, u);
  }

  // A socket whose transport closed before it was accepted, from the moment at which it reads the size on.
  predicate DeadSince(s: State, id: SocketId, u: UserId, max: nat, size: nat) {
    && id in s.sockets && s.sockets[id].user == u && !s.sockets[id].live
    && var p := s.sockets[id].phase;
       p == Counted(size) || (if size <= max then p.Accepted? else p.Refusing? || p.Refused?)
  }

  lemma {:induction false} DeadForGood(max: nat, s: State, schedule: seq<Step>, id: SocketId, u: UserId, size: nat)
    requires DeadSince(s, id, u, max, size)
    ensures DeadSince(Run(max, s, schedule), id, u, max, size)
    decreases |schedule|
  {
    hide DeadSince;
    if schedule != [] {
      StaysDead(max, s, schedule[0], id, u, size);
      DeadForGood(max, Do(max, s, schedule[0]), schedule[1..], id, u, size);
    }
  }

  lemma StaysDead(max: nat, s: State, step: Step, id: SocketId, u: UserId, size: nat)
    requires DeadSince(s, id, u, max, size)
    ensures DeadSince(Do(max, s, step), id, u, max, size)
  {
  }

  // The node has still something to do for the socket before it is accepted or refused for good.
  predicate BeingAdmitted(p: Phase) {
    p.Arrived? || p.Added? || p.Counted? || p.Refusing?
  }

  lemma {:induction false} DroppedStaysDropped(max: nat, s: State, schedule: seq<Step>, id: SocketId)
    requires id in s.sockets && !s.sockets[id].live
    ensures var s' := Run(max, s, schedule);
            id in s'.sockets && !s'.sockets[id].live && s'.sockets[id].user == s.sockets[id].user
    decreases |schedule|
  {
    if schedule != [] { DroppedStaysDropped(max, Do(max, s, schedule[0]), schedule[1..], id); }
  }

  /**
    A socket that closes at any moment before it is accepted, whatever else happens before it reads the
    size and after: once the node is through with it, its id stays in the set for good if and only if the
    size it read was within the limit; and in no case can anybody use it.
  */
  lemma ClosingEarlyLeaksExactly(max: nat, s: State, id: SocketId, before: seq<Step>, after: seq<Step>)
    requires Invariant(max, s) && id in s.sockets && s.sockets[id].live
    requires s.sockets[id].phase.Arrived? || s.sockets[id].phase.Added? || s.sockets[id].phase.Counted?
    requires var counted := Run(max, Do(max, s, Drop(id)), before);
             id in counted.sockets && counted.sockets[id].phase.Counted?
    requires var end := Run(max, Run(max, Do(max, s, Drop(id)), before), after);
             id in end.sockets && !BeingAdmitted(end.sockets[id].phase)
    ensures var counted := Run(max, Do(max, s, Drop(id)), before);
            var end, u := Run(max, counted, after), s.sockets[id].user;
            && (id in Entries(end, u) <==> counted.sockets[id].phase.size <= max)
            && id !in Live(end, u)
  {
    hide Do, Run, Invariant, Within;
    var u, dropped := s.sockets[id].user, Do(max, s, Drop(id));
    var counted := Run(max, dropped, before);
    var size := counted.sockets[id].phase.size;
    DropsDead(max, s, id);
    DroppedStaysDropped(max, dropped, before, id);
    DeadForGood(max, counted, after, id, u, size);
    StepKeepsInvariant(max, s, Drop(id));
    RunKeepsInvariant(max, dropped, before);
    RunKeepsInvariant(max, counted, after);
    InvariantWithin(max, Run(max, counted, after), u);
    KnownEntry(max, Run(max, counted, after), id, u);
  }

  lemma DropsDead(max: nat, s: State, id: SocketId)
    requires id in s.sockets && s.sockets[id].live
    ensures var s' := Do(max, s, Drop(id));
            id in s'.sockets && !s'.sockets[id].live && s'.sockets[id].user == s.sockets[id].user
  {
  }

  lemma InvariantWithin(max: nat, s: State, u: UserId)
    requires Invariant(max, s)
    ensures Within(max, s, u)
  {
  }

  /**
    Such an end is reached from every moment: dropped on arrival, a socket alone leaks exactly when fewer than the
    maximum are registered.
  */
  lemma DroppedOnArrivalAlone(max: nat, s: State, id: SocketId)
    requires Invariant(max, s) && id in s.sockets && s.sockets[id].live && s.sockets[id].phase.Arrived?
    ensures var u := s.sockets[id].user;
            var end := Run(max, Do(max, s, Drop(id)), [Advance(id), Advance(id), Advance(id), Advance(id)]);
            id in Entries(end, u) <==> |Entries(s, u)| < max
  {
    hide Registered, Passed;
    var u := s.sockets[id].user;
    InvariantWithin(max, s, u);
    KnownEntry(max, s, id, u);
    var s0 := Do(max, s, Drop(id));
    var s1 := Do(max, s0, Advance(id));
    assert Entries(s1, u) == Entries(s, u) + {id} && s1.sockets[id] == Socket(u, Added, false);
    var s2 := Do(max, s1, Advance(id));
    assert Entries(s2, u) == Entries(s1, u) && s2.sockets[id] == Socket(u, Counted(|Entries(s, u)| + 1), false);
    LastTwo(max, s2, id, u);
    Runs(max, s0, Advance(id), [Advance(id), Advance(id), Advance(id)]);
    Runs(max, s1, Advance(id), [Advance(id), Advance(id)]);
  }

  lemma LastTwo(max: nat, s: State, id: SocketId, u: UserId)
    requires id in s.sockets && s.sockets[id].phase.Counted? && s.sockets[id].user == u && id in Entries(s, u)
    ensures id in Entries(Run(max, s, [Advance(id), Advance(id)]), u) <==> s.sockets[id].phase.size <= max
  {
    var s1 := Do(max, s, Advance(id));
    var s2 := Do(max, s1, Advance(id));
    Runs(max, s, Advance(id), [Advance(id)]);
    Runs(max, s1, Advance(id), []);
  }

  // After an accepted socket closed: its id is in the set until the node has taken it out.
  predicate IsLeaving(s: State, id: SocketId, u: UserId) {
    && id in s.sockets && s.sockets[id].user == u && !s.sockets[id].live
    && (s.sockets[id].phase.Leaving? || s.sockets[id].phase.Removed? || s.sockets[id].phase.Departed?)
  }

  lemma {:induction false} LeavesForGood(max: nat, s: State, schedule: seq<Step>, id: SocketId, u: UserId)
    requires IsLeaving(s, id, u)
    ensures IsLeaving(Run(max, s, schedule), id, u)
    decreases |schedule|
  {
    if schedule != [] { LeavesForGood(max, Do(max, s, schedule[0]), schedule[1..], id, u); }
  }

  /**
    An accepted socket that closes gives its place back: on every schedule, the id stays only until the
    node's next step for it, two of which complete the disconnect, and never comes back.
  */
  lemma DisconnectFreesThePlace(max: nat, s: State, id: SocketId, u: UserId, schedule: seq<Step>)
    requires Invariant(max, s) && id in Live(s, u)
    ensures var r := Run(max, Do(max, s, Drop(id)), schedule);
            && id !in Live(r, u) && id in r.sockets
            && (id in Entries(r, u) <==> r.sockets[id].phase.Leaving?)
            && (r.sockets[id].phase.Leaving? ==> id !in Entries(Do(max, r, Advance(id)), u))
            && (r.sockets[id].phase.Removed? ==>
                  Do(max, r, Advance(id)).sockets[id].phase == Departed(|Entries(r, u)|))
  {
    hide Run, Invariant, Within;
    var dropped := Do(max, s, Drop(id));
    var r := Run(max, dropped, schedule);
    LeavesForGood(max, dropped, schedule, id, u);
    StepKeepsInvariant(max, s, Drop(id));
    RunKeepsInvariant(max, dropped, schedule);
    InvariantWithin(max, r, u);
    KnownEntry(max, r, id, u);
  }

  // ── the registry and the gateway ─────────────────────────────────

  class ConnectionRegistry {
    var sets: map<UserId, set<SocketId>>

    function Members(u: UserId): set<SocketId>
      reads this
    {
      if u in sets then sets[u] else {}
    }

    constructor ()
      ensures sets == map[]
    {
      sets := map[];
    }

    // As one call; in a schedule it is an add and a read.
    method Add(u: UserId, id: SocketId) returns (count: nat)
      modifies this
      ensures sets == old(sets)[u := old(Members(u)) + {id}]
      ensures count == |old(Members(u)) + {id}|
    {
      sets := sets[u := Members(u) + {id}];
      count := |Members(u)|;
    }

    method Remove(u: UserId, id: SocketId) returns (count: nat)
      modifies this
      ensures sets == old(sets)[u := old(Members(u)) - {id}]
      ensures count == |old(Members(u)) - {id}|
    {
      sets := sets[u := Members(u) - {id}];
      count := |Members(u)|;
    }

    // A refused socket leaves the registry as it found it.
    method OnConnection(u: UserId, id: SocketId, max: nat) returns (accepted: bool)
      requires id !in Members(u)
      modifies this
      ensures accepted <==> |old(Members(u))| < max
      ensures Members(u) == if accepted then old(Members(u)) + {id} else old(Members(u))
      ensures forall v :: v != u ==> Members(v) == old(Members(v))
    {
      var count := Add(u, id);
      accepted := count <= max;
      if !accepted {
        var _ := Remove(u, id);
      }
    }
  }
}
