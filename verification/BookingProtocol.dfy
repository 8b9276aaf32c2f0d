/**
  Joins, leaves, friend matches and sweeps racing on one queue.  Every Redis
  command or script is one step; any number of workers take steps in any order.

  The model frees the callers' control flow: a worker may read any ticket and
  may try to claim any two tickets it has read that are compatible and belong to
  different users.  Sweeps and friend matches do only that, in a fixed order, so
  a law proved here for every schedule holds for theirs.
*/
module BookingProtocol {
  import opened Wrappers
  import opened Queue
  import opened Matchmaking

  type WorkerId = nat

  datatype Activity =
    | Ready
    | Admitted(ticket: Ticket)                      // join: not queued when asked
    | Dequeuing(user: UserId, read: Option<Ticket>) // dequeue: ticket read, script to come
    | Claiming(a: Ticket, b: Ticket)                // claimPair: script to come
    | ReadingA(a: Ticket, b: Ticket)                // claimed: tickets to be read, then erased
    | ReadingB(a: Ticket, b: Ticket, ta: Option<Ticket>)
    | Piping(commands: seq<Command>)                // the clean-up's pipeline, which is not atomic

  datatype Command = RemoveEntry(pool: PoolKey, user: UserId) | DeleteTicket(user: UserId)

  datatype Worker = Worker(known: set<Ticket>, activity: Activity)

  datatype Event = Enqueued(ticket: Ticket) | Booked(a: Ticket, b: Ticket)

  datatype State = State(queue: Queue, workers: map<WorkerId, Worker>, history: seq<Event>)

  datatype Step =
    | AskToJoin(ticket: Ticket)
    | ReadTicket(user: UserId)
    | BeginDequeue(user: UserId)
    | BeginClaim(a: Ticket, b: Ticket)
    | Continue

  function WorkerOf(s: State, w: WorkerId): Worker {
    if w in s.workers then s.workers[w] else Worker({}, Ready)
  }

  function Known(o: Option<Ticket>): set<Ticket> {
    if o.Some? then {o.value} else {}
  }

  // One step of worker w; a step that is not possible leaves the state as it is.
  function Do(s: State, w: WorkerId, step: Step): State {
    var me := WorkerOf(s, w);
    match step
    case AskToJoin(t) =>
      if me.activity == Ready && t.userId !in s.queue.queued && !(Truthy(t.friendId) && t.friendId.value == t.userId)
      then s.(workers := s.workers[w := me.(activity := Admitted(t))]) else s
    case ReadTicket(u) =>
      if me.activity == Ready
      then s.(workers := s.workers[w := me.(known := me.known + Known(GetTicket(s.queue, u)))]) else s
    case BeginDequeue(u) =>
      if me.activity == Ready
      then s.(workers := s.workers[w := me.(activity := Dequeuing(u, GetTicket(s.queue, u)))]) else s
    case BeginClaim(a, b) =>
      if me.activity == Ready && a in me.known && b in me.known && a.userId != b.userId && Compatible(a, b)
      then s.(workers := s.workers[w := me.(activity := Claiming(a, b))]) else s
    case Continue =>
      var (q, known, next, events) := Proceed(s.queue, me.activity);
      State(q, s.workers[w := Worker(me.known + known, next)], s.history + events)
  }

  function Commands(u: UserId, read: Option<Ticket>): seq<Command> {
    if read.None? then [] else [RemoveEntry(KeyOf(read.value), u), DeleteTicket(u)]
  }

  function Execute(q: Queue, c: Command): Queue {
    match c
    case RemoveEntry(k, u) => q.(pools := q.pools[k := ZRem(Pool(q, k), u)])
    case DeleteTicket(u) => q.(tickets := q.tickets - {u})
  }

  function StillPiping(commands: seq<Command>): Activity {
    if commands == [] then Ready else Piping(commands)
  }

  function Proceed(q: Queue, activity: Activity): (Queue, set<Ticket>, Activity, seq<Event>) {
    match activity
    case Ready => (q, {}, Ready, [])
    case Admitted(t) => (Enqueue(q, t), {t}, Ready, [Enqueued(t)])
    case Dequeuing(u, read) =>
      var q' := Erase(q, u, read);
      (q'.(queued := q'.queued - {u}), {}, Ready, [])
    case Claiming(a, b) =>
      if a.userId in q.queued && b.userId in q.queued
      then (q.(queued := q.queued - {a.userId, b.userId}), {}, ReadingA(a, b), [Booked(a, b)])
      else (q, {}, Ready, [])
    case ReadingA(a, b) => (q, {}, ReadingB(a, b, GetTicket(q, a.userId)), [])
    case ReadingB(a, b, ta) =>
      (q, {}, StillPiping(Commands(a.userId, ta) + Commands(b.userId, GetTicket(q, b.userId))), [])
    case Piping(commands) =>
      if commands == [] then (q, {}, Ready, []) else (Execute(q, commands[0]), {}, StillPiping(commands[1..]), [])
  }

  const Nobody := State(Queue(map[], map[], {}), map[], [])

  function Run(s: State, schedule: seq<(WorkerId, Step)>): State
    decreases |schedule|
  {
    if schedule == [] then s else Run(Do(s, schedule[0].0, schedule[0].1), schedule[1..])
  }

  // ── no double booking ────────────────────────────────────────────

  predicate Books(e: Event, u: UserId) {
    e.Booked? && (e.a.userId == u || e.b.userId == u)
  }

  predicate Enqueues(e: Event, u: UserId) {
    e.Enqueued? && e.ticket.userId == u
  }

  ghost predicate EnqueuedBetween(h: seq<Event>, u: UserId, i: int, j: int) {
    exists k :: i < k < j && 0 <= k < |h| && Enqueues(h[k], u)
  }

  ghost predicate WasEnqueued(h: seq<Event>, t: Ticket) {
    Enqueued(t) in h
  }

  ghost predicate SoundBooking(h: seq<Event>, i: int)
    requires 0 <= i < |h|
  {
    h[i].Booked? ==>
      && h[i].a.userId != h[i].b.userId && Compatible(h[i].a, h[i].b)
      && WasEnqueued(h[..i], h[i].a) && WasEnqueued(h[..i], h[i].b)
  }

  ghost predicate SoundHistory(h: seq<Event>) {
    && (forall i :: 0 <= i < |h| ==> SoundBooking(h, i))
    && forall u, i, j :: 0 <= i < j < |h| && Books(h[i], u) && Books(h[j], u) ==> EnqueuedBetween(h, u, i, j)
  }

  // A user who may be claimed has been enqueued since the last booking.
  ghost predicate ClaimableSinceEnqueue(s: State) {
    forall u, i :: u in s.queue.queued && 0 <= i < |s.history| && Books(s.history[i], u)
      ==> EnqueuedBetween(s.history, u, i, |s.history|)
  }

  ghost predicate HonestWorker(h: seq<Event>, w: Worker) {
    && (forall t :: t in w.known ==> WasEnqueued(h, t))
    && (w.activity.Claiming? ==>
          var a, b := w.activity.a, w.activity.b;
          a.userId != b.userId && Compatible(a, b) && WasEnqueued(h, a) && WasEnqueued(h, b))
  }

  ghost predicate Invariant(s: State) {
    && SoundHistory(s.history)
    && ClaimableSinceEnqueue(s)
    && (forall u :: u in s.queue.tickets ==> WasEnqueued(s.history, s.queue.tickets[u]))
    && (forall w :: w in s.workers ==> HonestWorker(s.history, s.workers[w]))
  }

  lemma SoundHistoryGrows(h: seq<Event>, e: Event)
    requires SoundHistory(h)
    requires e.Booked? ==> SoundBooking(h + [e], |h|)
    requires forall u, i :: 0 <= i < |h| && Books(h[i], u) && Books(e, u) ==> EnqueuedBetween(h, u, i, |h|)
    ensures SoundHistory(h + [e])
  {
    hide Compatible;
    var h' := h + [e];
    forall i | 0 <= i < |h'| ensures SoundBooking(h', i) {
      if i < |h| { assert SoundBooking(h, i) && h'[..i] == h[..i]; }
    }
    forall u, i, j | 0 <= i < j < |h'| && Books(h'[i], u) && Books(h'[j], u) ensures EnqueuedBetween(h', u, i, j) {
      assert EnqueuedBetween(h, u, i, j);
      var k :| i < k < j && 0 <= k < |h| && Enqueues(h[k], u);
      assert h'[k] == h[k];
    }
  }

  lemma WorkersStayHonest(s: State, w: WorkerId, known: set<Ticket>, next: Activity, events: seq<Event>, s': State)
    requires forall x :: x in s.workers ==> HonestWorker(s.history, s.workers[x])
    requires s'.history == s.history + events
    requires s'.workers == s.workers[w := Worker(WorkerOf(s, w).known + known, next)]
    requires HonestWorker(s'.history, Worker(known, next))
    ensures forall x :: x in s'.workers ==> HonestWorker(s'.history, s'.workers[x])
  {
    hide Compatible;
    assert forall t :: WasEnqueued(s.history, t) ==> WasEnqueued(s'.history, t);
  }

  lemma ClaimableAfterEnqueue(s: State, s': State, t: Ticket)
    requires ClaimableSinceEnqueue(s)
    requires s'.history == s.history + [Enqueued(t)] && s'.queue.queued == s.queue.queued + {t.userId}
    ensures ClaimableSinceEnqueue(s')
  {
    var h, h' := s.history, s'.history;
    assert h'[|h|] == Enqueued(t) && forall i :: 0 <= i < |h| ==> h'[i] == h[i];
    forall u, i | u in s'.queue.queued && 0 <= i < |h'| && Books(h'[i], u) ensures EnqueuedBetween(h', u, i, |h'|) {
      if u == t.userId {
        assert Enqueues(h'[|h|], u);
      } else {
        var k :| i < k < |h| && 0 <= k < |h| && Enqueues(h[k], u);
        assert Enqueues(h'[k], u);
      }
    }
  }

  lemma ClaimableAfterBooking(s: State, s': State, a: Ticket, b: Ticket)
    requires ClaimableSinceEnqueue(s)
    requires s'.history == s.history + [Booked(a, b)] && s'.queue.queued == s.queue.queued - {a.userId, b.userId}
    ensures ClaimableSinceEnqueue(s')
  {
    var h, h' := s.history, s'.history;
    assert h'[|h|] == Booked(a, b) && forall i :: 0 <= i < |h| ==> h'[i] == h[i];
    forall u, i | u in s'.queue.queued && 0 <= i < |h'| && Books(h'[i], u) ensures EnqueuedBetween(h', u, i, |h'|) {
      var k :| i < k < |h| && 0 <= k < |h| && Enqueues(h[k], u);
      assert Enqueues(h'[k], u);
    }
  }

  lemma BookingIsSound(s: State, a: Ticket, b: Ticket)
    requires SoundHistory(s.history) && ClaimableSinceEnqueue(s)
    requires a.userId in s.queue.queued && b.userId in s.queue.queued && a.userId != b.userId && Compatible(a, b)
    requires WasEnqueued(s.history, a) && WasEnqueued(s.history, b)
    ensures SoundHistory(s.history + [Booked(a, b)])
  {
    hide Compatible, SoundHistory;
    var h := s.history;
    assert (h + [Booked(a, b)])[..|h|] == h;
    assert SoundBooking(h + [Booked(a, b)], |h|);
    SoundHistoryGrows(h, Booked(a, b));
  }

  lemma ProceedKeepsInvariant(s: State, w: WorkerId)
    requires Invariant(s)
    ensures Invariant(Do(s, w, Continue))
  {
    hide Compatible, Enqueue, SoundHistory, EnqueuedBetween, ZRem, Pool;
    var me := WorkerOf(s, w);
    var h := s.history;
    var (q', known, next, events) := Proceed(s.queue, me.activity);
    var s' := Do(s, w, Continue);
    assert h + [] == h;
    match me.activity {
      case Admitted(t) =>
        SoundHistoryGrows(h, Enqueued(t));
        EnqueueEffect(s.queue, t);
        ClaimableAfterEnqueue(s, s', t);
        assert s'.history[|h|] == Enqueued(t);
      case Claiming(a, b) =>
        if events != [] {
          BookingIsSound(s, a, b);
          ClaimableAfterBooking(s, s', a, b);
        }
      case _ =>
    }
    assert forall t :: WasEnqueued(h, t) ==> WasEnqueued(h + events, t);
    WorkersStayHonest(s, w, known, next, events, s');
  }

  lemma EnqueueEffect(q: Queue, t: Ticket)
    ensures Enqueue(q, t).tickets == q.tickets[t.userId := t] && Enqueue(q, t).queued == q.queued + {t.userId}
  {
  }

  lemma StepKeepsInvariant(s: State, w: WorkerId, step: Step)
    requires Invariant(s)
    ensures Invariant(Do(s, w, step))
  {
    hide Compatible, SoundHistory, Proceed;
    if step == Continue {
      ProceedKeepsInvariant(s, w);
    } else {
      var s' := Do(s, w, step);
      assert s.history + [] == s.history;
      if s' != s {
        var me, me' := WorkerOf(s, w), WorkerOf(s', w);
        assert me'.known == me.known + me'.known;
        WorkersStayHonest(s, w, me'.known, me'.activity, [], s');
      }
    }
  }

  lemma {:induction false} RunKeepsInvariant(s: State, schedule: seq<(WorkerId, Step)>)
    requires Invariant(s)
    ensures Invariant(Run(s, schedule))
    decreases |schedule|
  {
    hide Invariant, Do;
    if schedule != [] {
      StepKeepsInvariant(s, schedule[0].0, schedule[0].1);
      RunKeepsInvariant(Do(s, schedule[0].0, schedule[0].1), schedule[1..]);
    }
  }

  /**
    No double booking, on every schedule of any number of workers: each booking joins two different
    players whose tickets had been enqueued and are compatible, and between two bookings of one player
    that player was enqueued again.
  */
  lemma NoDoubleBooking(schedule: seq<(WorkerId, Step)>)
    ensures SoundHistory(Run(Nobody, schedule).history)
  {
    RunKeepsInvariant(Nobody, schedule);
  }

  function BookingsOf(h: seq<Event>, u: UserId): nat {
    if h == [] then 0 else BookingsOf(h[..|h| - 1], u) + if Books(h[|h| - 1], u) then 1 else 0
  }

  function EnqueuesOf(h: seq<Event>, u: UserId): nat {
    if h == [] then 0 else EnqueuesOf(h[..|h| - 1], u) + if Enqueues(h[|h| - 1], u) then 1 else 0
  }

  // Every booking so far is paid for by an enqueue, and a waiting user has one to spare.
  ghost predicate PaidFor(s: State, u: UserId) {
    BookingsOf(s.history, u) + (if u in s.queue.queued then 1 else 0) <= EnqueuesOf(s.history, u)
  }

  lemma AppendedCounts(h: seq<Event>, e: Event, u: UserId)
    ensures BookingsOf(h + [e], u) == BookingsOf(h, u) + if Books(e, u) then 1 else 0
    ensures EnqueuesOf(h + [e], u) == EnqueuesOf(h, u) + if Enqueues(e, u) then 1 else 0
  {
    assert (h + [e])[..|h|] == h;
  }

  lemma StepPays(s: State, w: WorkerId, step: Step, u: UserId)
    requires PaidFor(s, u)
    ensures PaidFor(Do(s, w, step), u)
  {
    hide Compatible, BookingsOf, EnqueuesOf, Enqueue, ZRem, Pool;
    var activity := WorkerOf(s, w).activity;
    assert s.history + [] == s.history;
    match activity
    case Admitted(t) =>
      EnqueueEffect(s.queue, t);
      AppendedCounts(s.history, Enqueued(t), u);
    case Claiming(a, b) => AppendedCounts(s.history, Booked(a, b), u);
    case _ =>
  }

  lemma {:induction false} RunPays(s: State, schedule: seq<(WorkerId, Step)>, u: UserId)
    requires PaidFor(s, u)
    ensures PaidFor(Run(s, schedule), u)
    decreases |schedule|
  {
    hide PaidFor, Do;
    if schedule != [] {
      StepPays(s, schedule[0].0, schedule[0].1, u);
      RunPays(Do(s, schedule[0].0, schedule[0].1), schedule[1..], u);
    }
  }

  /** Counted: no player is booked more often than enqueued, and strictly less often while waiting. */
  lemma BookingsNeverExceedEnqueues(schedule: seq<(WorkerId, Step)>, u: UserId)
    ensures var r := Run(Nobody, schedule);
            BookingsOf(r.history, u) + (if u in r.queue.queued then 1 else 0) <= EnqueuesOf(r.history, u)
  {
    RunPays(Nobody, schedule, u);
  }

  /** A join goes on exactly if its user is not marked as queued when it asks, and does not name itself as friend. */
  lemma AskRefusedExactly(s: State, w: WorkerId, t: Ticket)
    requires WorkerOf(s, w).activity == Ready
    ensures var s' := Do(s, w, AskToJoin(t));
            && s'.queue == s.queue && s'.history == s.history
            && WorkerOf(s', w).activity
               == if t.userId in s.queue.queued || (t.friendId == Some(t.userId) && t.userId != "") then Ready
                  else Admitted(t)
  {
  }

  // Every admission in progress, and every enqueue so far, is of a ticket that does not name its own user.
  ghost predicate NobodyNamesThemselves(s: State) {
    && (forall w :: WorkerOf(s, w).activity.Admitted? ==>
          var t := WorkerOf(s, w).activity.ticket; t.friendId == Some(t.userId) ==> t.userId == "")
    && forall t :: Enqueued(t) in s.history && t.friendId == Some(t.userId) ==> t.userId == ""
  }

  lemma {:induction false} RunNamesNobodyTwice(s: State, schedule: seq<(WorkerId, Step)>)
    requires NobodyNamesThemselves(s)
    ensures NobodyNamesThemselves(Run(s, schedule))
    decreases |schedule|
  {
    hide Do, NobodyNamesThemselves;
    if schedule != [] {
      StepNamesNobodyTwice(s, schedule[0].0, schedule[0].1);
      RunNamesNobodyTwice(Do(s, schedule[0].0, schedule[0].1), schedule[1..]);
    }
  }

  lemma StepNamesNobodyTwice(s: State, w: WorkerId, step: Step)
    requires NobodyNamesThemselves(s)
    ensures NobodyNamesThemselves(Do(s, w, step))
  {
    hide Compatible, Enqueue, Erase, Execute;
    var s' := Do(s, w, step);
    assert forall x :: x != w ==> WorkerOf(s', x) == WorkerOf(s, x);
  }

  /** On every schedule, no ticket that was ever enqueued names its own user as the friend to wait for. */
  lemma NobodyWaitsForThemselves(schedule: seq<(WorkerId, Step)>)
    ensures forall t :: Enqueued(t) in Run(Nobody, schedule).history && t.friendId == Some(t.userId) ==> t.userId == ""
  {
    RunNamesNobodyTwice(Nobody, schedule);
  }
}
