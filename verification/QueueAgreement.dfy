/**
  When pools, tickets and queued set agree, although joins, leaves and claims are
  not atomic: a join asks before it enqueues, a leave reads the ticket before its
  script, and a claim cleans up with two reads and a pipeline.

  Each step has an exact guard.  As long as every step meets its guard the
  structures agree whenever all workers are done, and a step that does not meet
  it breaks the invariant; two schedules show that both kinds of breach last.
*/
module QueueAgreement {
  import opened Wrappers
  import opened Queue
  import opened Matchmaking
  import opened BookingProtocol

  // The user's ticket is found in its own pool.
  predicate Listed(q: Queue, u: UserId) {
    u in q.tickets && Entry(u, q.tickets[u].rating) in Pool(q, KeyOf(q.tickets[u]))
  }

  ghost predicate Mirrors(q: Queue, k: PoolKey, e: Entry) {
    e.user in q.tickets && KeyOf(q.tickets[e.user]) == k && q.tickets[e.user].rating == e.score
  }

  ghost predicate EntriesMirror(q: Queue) {
    forall k, e :: e in Pool(q, k) ==> Mirrors(q, k, e)
  }

  // What can be asked of the structures at any moment: entries are those of tickets, and who is queued is found.
  ghost predicate Agreeing(q: Queue) {
    && Keyed(q) && EntriesMirror(q) && (forall k :: WellFormed(Pool(q, k)))
    && forall u :: u in q.queued ==> Listed(q, u)
  }

  /** The structures are consistent exactly when they agree and every ticket is a queued user's. */
  lemma ConsistentExactly(q: Queue)
    ensures Consistent(q) <==> Agreeing(q) && q.tickets.Keys <= q.queued
  {
    if Consistent(q) {
      forall u | u in q.queued ensures Listed(q, u) {
        assert Entry(u, q.tickets[u].rating) in Pool(q, KeyOf(q.tickets[u]));
      }
    }
    if Agreeing(q) && q.tickets.Keys <= q.queued {
      forall k, e ensures e in Pool(q, k) <==> Mirrors(q, k, e) {
        if Mirrors(q, k, e) { assert Listed(q, e.user); }
      }
    }
  }

  // ── what each command does to agreement ──────────────────────────

  lemma OnlyOwnEntry(q: Queue, k: PoolKey, e: Entry)
    requires EntriesMirror(q) && e in Pool(q, k)
    ensures Listed(q, e.user) && KeyOf(q.tickets[e.user]) == k && e.score == q.tickets[e.user].rating
  {
    assert Mirrors(q, k, e);
  }

  lemma EntryRemoved(q: Queue, k: PoolKey, u: UserId)
    requires Agreeing(q)
    ensures var q' := Execute(q, RemoveEntry(k, u));
            && EntriesMirror(q') && (forall j :: WellFormed(Pool(q', j)))
            && forall v :: Listed(q', v) <==> Listed(q, v) && !(v == u && KeyOf(q.tickets[u]) == k)
  {
    var q' := Execute(q, RemoveEntry(k, u));
    ZRemMembers(Pool(q, k), u);
    assert Pool(q', k) == ZRem(Pool(q, k), u);
    assert forall j :: j != k ==> Pool(q', j) == Pool(q, j);
    forall j, e | e in Pool(q', j) ensures Mirrors(q', j, e) {
      assert e in Pool(q, j) && Mirrors(q, j, e);
    }
  }

  lemma RemoveEntryAgreesExactly(q: Queue, k: PoolKey, u: UserId)
    requires Agreeing(q)
    ensures Agreeing(Execute(q, RemoveEntry(k, u))) <==> !(u in q.queued && KeyOf(q.tickets[u]) == k)
  {
    hide EntriesMirror, WellFormed, ZRem;
    EntryRemoved(q, k, u);
    var q' := Execute(q, RemoveEntry(k, u));
    assert forall v :: v in q'.queued ==> Listed(q, v);
  }

  lemma DeleteTicketAgreesExactly(q: Queue, u: UserId)
    requires Agreeing(q)
    ensures Agreeing(Execute(q, DeleteTicket(u))) <==> u !in q.queued && !Listed(q, u)
  {
    hide WellFormed;
    var q' := Execute(q, DeleteTicket(u));
    assert forall k :: Pool(q', k) == Pool(q, k);
    assert u !in q'.tickets;
    if Listed(q, u) {
      var k, e := KeyOf(q.tickets[u]), Entry(u, q.tickets[u].rating);
      assert e in Pool(q', k) && !Mirrors(q', k, e);
    } else if u !in q.queued {
      forall k, e | e in Pool(q', k) ensures Mirrors(q', k, e) {
        OnlyOwnEntry(q, k, e);
      }
      assert forall v :: v in q'.queued ==> Listed(q, v) && v != u;
    }
  }

  // An enqueue: the new entry replaces the old one only in its own pool.
  lemma EnqueueAgreesAnywhere(q: Queue, t: Ticket)
    requires Agreeing(q)
    ensures Agreeing(Enqueue(q, t)) <==> (Listed(q, t.userId) ==> KeyOf(q.tickets[t.userId]) == KeyOf(t))
  {
    hide Enqueue, WellFormed, Mirrors, EntriesMirror;
    EnqueuedPools(q, t);
    var u, q' := t.userId, Enqueue(q, t);
    if Listed(q, u) && KeyOf(q.tickets[u]) != KeyOf(t) {
      StaleEntry(q, t);
    } else {
      EnqueuedMirrors(q, t);
    }
  }

  lemma EnqueuedPools(q: Queue, t: Ticket)
    requires Agreeing(q)
    ensures var q' := Enqueue(q, t);
            && Keyed(q') && q'.tickets == q.tickets[t.userId := t] && q'.queued == q.queued + {t.userId}
            && (forall j :: WellFormed(Pool(q', j)))
            && (forall j, e :: e in Pool(q', j) <==>
                  if j == KeyOf(t) && e.user == t.userId then e.score == t.rating else e in Pool(q, j))
  {
    var k, u, e0 := KeyOf(t), t.userId, Entry(t.userId, t.rating);
    var q' := Enqueue(q, t);
    ZRemMembers(Pool(q, k), u);
    ZInsertMembers(ZRem(Pool(q, k), u), e0);
    assert Pool(q', k) == ZAdd(Pool(q, k), e0);
    assert forall j :: j != k ==> Pool(q', j) == Pool(q, j);
    forall j ensures WellFormed(Pool(q', j)) {
      assert WellFormed(Pool(q, j));
    }
  }

  lemma StaleEntry(q: Queue, t: Ticket)
    requires Agreeing(q) && Listed(q, t.userId) && KeyOf(q.tickets[t.userId]) != KeyOf(t)
    ensures !EntriesMirror(Enqueue(q, t))
  {
    hide Enqueue, WellFormed;
    EnqueuedPools(q, t);
    var k, e := KeyOf(q.tickets[t.userId]), Entry(t.userId, q.tickets[t.userId].rating);
    assert e in Pool(Enqueue(q, t), k) && !Mirrors(Enqueue(q, t), k, e);
  }

  lemma EarlierEntry(q: Queue, t: Ticket, k: PoolKey, e: Entry)
    requires Agreeing(q) && e in Pool(Enqueue(q, t), k) && !(k == KeyOf(t) && e.user == t.userId)
    ensures e in Pool(q, k)
  {
    hide Enqueue, WellFormed, Pool;
    EnqueuedPools(q, t);
  }

  lemma EnqueuedMirrors(q: Queue, t: Ticket)
    requires Agreeing(q) && (Listed(q, t.userId) ==> KeyOf(q.tickets[t.userId]) == KeyOf(t))
    ensures EntriesMirror(Enqueue(q, t)) && forall v :: v in Enqueue(q, t).queued ==> Listed(Enqueue(q, t), v)
  {
    hide Enqueue, WellFormed;
    EnqueuedPools(q, t);
    var q' := Enqueue(q, t);
    forall k, e | e in Pool(q', k) ensures Mirrors(q', k, e) {
      if !(k == KeyOf(t) && e.user == t.userId) {
        EarlierEntry(q, t, k, e);
        OnlyOwnEntry(q, k, e);
      }
    }
    forall v | v in q'.queued ensures Listed(q', v) {
      if v == t.userId {
        assert Entry(v, t.rating) in Pool(q', KeyOf(t));
      } else {
        assert Listed(q, v);
      }
    }
  }

  // A leave's script, with the ticket that was read before it.
  lemma DequeueScriptAgreesExactly(q: Queue, u: UserId, t: Ticket)
    requires Agreeing(q)
    ensures var erased := Erase(q, u, Some(t));
            Agreeing(erased.(queued := erased.queued - {u})) <==> (Listed(q, u) ==> KeyOf(q.tickets[u]) == KeyOf(t))
  {
    hide EntriesMirror, WellFormed, ZRem;
    var unqueued := q.(queued := q.queued - {u});
    var erased := Erase(q, u, Some(t));
    Unqueued(q, q.queued - {u});
    RemoveEntryAgreesExactly(unqueued, KeyOf(t), u);
    var removed := Execute(unqueued, RemoveEntry(KeyOf(t), u));
    EntryRemoved(unqueued, KeyOf(t), u);
    DeleteTicketAgreesExactly(removed, u);
    assert erased.(queued := erased.queued - {u}) == Execute(removed, DeleteTicket(u));
  }

  lemma Unqueued(q: Queue, fewer: set<UserId>)
    requires Agreeing(q) && fewer <= q.queued
    ensures Agreeing(q.(queued := fewer)) && forall u :: Listed(q.(queued := fewer), u) <==> Listed(q, u)
  {
    hide WellFormed;
    var q' := q.(queued := fewer);
    assert forall k :: Pool(q', k) == Pool(q, k);
    assert forall k, e :: Mirrors(q, k, e) ==> Mirrors(q', k, e);
  }

  /** An enqueue keeps the structures consistent exactly when the user is not waiting in another pool. */
  lemma EnqueueAgreesExactly(q: Queue, t: Ticket)
    requires Consistent(q)
    ensures Consistent(Enqueue(q, t)) <==> (t.userId in q.tickets ==> KeyOf(q.tickets[t.userId]) == KeyOf(t))
  {
    hide Agreeing, Consistent;
    ConsistentExactly(q);
    ConsistentExactly(Enqueue(q, t));
    EnqueueAgreesAnywhere(q, t);
    EnqueueEffect(q, t);
    QueuedAreListed(q);
  }

  lemma QueuedAreListed(q: Queue)
    requires Consistent(q)
    ensures q.queued == q.tickets.Keys && forall u :: Listed(q, u) <==> u in q.tickets
  {
    ConsistentExactly(q);
  }

  /**
    A leave whose ticket was read earlier keeps the structures consistent exactly when a user who holds a
    ticket held one when it was read, in the same pool.
  */
  lemma DequeueAgreesExactly(q: Queue, u: UserId, read: Option<Ticket>)
    requires Consistent(q)
    ensures var q' := Erase(q, u, read);
            Consistent(q'.(queued := q'.queued - {u}))
            <==> (u in q.tickets ==> read.Some? && KeyOf(read.value) == KeyOf(q.tickets[u]))
  {
    hide Agreeing, Consistent, ZRem;
    ConsistentExactly(q);
    QueuedAreListed(q);
    var erased := Erase(q, u, read);
    var q' := erased.(queued := erased.queued - {u});
    ConsistentExactly(q');
    if read.Some? {
      DequeueScriptAgreesExactly(q, u, read.value);
    } else {
      Unqueued(q, q.queued - {u});
    }
  }

  /**
    The clean-up of a claimed user, whose ticket was read at some earlier moment, makes the structures
    consistent exactly when a user who holds a ticket either joined again after a reading that found none,
    or did not join again and was read in the pool where the ticket is.
  */
  lemma CleanUpAgreesExactly(q: Queue, u: UserId, read: Option<Ticket>)
    requires Agreeing(q) && q.tickets.Keys - {u} <= q.queued && (u in q.tickets ==> Listed(q, u))
    ensures Consistent(Erase(q, u, read)) <==>
              (u in q.tickets ==>
                 if u in q.queued then read.None? else read.Some? && KeyOf(read.value) == KeyOf(q.tickets[u]))
  {
    hide Agreeing, Consistent, ZRem;
    var q' := Erase(q, u, read);
    ConsistentExactly(q');
    if read.Some? {
      if u !in q.queued {
        assert q.queued - {u} == q.queued;
        assert q'.(queued := q'.queued - {u}) == q';
        DequeueScriptAgreesExactly(q, u, read.value);
      } else {
        TicketOfQueued(q, u);
        TicketOfQueued(q', u);
      }
    }
  }

  lemma TicketOfQueued(q: Queue, u: UserId)
    requires u in q.queued
    ensures Agreeing(q) ==> u in q.tickets
  {
  }

  // ── the invariant, step by step ──────────────────────────────────

  // The worker is going to delete the user's ticket, or to read it and then delete it.
  predicate WillDelete(activity: Activity, u: UserId) {
    match activity
    case Dequeuing(v, read) => v == u && read.Some?
    case ReadingA(a, b) => u == a.userId || u == b.userId
    case ReadingB(a, b, ta) => (u == a.userId && ta.Some?) || u == b.userId
    case Piping(commands) => DeleteTicket(u) in commands
    case _ => false
  }

  ghost predicate TendedBy(s: State, u: UserId, w: WorkerId) {
    w in s.workers && WillDelete(s.workers[w].activity, u)
  }

  // A ticket is a queued user's, or some worker is about to delete it.
  ghost predicate Accounted(s: State) {
    forall u :: u in s.queue.tickets && u !in s.queue.queued ==> exists w :: TendedBy(s, u, w)
  }

  ghost predicate Sound(s: State) {
    Agreeing(s.queue) && Accounted(s)
  }

  ghost predicate TendedByOther(s: State, u: UserId, w: WorkerId) {
    exists x :: x != w && TendedBy(s, u, x)
  }

  // What a step has to meet.  Only scripts and the commands of a pipeline can break anything.
  ghost predicate Guard(s: State, w: WorkerId, step: Step) {
    step == Continue ==>
      var q := s.queue;
      match WorkerOf(s, w).activity
      case Admitted(t) => Listed(q, t.userId) ==> KeyOf(q.tickets[t.userId]) == KeyOf(t)
      case Dequeuing(u, read) =>
        if read.Some? then (Listed(q, u) ==> KeyOf(q.tickets[u]) == KeyOf(read.value))
        else (u in q.tickets ==> TendedByOther(s, u, w))
      case Piping(commands) => commands != [] ==> Harmless(q, commands[0])
      case _ => true
  }

  // No command touches what a user who joined again has put there.
  predicate Harmless(q: Queue, c: Command) {
    match c
    case RemoveEntry(k, u) => !(u in q.queued && u in q.tickets && KeyOf(q.tickets[u]) == k)
    case DeleteTicket(u) => u !in q.queued && !Listed(q, u)
  }

  lemma StepAgreeing(s: State, w: WorkerId, step: Step)
    requires Sound(s)
    ensures Guard(s, w, step) ==> Agreeing(Do(s, w, step).queue)
    ensures Agreeing(Do(s, w, step).queue) ==>
              || Guard(s, w, step)
              || (step == Continue && WorkerOf(s, w).activity.Dequeuing? && WorkerOf(s, w).activity.read.None?)
  {
    hide Agreeing, Listed, Enqueue, Compatible, TendedByOther, ZRem;
    var q, me := s.queue, WorkerOf(s, w);
    if step == Continue {
      match me.activity
      case Admitted(t) => EnqueueAgreesAnywhere(q, t);
      case Dequeuing(u, read) =>
        if read.Some? { DequeueScriptAgreesExactly(q, u, read.value); } else { Unqueued(q, q.queued - {u}); }
      case Claiming(a, b) => Unqueued(q, q.queued - {a.userId, b.userId});
      case Piping(commands) => if commands != [] { CommandAgreesExactly(q, commands[0]); }
      case _ =>
    }
  }

  lemma CommandAgreesExactly(q: Queue, c: Command)
    requires Agreeing(q)
    ensures Agreeing(Execute(q, c)) <==> Harmless(q, c)
  {
    match c
    case RemoveEntry(k, u) => RemoveEntryAgreesExactly(q, k, u);
    case DeleteTicket(u) => DeleteTicketAgreesExactly(q, u);
  }

  // What a step does to tickets, queued users and the workers' intentions.
  lemma OthersWait(s: State, w: WorkerId, step: Step)
    ensures var s' := Do(s, w, step);
            forall x :: x != w ==>
              (x in s'.workers <==> x in s.workers) && (x in s.workers ==> s'.workers[x] == s.workers[x])
  {
    hide Proceed, Compatible;
  }

  // A ticket that w was tending is gone after the step, or is still tended by w.
  lemma TendsOn(s: State, w: WorkerId, step: Step, u: UserId)
    requires TendedBy(s, u, w) && u in Do(s, w, step).queue.tickets
    requires u !in Do(s, w, step).queue.queued
    ensures TendedBy(Do(s, w, step), u, w)
  {
    hide Compatible, Listed, ZRem, Pool, Enqueue;
    if step == Continue {
      match s.workers[w].activity
      case Piping(commands) =>
        if commands != [] { assert commands == [commands[0]] + commands[1..]; }
      case ReadingB(a, b, ta) =>
        var cs := Commands(a.userId, ta) + Commands(b.userId, GetTicket(s.queue, b.userId));
        assert ta.Some? ==> Commands(a.userId, ta)[1] == DeleteTicket(a.userId) && cs[1] == DeleteTicket(a.userId);
        if b.userId in s.queue.tickets {
          assert cs[|cs| - 1] == DeleteTicket(b.userId);
        }
      case _ =>
    }
  }

  // A ticket that becomes unqueued by the step is tended by w, unless w was leaving without having read one.
  lemma NewlyUnqueued(s: State, w: WorkerId, step: Step, u: UserId)
    requires u in Do(s, w, step).queue.tickets && u !in Do(s, w, step).queue.queued
    requires u !in s.queue.tickets || u in s.queue.queued
    ensures TendedBy(Do(s, w, step), u, w)
            || (step == Continue && WorkerOf(s, w).activity == Dequeuing(u, None))
  {
    hide Compatible, Listed, ZRem, Pool, ZAdd;
  }

  lemma StepAccounted(s: State, w: WorkerId, step: Step)
    requires Accounted(s) && Guard(s, w, step)
    ensures Accounted(Do(s, w, step))
  {
    hide Do, Listed, Compatible;
    var s' := Do(s, w, step);
    OthersWait(s, w, step);
    forall u | u in s'.queue.tickets && u !in s'.queue.queued ensures exists x :: TendedBy(s', u, x) {
      if u in s.queue.tickets && u !in s.queue.queued {
        var x :| TendedBy(s, u, x);
        if x == w { TendsOn(s, w, step, u); }
        assert TendedBy(s', u, x);
      } else {
        NewlyUnqueued(s, w, step, u);
        if !TendedBy(s', u, w) {
          LeavingUnread(s, w, u);
          var x :| x != w && TendedBy(s, u, x);
          assert TendedBy(s', u, x);
        }
      }
    }
  }

  lemma LeavingUnread(s: State, w: WorkerId, u: UserId)
    requires WorkerOf(s, w).activity == Dequeuing(u, None) && u in Do(s, w, Continue).queue.tickets
    ensures u in s.queue.tickets && !TendedBy(Do(s, w, Continue), u, w)
    ensures u !in Do(s, w, Continue).queue.queued
    ensures Guard(s, w, Continue) <==> TendedByOther(s, u, w)
  {
    assert Do(s, w, Continue).queue.tickets == s.queue.tickets;
  }

  lemma LeavingUnreadKeepsTickets(s: State, w: WorkerId, u: UserId)
    requires WorkerOf(s, w).activity == Dequeuing(u, None)
    ensures Do(s, w, Continue).queue.tickets == s.queue.tickets
  {
  }

  // A leave that read no ticket while one is there now, and that nobody else is about to delete.
  lemma UnreadTicketStays(s: State, w: WorkerId, u: UserId)
    requires WorkerOf(s, w).activity == Dequeuing(u, None) && u in s.queue.tickets && !TendedByOther(s, u, w)
    ensures !Accounted(Do(s, w, Continue))
  {
    hide Do, Guard;
    var s' := Do(s, w, Continue);
    LeavingUnreadKeepsTickets(s, w, u);
    LeavingUnread(s, w, u);
    OthersWait(s, w, Continue);
    assert forall x :: x != w ==> (TendedBy(s', u, x) <==> TendedBy(s, u, x));
  }

  /** Exact, step by step: from a sound state a step leads to a sound state if and only if it meets its guard. */
  lemma StepIsSoundExactly(s: State, w: WorkerId, step: Step)
    requires Sound(s)
    ensures Sound(Do(s, w, step)) <==> Guard(s, w, step)
  {
    hide Do, Agreeing, Accounted, Listed;
    StepAgreeing(s, w, step);
    if Guard(s, w, step) {
      StepAccounted(s, w, step);
    } else if Agreeing(Do(s, w, step).queue) {
      UnreadTicketStays(s, w, WorkerOf(s, w).activity.user);
    }
  }

  ghost predicate GuardsMet(s: State, schedule: seq<(WorkerId, Step)>)
    decreases |schedule|
  {
    schedule != [] ==>
      var (w, step) := schedule[0]; Guard(s, w, step) && GuardsMet(Do(s, w, step), schedule[1..])
  }

  ghost predicate SoundThroughout(s: State, schedule: seq<(WorkerId, Step)>)
    decreases |schedule|
  {
    Sound(s) && (schedule != [] ==> SoundThroughout(Do(s, schedule[0].0, schedule[0].1), schedule[1..]))
  }

  ghost predicate AtRest(s: State) {
    forall w :: w in s.workers ==> s.workers[w].activity == Ready
  }

  lemma {:induction false} SoundExactly(s: State, schedule: seq<(WorkerId, Step)>)
    requires Sound(s)
    ensures SoundThroughout(s, schedule) <==> GuardsMet(s, schedule)
    ensures GuardsMet(s, schedule) ==> Sound(Run(s, schedule))
    decreases |schedule|
  {
    hide Do, Sound, Guard;
    if schedule != [] {
      var (w, step) := schedule[0];
      StepIsSoundExactly(s, w, step);
      StartsSound(Do(s, w, step), schedule[1..]);
      if Guard(s, w, step) { SoundExactly(Do(s, w, step), schedule[1..]); }
    }
  }

  lemma StartsSound(s: State, schedule: seq<(WorkerId, Step)>)
    ensures SoundThroughout(s, schedule) ==> Sound(s)
  {
  }

  lemma RestIsConsistent(s: State)
    requires Sound(s) && AtRest(s)
    ensures Consistent(s.queue)
  {
    hide Agreeing, Consistent;
    ConsistentExactly(s.queue);
    assert forall u, w :: !TendedBy(s, u, w);
  }

  /**
    On every schedule of any number of workers, the structures stay sound to the end if and only if every
    step meets its guard; and then they are consistent whenever all workers are done.
  */
  lemma AgreementLastsExactly(schedule: seq<(WorkerId, Step)>)
    ensures SoundThroughout(Nobody, schedule) <==> GuardsMet(Nobody, schedule)
    ensures GuardsMet(Nobody, schedule) && AtRest(Run(Nobody, schedule)) ==> Consistent(Run(Nobody, schedule).queue)
  {
    hide Run, GuardsMet, SoundThroughout, Consistent;
    NobodyIsSound();
    SoundExactly(Nobody, schedule);
    if GuardsMet(Nobody, schedule) && AtRest(Run(Nobody, schedule)) {
      RestIsConsistent(Run(Nobody, schedule));
    }
  }

  lemma NobodyIsSound()
    ensures Sound(Nobody)
  {
  }

  // ── two schedules after which the structures disagree for good ───

  predicate MayJoin(t: Ticket) {
    !(Truthy(t.friendId) && t.friendId.value == t.userId)
  }

  function Joins(w: WorkerId, t: Ticket): seq<(WorkerId, Step)> {
    [(w, AskToJoin(t)), (w, Continue)]
  }

  function ReadsBoth(w: WorkerId, a: Ticket, b: Ticket): seq<(WorkerId, Step)> {
    [(w, ReadTicket(a.userId)), (w, ReadTicket(b.userId))]
  }

  function Claims(w: WorkerId, a: Ticket, b: Ticket): seq<(WorkerId, Step)> {
    [(w, BeginClaim(a, b)), (w, Continue)]
  }

  function Twice(w: WorkerId): seq<(WorkerId, Step)> {
    [(w, Continue), (w, Continue)]
  }

  lemma RunPair(s: State, first: (WorkerId, Step), second: (WorkerId, Step), rest: seq<(WorkerId, Step)>)
    ensures Run(s, [first, second] + rest) == Run(Do(Do(s, first.0, first.1), second.0, second.1), rest)
  {
    hide Do;
    var schedule := [first, second] + rest;
    assert schedule[1..] == [second] + rest && schedule[1..][1..] == rest;
  }

  lemma JoinMoves(s: State, w: WorkerId, t: Ticket, rest: seq<(WorkerId, Step)>) returns (s': State)
    requires WorkerOf(s, w).activity == Ready && t.userId !in s.queue.queued && MayJoin(t)
    ensures Run(s, Joins(w, t) + rest) == Run(s', rest)
    ensures s'.queue == Enqueue(s.queue, t)
    ensures s'.workers == s.workers[w := Worker(WorkerOf(s, w).known + {t}, Ready)]
  {
    hide Run, Enqueue;
    RunPair(s, (w, AskToJoin(t)), (w, Continue), rest);
    s' := Do(Do(s, w, AskToJoin(t)), w, Continue);
    assert WorkerOf(Do(s, w, AskToJoin(t)), w).activity == Admitted(t);
  }

  lemma ReadMoves(s: State, w: WorkerId, t: Ticket)
    requires WorkerOf(s, w).activity == Ready && t.userId in s.queue.tickets && s.queue.tickets[t.userId] == t
    ensures Do(s, w, ReadTicket(t.userId)) == s.(workers := s.workers[w := Worker(WorkerOf(s, w).known + {t}, Ready)])
  {
  }

  lemma ReadsMove(s: State, w: WorkerId, a: Ticket, b: Ticket, rest: seq<(WorkerId, Step)>) returns (s': State)
    requires WorkerOf(s, w).activity == Ready
    requires a.userId in s.queue.tickets && s.queue.tickets[a.userId] == a
    requires b.userId in s.queue.tickets && s.queue.tickets[b.userId] == b
    ensures Run(s, ReadsBoth(w, a, b) + rest) == Run(s', rest)
    ensures s'.queue == s.queue
    ensures s'.workers == s.workers[w := Worker(WorkerOf(s, w).known + {a, b}, Ready)]
  {
    hide Run, Do;
    RunPair(s, (w, ReadTicket(a.userId)), (w, ReadTicket(b.userId)), rest);
    ReadMoves(s, w, a);
    ReadMoves(Do(s, w, ReadTicket(a.userId)), w, b);
    assert WorkerOf(s, w).known + {a} + {b} == WorkerOf(s, w).known + {a, b};
    s' := Do(Do(s, w, ReadTicket(a.userId)), w, ReadTicket(b.userId));
  }

  lemma ClaimMoves(s: State, w: WorkerId, a: Ticket, b: Ticket, rest: seq<(WorkerId, Step)>) returns (s': State)
    requires WorkerOf(s, w).activity == Ready && a in WorkerOf(s, w).known && b in WorkerOf(s, w).known
    requires a.userId != b.userId && Compatible(a, b) && a.userId in s.queue.queued && b.userId in s.queue.queued
    ensures Run(s, Claims(w, a, b) + rest) == Run(s', rest)
    ensures s'.queue == s.queue.(queued := s.queue.queued - {a.userId, b.userId})
    ensures s'.workers == s.workers[w := Worker(WorkerOf(s, w).known, ReadingA(a, b))]
  {
    hide Run, Compatible;
    RunPair(s, (w, BeginClaim(a, b)), (w, Continue), rest);
    s' := Do(Do(s, w, BeginClaim(a, b)), w, Continue);
    assert WorkerOf(Do(s, w, BeginClaim(a, b)), w).activity == Claiming(a, b);
    assert WorkerOf(s, w).known + {} == WorkerOf(s, w).known;
  }

  lemma CleanUpReads(s: State, w: WorkerId, a: Ticket, b: Ticket, rest: seq<(WorkerId, Step)>) returns (s': State)
    requires WorkerOf(s, w).activity == ReadingA(a, b)
    requires a.userId in s.queue.tickets && b.userId in s.queue.tickets
    ensures Run(s, Twice(w) + rest) == Run(s', rest)
    ensures s'.queue == s.queue
    ensures var next := Piping(Commands(a.userId, Some(s.queue.tickets[a.userId]))
                               + Commands(b.userId, Some(s.queue.tickets[b.userId])));
            s'.workers == s.workers[w := Worker(WorkerOf(s, w).known, next)]
  {
    hide Run;
    RunPair(s, (w, Continue), (w, Continue), rest);
    s' := Do(Do(s, w, Continue), w, Continue);
    assert WorkerOf(s, w).known + {} == WorkerOf(s, w).known;
    assert WorkerOf(Do(s, w, Continue), w).activity == ReadingB(a, b, Some(s.queue.tickets[a.userId]));
  }

  // Two commands of a pipeline: one user's entry and ticket.
  lemma CleanUpErases(s: State, w: WorkerId, u: UserId, t: Ticket, more: seq<Command>, rest: seq<(WorkerId, Step)>)
    returns (s': State)
    requires WorkerOf(s, w).activity == Piping(Commands(u, Some(t)) + more)
    ensures Run(s, Twice(w) + rest) == Run(s', rest)
    ensures s'.queue == Erase(s.queue, u, Some(t))
    ensures s'.workers == s.workers[w := Worker(WorkerOf(s, w).known, StillPiping(more))]
  {
    hide Run, ZRem, Pool;
    RunPair(s, (w, Continue), (w, Continue), rest);
    var commands := Commands(u, Some(t)) + more;
    assert commands[1..] == [DeleteTicket(u)] + more && commands[1..][1..] == more;
    assert WorkerOf(s, w).known + {} == WorkerOf(s, w).known;
    var s1 := Do(s, w, Continue);
    assert WorkerOf(s1, w).activity == Piping(commands[1..]);
    s' := Do(s1, w, Continue);
  }

  // Worker 2 claims the two who have joined; the first joins again before worker 2 has cleaned up.
  function Rejoin(a: Ticket, b: Ticket, again: Ticket): seq<(WorkerId, Step)> {
    Joins(0, a) + (Joins(1, b) + (ReadsBoth(2, a, b) + (Claims(2, a, b)
    + (Joins(0, again) + (Twice(2) + (Twice(2) + (Twice(2) + [])))))))
  }

  lemma RunNone(s: State)
    ensures Run(s, []) == s
  {
  }

  /**
    The structures can drift for good, for any two compatible tickets: on this schedule every worker has
    finished, yet the first player is marked as queued and holds no ticket, so that player can neither
    join nor be found by a sweep.
  */
  lemma StructuresCanDrift(a: Ticket, b: Ticket, again: Ticket)
    requires a.userId != b.userId && Compatible(a, b) && again.userId == a.userId
    requires MayJoin(a) && MayJoin(b) && MayJoin(again)
    ensures var r := Run(Nobody, Rejoin(a, b, again));
            && AtRest(r)
            && a.userId in r.queue.queued && a.userId !in r.queue.tickets
            && !Consistent(r.queue)
  {
    hide Run, Do, Compatible, MayJoin, ZAdd, ZRem, Pool;
    var cleanA, cleanB := Twice(2) + (Twice(2) + []), Twice(2) + [];
    var clean := Twice(2) + cleanA;
    var claim := Claims(2, a, b) + (Joins(0, again) + clean);
    var s1 := JoinMoves(Nobody, 0, a, Joins(1, b) + (ReadsBoth(2, a, b) + claim));
    var s2 := JoinMoves(s1, 1, b, ReadsBoth(2, a, b) + claim);
    var s3 := ReadsMove(s2, 2, a, b, claim);
    var s4 := ClaimMoves(s3, 2, a, b, Joins(0, again) + clean);
    var s5 := JoinMoves(s4, 0, again, clean);
    var s6 := CleanUpReads(s5, 2, a, b, cleanA);
    var s7 := CleanUpErases(s6, 2, a.userId, again, Commands(b.userId, Some(b)), cleanB);
    assert Commands(b.userId, Some(b)) + [] == Commands(b.userId, Some(b));
    var s8 := CleanUpErases(s7, 2, b.userId, b, [], []);
    RunNone(s8);
  }

  // Worker 0 begins to leave and reads no ticket; then worker 1 joins for the same user; then worker 0 goes on.
  function LeaveDuringJoin(t: Ticket): seq<(WorkerId, Step)> {
    [(0, BeginDequeue(t.userId)), (1, AskToJoin(t))] + ([(1, Continue), (0, Continue)] + [])
  }

  /** No claim is needed: a leave that races a join leaves a player in the pool who can never be claimed. */
  lemma LeaveDuringJoinStrands(t: Ticket)
    requires MayJoin(t)
    ensures var r := Run(Nobody, LeaveDuringJoin(t));
            && AtRest(r)
            && t.userId in r.queue.tickets && Listed(r.queue, t.userId) && t.userId !in r.queue.queued
            && !Consistent(r.queue)
  {
    hide Run;
    RunPair(Nobody, (0, BeginDequeue(t.userId)), (1, AskToJoin(t)), [(1, Continue), (0, Continue)] + []);
    var s := Do(Do(Nobody, 0, BeginDequeue(t.userId)), 1, AskToJoin(t));
    assert WorkerOf(s, 0).activity == Dequeuing(t.userId, None) && WorkerOf(s, 1).activity == Admitted(t);
    RunPair(s, (1, Continue), (0, Continue), []);
    var r := Do(Do(s, 1, Continue), 0, Continue);
    assert Pool(r.queue, KeyOf(t)) == [Entry(t.userId, t.rating)];
    RunNone(r);
  }
}
