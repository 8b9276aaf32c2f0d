/**
  The matchmaking service: admission, cancellation, friend matches and the
  pairing sweep.  A sweep visits the waiting tickets of one pool, oldest first,
  and pairs each with the nearest compatible opponent inside a rating window
  that widens with waiting time.  One sweep uses one reading of the clock.
*/
module Matchmaking {
  import opened Wrappers
  import opened Queue
  import StableSort

  const BASE_WINDOW := 50.0
  const WINDOW_GROWTH_PER_SEC := 15.0
  const MAX_WINDOW := 600.0
  const TIMEOUT_SECONDS := 120

  datatype JoinError = RateLimited | AlreadyQueued | InvalidQueue

  datatype Match = Match(seeker: Ticket, opponent: Ticket)

  predicate Truthy(o: Option<string>) {
    o.Some? && o.value != ""
  }

  predicate TimedOut(t: Ticket, now: int) {
    now - t.enqueuedAt > TIMEOUT_SECONDS * 1000
  }

  function Window(t: Ticket, now: int): real {
    var waitedSec := (now - t.enqueuedAt) as real / 1000.0;
    var grown := BASE_WINDOW + waitedSec * WINDOW_GROWTH_PER_SEC;
    var multiplier := if t.skill == Similar then 0.5 else 1.0;
    if grown * multiplier < MAX_WINDOW then grown * multiplier else MAX_WINDOW
  }

  predicate Compatible(a: Ticket, b: Ticket) {
    if a.mode != b.mode || a.region != b.region then false
    else if Truthy(a.friendId) && a.friendId.value != b.userId then false
    else if Truthy(b.friendId) && b.friendId.value != a.userId then false
    else if Truthy(a.privateCode) || Truthy(b.privateCode) then a.privateCode == b.privateCode
    else true
  }

  predicate WithinReach(seeker: Ticket, other: Ticket, now: int) {
    Gap(other.rating, seeker.rating) as real <= Window(seeker, now)
  }

  predicate OlderFirst(a: Ticket, b: Ticket) {
    a.enqueuedAt < b.enqueuedAt
  }

  function FirstCompatible(t: Ticket, candidates: seq<Ticket>, paired: set<UserId>): Option<Ticket> {
    if candidates == [] then None
    else if candidates[0].userId !in paired && Compatible(t, candidates[0]) then Some(candidates[0])
    else FirstCompatible(t, candidates[1..], paired)
  }

  // ── one sweep, on a snapshot ─────────────────────────────────────

  datatype Outcome = AlreadyPaired | Evicted | NoOpponent | ClaimLost | Paired(opponent: Ticket)

  datatype Swept = Swept(queue: Queue, matches: seq<Match>, evicted: seq<UserId>)

  function Visit(q: Queue, k: PoolKey, t: Ticket, paired: set<UserId>, now: int): Outcome {
    if t.userId in paired then AlreadyPaired
    else if TimedOut(t, now) then Evicted
    else
      match FirstCompatible(t, Candidates(q, k, t.rating, Window(t, now), t.userId), paired)
      case None => NoOpponent
      case Some(c) => if ClaimPair(q, t.userId, c.userId).1 then Paired(c) else ClaimLost
  }

  function QueueAfter(q: Queue, t: Ticket, o: Outcome): Queue {
    match o
    case Evicted => Dequeue(q, t.userId)
    case Paired(c) => ClaimPair(q, t.userId, c.userId).0
    case _ => q
  }

  function PairedAfter(paired: set<UserId>, t: Ticket, o: Outcome): set<UserId> {
    if o.Paired? then paired + {t.userId, o.opponent.userId} else paired
  }

  function MatchOf(t: Ticket, o: Outcome): seq<Match> {
    if o.Paired? then [Match(t, o.opponent)] else []
  }

  function EvictionOf(t: Ticket, o: Outcome): seq<UserId> {
    if o.Evicted? then [t.userId] else []
  }

  function SweepFrom(q: Queue, k: PoolKey, todo: seq<Ticket>, paired: set<UserId>, now: int): Swept
    decreases |todo|
  {
    if todo == [] then Swept(q, [], [])
    else
      var t := todo[0];
      var o := Visit(q, k, t, paired, now);
      var rest := SweepFrom(QueueAfter(q, t, o), k, todo[1..], PairedAfter(paired, t, o), now);
      Swept(rest.queue, MatchOf(t, o) + rest.matches, EvictionOf(t, o) + rest.evicted)
  }

  lemma Unroll(q: Queue, k: PoolKey, todo: seq<Ticket>, paired: set<UserId>, now: int)
    ensures SweepFrom(q, k, todo, paired, now)
            == if todo == [] then Swept(q, [], []) else
                 var t := todo[0];
                 var o := Visit(q, k, t, paired, now);
                 var rest := SweepFrom(QueueAfter(q, t, o), k, todo[1..], PairedAfter(paired, t, o), now);
                 Swept(rest.queue, MatchOf(t, o) + rest.matches, EvictionOf(t, o) + rest.evicted)
  {
  }

  function Agenda(q: Queue, k: PoolKey): seq<Ticket> {
    StableSort.Sort(PoolTickets(q, k), OlderFirst)
  }

  function SweepPool(q: Queue, k: PoolKey, now: int): Swept {
    SweepFrom(q, k, Agenda(q, k), {}, now)
  }

  // ── the window ───────────────────────────────────────────────────

  /** Waiting never narrows the window, and the moment it is fully open is known exactly. */
  lemma WindowWidens(t: Ticket, earlier: int, later: int)
    requires earlier <= later
    ensures Window(t, earlier) <= Window(t, later) <= MAX_WINDOW
    ensures Window(t, later) == MAX_WINDOW <==>
              3 * (later - t.enqueuedAt) >= if t.skill == Similar then 230_000 else 110_000
  {
    var w0, w1 := (earlier - t.enqueuedAt) as real / 1000.0, (later - t.enqueuedAt) as real / 1000.0;
    assert w0 <= w1;
    assert w1 * 1000.0 == (later - t.enqueuedAt) as real;
  }

  lemma CompatibleIsSymmetric(a: Ticket, b: Ticket)
    ensures Compatible(a, b) <==> Compatible(b, a)
  {
  }

  // ── the sweep invariant ──────────────────────────────────────────

  // t has been visited: it has not timed out and nobody still waiting is within its reach.
  ghost predicate Settled(q: Queue, k: PoolKey, t: Ticket, now: int) {
    && !TimedOut(t, now)
    && forall c :: WaitsIn(q, k, c) && c.userId != t.userId && Compatible(t, c) ==> !WithinReach(t, c, now)
  }

  ghost predicate Sweeping(q: Queue, k: PoolKey, todo: seq<Ticket>, paired: set<UserId>, now: int) {
    && Consistent(q)
    && paired !! q.queued
    && (forall t :: t in todo ==> t.userId in paired || WaitsIn(q, k, t))
    && (forall t :: WaitsIn(q, k, t) ==> t in todo || Settled(q, k, t, now))
    && DistinctUsers(todo)
    && OldestFirst(todo)
  }

  ghost predicate OldestFirst(ts: seq<Ticket>) {
    forall i, j :: 0 <= i < j < |ts| ==> ts[i].enqueuedAt <= ts[j].enqueuedAt
  }

  // later holds no ticket that earlier did not.
  ghost predicate Shrunk(earlier: Queue, later: Queue, k: PoolKey) {
    forall t :: WaitsIn(later, k, t) ==> WaitsIn(earlier, k, t)
  }

  lemma SettledStays(q: Queue, q': Queue, k: PoolKey, now: int)
    requires Shrunk(q, q', k)
    ensures forall t :: Settled(q, k, t, now) ==> Settled(q', k, t, now)
  {
  }

  ghost predicate NearestFirst(t: Ticket, cs: seq<Ticket>) {
    forall i, j :: 0 <= i < j < |cs| ==> Gap(cs[i].rating, t.rating) <= Gap(cs[j].rating, t.rating)
  }

  lemma NearestFirstSplits(t: Ticket, cs: seq<Ticket>)
    requires NearestFirst(t, cs) && cs != []
    ensures NearestFirst(t, cs[1..])
    ensures forall c :: c in cs <==> c == cs[0] || c in cs[1..]
    ensures forall c :: c in cs[1..] ==> Gap(cs[0].rating, t.rating) <= Gap(c.rating, t.rating)
  {
    hide Gap;
    var rest := cs[1..];
    assert cs == [cs[0]] + rest;
    forall c | c in rest ensures Gap(cs[0].rating, t.rating) <= Gap(c.rating, t.rating) {
      var j :| 0 <= j < |rest| && rest[j] == c;
      assert cs[j + 1] == c;
    }
  }

  lemma {:induction false} FirstCompatibleIs(t: Ticket, cs: seq<Ticket>, paired: set<UserId>)
    requires NearestFirst(t, cs)
    ensures FirstCompatible(t, cs, paired).None? ==> forall c :: c in cs ==> c.userId in paired || !Compatible(t, c)
    ensures FirstCompatible(t, cs, paired).Some? ==>
              var o := FirstCompatible(t, cs, paired).value;
              && o in cs && o.userId !in paired && Compatible(t, o)
              && forall c :: c in cs && c.userId !in paired && Compatible(t, c) ==>
                   Gap(o.rating, t.rating) <= Gap(c.rating, t.rating)
  {
    hide Compatible, Gap, NearestFirst;
    if cs != [] {
      NearestFirstSplits(t, cs);
      FirstCompatibleIs(t, cs[1..], paired);
    }
  }

  // The opponent t would take: nobody compatible within reach is nearer.
  ghost predicate Nearest(q: Queue, k: PoolKey, t: Ticket, o: Ticket, now: int) {
    && WaitsIn(q, k, o) && o.userId != t.userId && Compatible(t, o) && WithinReach(t, o, now)
    && forall c :: WaitsIn(q, k, c) && c.userId != t.userId && Compatible(t, c) && WithinReach(t, c, now)
         ==> Gap(o.rating, t.rating) <= Gap(c.rating, t.rating)
  }

  lemma SeekFinds(q: Queue, k: PoolKey, t: Ticket, paired: set<UserId>, now: int)
    requires Consistent(q) && paired !! q.queued && !TimedOut(t, now)
    ensures var r := FirstCompatible(t, Candidates(q, k, t.rating, Window(t, now), t.userId), paired);
            (r.None? ==> Settled(q, k, t, now)) && (r.Some? ==> Nearest(q, k, t, r.value, now))
  {
    hide PoolsAgree, Candidates, FirstCompatible, Compatible, Window, Gap;
    var cs := Candidates(q, k, t.rating, Window(t, now), t.userId);
    CandidatesAre(q, k, t.rating, Window(t, now), t.userId);
    FirstCompatibleIs(t, cs, paired);
  }

  // What one visit decides, in terms of who waits.
  lemma VisitDecides(q: Queue, k: PoolKey, t: Ticket, paired: set<UserId>, now: int)
    requires Consistent(q) && paired !! q.queued
    requires t.userId in paired || WaitsIn(q, k, t)
    ensures var o := Visit(q, k, t, paired, now);
            && !o.ClaimLost?
            && (o.AlreadyPaired? <==> t.userId in paired)
            && (o.Evicted? <==> t.userId !in paired && TimedOut(t, now))
            && (o.NoOpponent? ==> Settled(q, k, t, now))
            && (o.Paired? ==> !TimedOut(t, now) && Nearest(q, k, t, o.opponent, now)
                              && ClaimPair(q, t.userId, o.opponent.userId).1)
  {
    hide PoolsAgree, Candidates, FirstCompatible, Compatible, Window, ClaimPair, Settled;
    if t.userId !in paired && !TimedOut(t, now) {
      SeekFinds(q, k, t, paired, now);
      var r := FirstCompatible(t, Candidates(q, k, t.rating, Window(t, now), t.userId), paired);
      if r.Some? {
        ClaimRemovesBoth(q, t.userId, r.value.userId);
      }
    }
  }

  // The users one visit removes.
  ghost function Gone(t: Ticket, o: Outcome): set<UserId> {
    match o
    case Evicted => {t.userId}
    case Paired(c) => {t.userId, c.userId}
    case _ => {}
  }

  lemma VisitRemoves(q: Queue, k: PoolKey, t: Ticket, paired: set<UserId>, now: int)
    requires Consistent(q) && paired !! q.queued
    requires t.userId in paired || WaitsIn(q, k, t)
    ensures var o := Visit(q, k, t, paired, now); var q' := QueueAfter(q, t, o);
            && Consistent(q')
            && q'.tickets == q.tickets - Gone(t, o)
            && |q'.tickets| + |EvictionOf(t, o)| + 2 * |MatchOf(t, o)| == |q.tickets|
  {
    hide PoolsAgree, Visit, Dequeue, ClaimPair, Compatible, Window;
    var o := Visit(q, k, t, paired, now);
    VisitDecides(q, k, t, paired, now);
    assert q.tickets - {} == q.tickets;
    match o {
      case Evicted =>
        DequeueRemoves(q, t.userId);
        DequeueCounts(q, t.userId);
      case Paired(c) =>
        ClaimRemovesBoth(q, t.userId, c.userId);
      case _ =>
    }
  }

  // Who waits after the visit: everyone who waited before, except the users it removed.
  lemma VisitLeaves(q: Queue, k: PoolKey, t: Ticket, paired: set<UserId>, now: int)
    requires Consistent(q) && paired !! q.queued
    requires t.userId in paired || WaitsIn(q, k, t)
    ensures var o := Visit(q, k, t, paired, now); var q' := QueueAfter(q, t, o);
            && Consistent(q')
            && PairedAfter(paired, t, o) !! q'.queued
            && (forall x :: WaitsIn(q', k, x) <==> WaitsIn(q, k, x) && x.userId !in Gone(t, o))
  {
    hide PoolsAgree, Visit, QueueAfter, Compatible, Window, Nearest, Settled, WithinReach, TimedOut, KeyOf;
    VisitDecides(q, k, t, paired, now);
    VisitRemoves(q, k, t, paired, now);
    var o := Visit(q, k, t, paired, now);
    assert PairedAfter(paired, t, o) <= paired + Gone(t, o);
  }

  lemma TailOf(todo: seq<Ticket>)
    requires todo != [] && DistinctUsers(todo) && OldestFirst(todo)
    ensures DistinctUsers(todo[1..]) && OldestFirst(todo[1..])
    ensures forall x :: x in todo <==> x == todo[0] || x in todo[1..]
    ensures forall x :: x in todo[1..] ==> x.userId != todo[0].userId && todo[0].enqueuedAt <= x.enqueuedAt
  {
    var rest := todo[1..];
    assert todo == [todo[0]] + rest;
    forall x | x in rest ensures x.userId != todo[0].userId && todo[0].enqueuedAt <= x.enqueuedAt {
      var i :| 0 <= i < |rest| && rest[i] == x;
      assert todo[i + 1] == x;
    }
  }

  lemma SweepingContinues(q: Queue, k: PoolKey, todo: seq<Ticket>, paired: set<UserId>, now: int)
    requires Sweeping(q, k, todo, paired, now) && todo != []
    ensures var t := todo[0]; var o := Visit(q, k, t, paired, now);
            Sweeping(QueueAfter(q, t, o), k, todo[1..], PairedAfter(paired, t, o), now)
  {
    hide PoolsAgree, Visit, QueueAfter, Compatible, Window, Settled, DistinctUsers, OldestFirst, Nearest;
    var t := todo[0];
    assert t in todo;
    var o := Visit(q, k, t, paired, now);
    var q' := QueueAfter(q, t, o);
    VisitDecides(q, k, t, paired, now);
    VisitLeaves(q, k, t, paired, now);
    SettledStays(q, q', k, now);
    TailOf(todo);
  }

  lemma SweepBegins(q: Queue, k: PoolKey, now: int)
    requires Consistent(q)
    ensures Sweeping(q, k, Agenda(q, k), {}, now)
  {
    hide PoolsAgree, Settled;
    var listed := PoolTickets(q, k);
    PoolTicketsAre(q, k);
    StableSort.SortKeeps(listed, OlderFirst);
    StableSort.SortSorts(listed, OlderFirst);
    SortDistinct(listed);
    var agenda := Agenda(q, k);
    forall i, j | 0 <= i < j < |agenda| ensures agenda[i].enqueuedAt <= agenda[j].enqueuedAt {
      assert !OlderFirst(agenda[j], agenda[i]);
    }
  }

  lemma {:induction false} InsertDistinct(t: Ticket, ts: seq<Ticket>)
    requires DistinctUsers(ts) && forall x :: x in ts ==> x.userId != t.userId
    ensures DistinctUsers(StableSort.Insert(t, ts, OlderFirst))
  {
    if ts != [] && OlderFirst(ts[0], t) {
      var rest := ts[1..];
      assert ts == [ts[0]] + rest;
      InsertDistinct(t, rest);
      StableSort.InsertKeeps(t, rest, OlderFirst);
      var r := StableSort.Insert(t, rest, OlderFirst);
      forall i | 0 <= i < |r| ensures r[i].userId != ts[0].userId {
        assert r[i] in multiset(r);
        if r[i] in rest {
          var j :| 0 <= j < |rest| && rest[j] == r[i];
          assert ts[j + 1] == r[i];
        }
      }
    }
  }

  lemma {:induction false} SortDistinct(ts: seq<Ticket>)
    requires DistinctUsers(ts)
    ensures DistinctUsers(StableSort.Sort(ts, OlderFirst))
  {
    if ts != [] {
      var rest := ts[1..];
      assert ts == [ts[0]] + rest;
      SortDistinct(rest);
      StableSort.SortKeeps(rest, OlderFirst);
      forall x | x in StableSort.Sort(rest, OlderFirst) ensures x.userId != ts[0].userId {
        var j :| 0 <= j < |rest| && rest[j] == x;
        assert ts[j + 1] == x;
      }
      InsertDistinct(ts[0], StableSort.Sort(rest, OlderFirst));
    }
  }

  lemma {:induction false} SweepFromSettles(q: Queue, k: PoolKey, todo: seq<Ticket>, paired: set<UserId>, now: int)
    requires Sweeping(q, k, todo, paired, now)
    ensures var r := SweepFrom(q, k, todo, paired, now);
            Consistent(r.queue) && forall t :: WaitsIn(r.queue, k, t) ==> Settled(r.queue, k, t, now)
    decreases |todo|
  {
    if todo != [] {
      var o := Visit(q, k, todo[0], paired, now);
      SweepingContinues(q, k, todo, paired, now);
      SweepFromSettles(QueueAfter(q, todo[0], o), k, todo[1..], PairedAfter(paired, todo[0], o), now);
    }
  }

  // ── what a sweep achieves ────────────────────────────────────────

  /**
    Greedy matching is maximal: no two tickets left over could still be paired from either side, and none has timed
    out.
  */
  lemma SweepIsMaximal(q: Queue, k: PoolKey, now: int)
    requires Consistent(q)
    ensures var left := SweepPool(q, k, now).queue;
            && Consistent(left)
            && (forall t :: WaitsIn(left, k, t) ==> !TimedOut(t, now))
            && forall t, u :: WaitsIn(left, k, t) && WaitsIn(left, k, u) && t.userId != u.userId && Compatible(t, u)
                 ==> !WithinReach(t, u, now) && !WithinReach(u, t, now)
  {
    SweepBegins(q, k, now);
    SweepFromSettles(q, k, Agenda(q, k), {}, now);
    forall t, u { CompatibleIsSymmetric(t, u); }
  }

  ghost predicate InMatch(m: Match, u: UserId) {
    m.seeker.userId == u || m.opponent.userId == u
  }

  // c was still unclaimed when the i-th match was made.
  ghost predicate Unpaired(q: Queue, k: PoolKey, matches: seq<Match>, i: nat, c: Ticket, now: int)
    requires i <= |matches|
  {
    WaitsIn(q, k, c) && !TimedOut(c, now) && forall j :: 0 <= j < i ==> !InMatch(matches[j], c.userId)
  }

  ghost predicate FairMatch(q: Queue, k: PoolKey, matches: seq<Match>, i: nat, now: int)
    requires i < |matches|
  {
    var m := matches[i];
    && Unpaired(q, k, matches, i, m.seeker, now) && Unpaired(q, k, matches, i, m.opponent, now)
    && m.seeker.userId != m.opponent.userId
    && Compatible(m.seeker, m.opponent) && WithinReach(m.seeker, m.opponent, now)
    && forall c :: Unpaired(q, k, matches, i, c, now) && c.userId != m.seeker.userId
                   && Compatible(m.seeker, c) && WithinReach(m.seeker, c, now)
         ==> Gap(m.opponent.rating, m.seeker.rating) <= Gap(c.rating, m.seeker.rating)
  }

  ghost predicate AllFair(q: Queue, k: PoolKey, ms: seq<Match>, now: int) {
    forall i :: 0 <= i < |ms| ==> FairMatch(q, k, ms, i, now)
  }

  // Seen from before or after the visit, the same players are unpaired at the same later match.
  lemma UnpairedShifts(q: Queue, k: PoolKey, t: Ticket, paired: set<UserId>, ms: seq<Match>, i: nat, now: int)
    requires Consistent(q) && paired !! q.queued && i <= |ms|
    requires t.userId in paired || WaitsIn(q, k, t)
    ensures var o := Visit(q, k, t, paired, now); var d := MatchOf(t, o);
            forall c :: Unpaired(QueueAfter(q, t, o), k, ms, i, c, now) <==> Unpaired(q, k, d + ms, |d| + i, c, now)
  {
    hide PoolsAgree, Visit, QueueAfter, Compatible, Window, Settled, Nearest, WaitsIn, TimedOut;
    var o := Visit(q, k, t, paired, now);
    var d := MatchOf(t, o);
    VisitDecides(q, k, t, paired, now);
    VisitLeaves(q, k, t, paired, now);
    forall c: Ticket
      ensures Unpaired(QueueAfter(q, t, o), k, ms, i, c, now) <==> Unpaired(q, k, d + ms, |d| + i, c, now)
    {
      InMatchShifts(t, o, ms, i, c.userId);
      if o.Evicted? && WaitsIn(q, k, c) { SameUserSameTicket(q, k, t, c); }
    }
  }

  lemma SameUserSameTicket(q: Queue, k: PoolKey, t: Ticket, c: Ticket)
    requires WaitsIn(q, k, t) && WaitsIn(q, k, c)
    ensures t.userId == c.userId ==> t == c
  {
  }

  lemma InMatchShifts(t: Ticket, o: Outcome, ms: seq<Match>, i: nat, u: UserId)
    requires i <= |ms|
    ensures var d := MatchOf(t, o);
            (forall j :: 0 <= j < |d| + i ==> !InMatch((d + ms)[j], u)) <==>
              u !in PairedBy(t, o) && forall j :: 0 <= j < i ==> !InMatch(ms[j], u)
  {
    var d := MatchOf(t, o);
    assert forall j :: 0 <= j < i ==> ms[j] == (d + ms)[|d| + j];
    assert forall j :: |d| <= j < |d| + i ==> (d + ms)[j] == ms[j - |d|];
    assert o.Paired? ==> (d + ms)[0] == Match(t, o.opponent);
  }

  // A fair match of the rest of the sweep is fair in the whole one.
  lemma FairMatchShifts(q: Queue, k: PoolKey, t: Ticket, paired: set<UserId>, ms: seq<Match>, j: nat, now: int)
    requires Consistent(q) && paired !! q.queued && j < |ms|
    requires t.userId in paired || WaitsIn(q, k, t)
    requires FairMatch(QueueAfter(q, t, Visit(q, k, t, paired, now)), k, ms, j, now)
    ensures var d := MatchOf(t, Visit(q, k, t, paired, now)); FairMatch(q, k, d + ms, |d| + j, now)
  {
    hide PoolsAgree, Visit, QueueAfter, Compatible, WithinReach, Unpaired, MatchOf;
    var d := MatchOf(t, Visit(q, k, t, paired, now));
    assert (d + ms)[|d| + j] == ms[j];
    UnpairedShifts(q, k, t, paired, ms, j, now);
  }

  // The match a visit makes is fair as the first one of the sweep that starts with it.
  lemma FirstMatchIsFair(q: Queue, k: PoolKey, todo: seq<Ticket>, paired: set<UserId>, ms: seq<Match>, now: int)
    requires Sweeping(q, k, todo, paired, now) && todo != []
    requires Visit(q, k, todo[0], paired, now).Paired?
    ensures FairMatch(q, k, MatchOf(todo[0], Visit(q, k, todo[0], paired, now)) + ms, 0, now)
  {
    hide PoolsAgree, Visit, Compatible, Window, Settled;
    var t := todo[0];
    assert t in todo;
    VisitDecides(q, k, t, paired, now);
    OpponentIsFresh(q, k, todo, paired, now);
  }

  lemma {:induction false} SweepFromPairs(q: Queue, k: PoolKey, todo: seq<Ticket>, paired: set<UserId>, now: int)
    requires Sweeping(q, k, todo, paired, now)
    ensures AllFair(q, k, SweepFrom(q, k, todo, paired, now).matches, now)
    decreases |todo|
  {
    hide PoolsAgree, Visit, QueueAfter, Compatible, Window, Settled, FairMatch, Unpaired;
    if todo != [] {
      var t, rest := todo[0], todo[1..];
      assert t in todo;
      var o := Visit(q, k, t, paired, now);
      var q', paired' := QueueAfter(q, t, o), PairedAfter(paired, t, o);
      SweepingContinues(q, k, todo, paired, now);
      SweepFromPairs(q', k, rest, paired', now);
      var d, ms' := MatchOf(t, o), SweepFrom(q', k, rest, paired', now).matches;
      forall i | 0 <= i < |d + ms'| ensures FairMatch(q, k, d + ms', i, now) {
        if i < |d| {
          FirstMatchIsFair(q, k, todo, paired, ms', now);
        } else {
          FairMatchShifts(q, k, t, paired, ms', i - |d|, now);
        }
      }
    }
  }

  // Oldest first: when a live ticket is visited, every timed-out ticket is already gone.
  lemma OpponentIsFresh(q: Queue, k: PoolKey, todo: seq<Ticket>, paired: set<UserId>, now: int)
    requires Sweeping(q, k, todo, paired, now) && todo != []
    ensures !TimedOut(todo[0], now) ==> forall c :: WaitsIn(q, k, c) ==> !TimedOut(c, now)
  {
    TailOf(todo);
  }

  /**
    Every pair made joins two live waiting players, is within the seeker's reach, and takes the nearest unpaired
    opponent.
  */
  lemma SweepPairsFairly(q: Queue, k: PoolKey, now: int)
    requires Consistent(q)
    ensures var ms := SweepPool(q, k, now).matches;
            forall i :: 0 <= i < |ms| ==> FairMatch(q, k, ms, i, now)
  {
    SweepBegins(q, k, now);
    SweepFromPairs(q, k, Agenda(q, k), {}, now);
  }

  ghost function Players(ms: seq<Match>): set<UserId> {
    if ms == [] then {} else {ms[0].seeker.userId, ms[0].opponent.userId} + Players(ms[1..])
  }

  ghost function Users(us: seq<UserId>): set<UserId> {
    set u | u in us
  }

  lemma GoneAre(t: Ticket, o: Outcome, ms: seq<Match>, us: seq<UserId>)
    ensures Players(MatchOf(t, o) + ms) + Users(EvictionOf(t, o) + us) == Gone(t, o) + Players(ms) + Users(us)
    ensures Users(EvictionOf(t, o) + us) == EvictedBy(t, o) + Users(us)
    ensures Players(MatchOf(t, o) + ms) == PairedBy(t, o) + Players(ms)
  {
    if o.Paired? {
      assert (MatchOf(t, o) + ms)[1..] == ms;
    } else {
      assert MatchOf(t, o) + ms == ms;
    }
    assert Users(EvictionOf(t, o) + us) == Users(EvictionOf(t, o)) + Users(us);
    assert o.Evicted? ==> Users(EvictionOf(t, o)) == {t.userId};
  }

  lemma {:induction false} SweepFromCounts(q: Queue, k: PoolKey, todo: seq<Ticket>, paired: set<UserId>, now: int)
    requires Sweeping(q, k, todo, paired, now)
    ensures var r := SweepFrom(q, k, todo, paired, now);
            |q.tickets| == |r.queue.tickets| + |r.evicted| + 2 * |r.matches|
    decreases |todo|
  {
    hide PoolsAgree, Visit, QueueAfter, Compatible, Window, Settled, Nearest;
    if todo != [] {
      var t := todo[0];
      assert t in todo;
      var o := Visit(q, k, t, paired, now);
      SweepingContinues(q, k, todo, paired, now);
      SweepFromCounts(QueueAfter(q, t, o), k, todo[1..], PairedAfter(paired, t, o), now);
      VisitRemoves(q, k, t, paired, now);
    }
  }

  // us are users of pool k whose tickets have, or have not, timed out.
  ghost predicate FromPool(q: Queue, k: PoolKey, us: set<UserId>, timedOut: bool, now: int) {
    forall u :: u in us ==> u in q.tickets && KeyOf(q.tickets[u]) == k && TimedOut(q.tickets[u], now) == timedOut
  }

  ghost function EvictedBy(t: Ticket, o: Outcome): set<UserId> {
    if o.Evicted? then {t.userId} else {}
  }

  ghost function PairedBy(t: Ticket, o: Outcome): set<UserId> {
    if o.Paired? then {t.userId, o.opponent.userId} else {}
  }

  lemma VisitTakesFromPool(q: Queue, k: PoolKey, todo: seq<Ticket>, paired: set<UserId>, now: int)
    requires Sweeping(q, k, todo, paired, now) && todo != []
    ensures var t := todo[0]; var o := Visit(q, k, t, paired, now);
            && FromPool(q, k, EvictedBy(t, o), true, now)
            && FromPool(q, k, PairedBy(t, o), false, now)
  {
    hide PoolsAgree, Visit, QueueAfter, Compatible, Window, Settled;
    var t := todo[0];
    assert t in todo;
    VisitDecides(q, k, t, paired, now);
    OpponentIsFresh(q, k, todo, paired, now);
  }

  // What leaves q' leaves q too, after the users in gone.
  lemma FromPoolExtends(q: Queue, q': Queue, k: PoolKey, gone: set<UserId>, us: set<UserId>, timedOut: bool, now: int)
    requires q'.tickets == q.tickets - gone
    ensures q'.tickets - us == q.tickets - (gone + us)
    ensures FromPool(q', k, us, timedOut, now) ==> FromPool(q, k, us, timedOut, now)
  {
  }

  lemma FromPoolUnion(q: Queue, k: PoolKey, us: set<UserId>, vs: set<UserId>, timedOut: bool, now: int)
    requires FromPool(q, k, us, timedOut, now) && FromPool(q, k, vs, timedOut, now)
    ensures FromPool(q, k, us + vs, timedOut, now)
  {
  }

  lemma RemovalFor(q: Queue, k: PoolKey, todo: seq<Ticket>, paired: set<UserId>, now: int)
    requires Sweeping(q, k, todo, paired, now) && todo != []
    ensures var t := todo[0]; var o := Visit(q, k, t, paired, now);
            QueueAfter(q, t, o).tickets == q.tickets - Gone(t, o)
  {
    hide Visit, QueueAfter, Settled;
    assert todo[0] in todo;
    VisitRemoves(q, k, todo[0], paired, now);
  }

  lemma {:induction false} SweepFromRemoves(q: Queue, k: PoolKey, todo: seq<Ticket>, paired: set<UserId>, now: int)
    requires Sweeping(q, k, todo, paired, now)
    ensures var r := SweepFrom(q, k, todo, paired, now);
            && r.queue.tickets == q.tickets - (Players(r.matches) + Users(r.evicted))
            && FromPool(q, k, Users(r.evicted), true, now)
            && FromPool(q, k, Players(r.matches), false, now)
    decreases |todo|
  {
    hide Sweeping, Visit, QueueAfter, FromPool, Users, Players;
    if todo != [] {
      var t, rest := todo[0], todo[1..];
      var o := Visit(q, k, t, paired, now);
      var q', paired' := QueueAfter(q, t, o), PairedAfter(paired, t, o);
      SweepingContinues(q, k, todo, paired, now);
      SweepFromRemoves(q', k, rest, paired', now);
      VisitTakesFromPool(q, k, todo, paired, now);
      RemovalFor(q, k, todo, paired, now);
      var r' := SweepFrom(q', k, rest, paired', now);
      GoneAre(t, o, r'.matches, r'.evicted);
      FromPoolExtends(q, q', k, Gone(t, o), Users(r'.evicted), true, now);
      FromPoolExtends(q, q', k, Gone(t, o), Players(r'.matches), false, now);
      FromPoolExtends(q, q', k, Gone(t, o), Players(r'.matches) + Users(r'.evicted), false, now);
      FromPoolUnion(q, k, EvictedBy(t, o), Users(r'.evicted), true, now);
      FromPoolUnion(q, k, PairedBy(t, o), Players(r'.matches), false, now);
      assert Gone(t, o) + Players(r'.matches) + Users(r'.evicted)
             == Gone(t, o) + (Players(r'.matches) + Users(r'.evicted));
    } else {
      NobodyGone(q, k, now);
    }
  }

  lemma NobodyGone(q: Queue, k: PoolKey, now: int)
    ensures q.tickets - (Players([]) + Users([])) == q.tickets
    ensures FromPool(q, k, Users([]), true, now) && FromPool(q, k, Players([]), false, now)
  {
  }

  /**
    Conservation: what is left is what was there, unchanged, minus the evicted and the paired players;
    the counts add up; evicted are exactly the pool's timed-out tickets; other pools are untouched.
  */
  lemma SweepConserves(q: Queue, k: PoolKey, now: int)
    requires Consistent(q)
    ensures var r := SweepPool(q, k, now);
            && Consistent(r.queue)
            && r.queue.tickets == q.tickets - (Players(r.matches) + Users(r.evicted))
            && |q.tickets| == |r.queue.tickets| + |r.evicted| + 2 * |r.matches|
            && (forall u :: u in r.evicted <==>
                  u in q.tickets && KeyOf(q.tickets[u]) == k && TimedOut(q.tickets[u], now))
            && forall k', t :: k' != k ==> (WaitsIn(q, k', t) <==> WaitsIn(r.queue, k', t))
  {
    hide Mirrored, WellFormed, SweepFrom, Agenda, Compatible, Window, Players;
    var r := SweepPool(q, k, now);
    SweepBegins(q, k, now);
    SweepFromSettles(q, k, Agenda(q, k), {}, now);
    SweepFromCounts(q, k, Agenda(q, k), {}, now);
    SweepFromRemoves(q, k, Agenda(q, k), {}, now);
    forall u | u in q.tickets && KeyOf(q.tickets[u]) == k && TimedOut(q.tickets[u], now) ensures u in r.evicted {
      assert WaitsIn(r.queue, k, q.tickets[u]) ==> Settled(r.queue, k, q.tickets[u], now);
    }
  }

  lemma {:induction false} NothingLeftToDo(q: Queue, k: PoolKey, todo: seq<Ticket>, now: int)
    requires Consistent(q)
    requires forall t :: t in todo ==> WaitsIn(q, k, t) && Settled(q, k, t, now)
    ensures SweepFrom(q, k, todo, {}, now) == Swept(q, [], [])
  {
    if todo != [] {
      assert todo[0] in todo;
      VisitDecides(q, k, todo[0], {}, now);
      NothingLeftToDo(q, k, todo[1..], now);
    }
  }

  /** A second sweep at the same clock changes nothing at all. */
  lemma SweepIsIdempotent(q: Queue, k: PoolKey, now: int)
    requires Consistent(q)
    ensures var r := SweepPool(q, k, now); SweepPool(r.queue, k, now) == Swept(r.queue, [], [])
  {
    var r := SweepPool(q, k, now);
    SweepBegins(q, k, now);
    SweepFromSettles(q, k, Agenda(q, k), {}, now);
    PoolTicketsAre(r.queue, k);
    StableSort.SortKeeps(PoolTickets(r.queue, k), OlderFirst);
    NothingLeftToDo(r.queue, k, Agenda(r.queue, k), now);
  }

  /**
    After 77 seconds of waiting, whatever the skill preference, a sweep never leaves a ticket beside a compatible
    one at most 600 points away.
  */
  lemma WaitGuarantee(q: Queue, k: PoolKey, now: int, t: Ticket, u: Ticket)
    requires Consistent(q)
    requires WaitsIn(q, k, t) && WaitsIn(q, k, u) && t.userId != u.userId && Compatible(t, u)
    requires 77_000 <= now - t.enqueuedAt && Gap(u.rating, t.rating) <= 600
    ensures var left := SweepPool(q, k, now).queue; !(t.userId in left.tickets && u.userId in left.tickets)
  {
    var left := SweepPool(q, k, now).queue;
    SweepIsMaximal(q, k, now);
    SweepConserves(q, k, now);
    WindowWidens(t, now, now);
    if t.userId in left.tickets && u.userId in left.tickets {
      assert WaitsIn(left, k, t) && WaitsIn(left, k, u);
      assert WithinReach(t, u, now);
      assert false;
    }
  }

  // ── join, leave, friend match on a snapshot ──────────────────────

  function TryFriendMatch(q: Queue, t: Ticket, friend: UserId): (Queue, seq<Match>) {
    match GetTicket(q, friend)
    case None => (q, [])
    case Some(f) =>
      if !Compatible(t, f) then (q, [])
      else if ClaimPair(q, t.userId, friend).1 then (ClaimPair(q, t.userId, friend).0, [Match(t, f)])
      else (q, [])
  }

  function Join(q: Queue, t: Ticket, admitted: bool): (Queue, seq<Match>, Result<Ticket, JoinError>) {
    if !admitted then (q, [], Failure(RateLimited))
    else if t.userId in q.queued then (q, [], Failure(AlreadyQueued))
    else if Truthy(t.friendId) && t.friendId.value == t.userId then (q, [], Failure(InvalidQueue))
    else
      var q1 := Enqueue(q, t);
      var (q2, ms) := if Truthy(t.friendId) then TryFriendMatch(q1, t, t.friendId.value) else (q1, []);
      (q2, ms, Success(t))
  }

  /**
    A join that is refused changes nothing; an accepted one leaves the player waiting, or matched with the named
    friend at once.
  */
  lemma JoinKeepsAgreement(q: Queue, t: Ticket, admitted: bool)
    requires Consistent(q)
    ensures var (q', ms, r) := Join(q, t, admitted);
            && Consistent(q')
            && (r.Failure? ==> q' == q && ms == [])
            && (r.Success? && ms == [] ==> q'.tickets == q.tickets[t.userId := t])
            && (r.Success? && ms != [] ==>
                  && Truthy(t.friendId) && t.friendId.value in q.tickets
                  && ms == [Match(t, q.tickets[t.friendId.value])]
                  && Compatible(t, q.tickets[t.friendId.value])
                  && q'.tickets == q.tickets - {t.friendId.value})
  {
    hide PoolsAgree, Compatible, ClaimPair;
    if admitted && t.userId !in q.queued {
      EnqueueConsistent(q, t);
      var q1 := Enqueue(q, t);
      assert q1.tickets == q.tickets[t.userId := t];
      if Truthy(t.friendId) && t.friendId.value != t.userId {
        var f := t.friendId.value;
        ClaimRemovesBoth(q1, t.userId, f);
        assert q1.tickets - {t.userId, f} == q.tickets - {f};
      }
    }
  }

  // ── the service ──────────────────────────────────────────────────

  class MatchmakingService {
    const queue: RedisQueueStore
    // createMatch calls and queue:timeout notices, in order
    var matches: seq<Match>
    var timeouts: seq<UserId>

    constructor (queue: RedisQueueStore)
      ensures this.queue == queue && matches == [] && timeouts == []
    {
      this.queue := queue;
      matches, timeouts := [], [];
    }

    method JoinQueue(t: Ticket, admitted: bool) returns (r: Result<Ticket, JoinError>)
      modifies this`matches, queue
      ensures var (q', ms, r') := Join(old(queue.View()), t, admitted);
              queue.View() == q' && matches == old(matches) + ms && r == r'
    {
      if !admitted {
        return Failure(RateLimited);
      }
      if t.userId in queue.queued {
        return Failure(AlreadyQueued);
      }
      if Truthy(t.friendId) && t.friendId.value == t.userId {
        return Failure(InvalidQueue);
      }
      queue.EnqueueTicket(t);
      if Truthy(t.friendId) {
        FriendMatch(t, t.friendId.value);
      }
      return Success(t);
    }

    method FriendMatch(t: Ticket, friend: UserId)
      modifies this`matches, queue
      ensures var (q', ms) := TryFriendMatch(old(queue.View()), t, friend);
              queue.View() == q' && matches == old(matches) + ms
    {
      var f := GetTicket(queue.View(), friend);
      if f.None? || !Compatible(t, f.value) {
        return;
      }
      var claimed := queue.Claim(t.userId, friend);
      if claimed {
        matches := matches + [Match(t, f.value)];
      }
    }

    /** Fails with NotQueued exactly when the user holds no ticket. */
    method Leave(u: UserId) returns (left: bool)
      modifies queue
      ensures queue.View() == Dequeue(old(queue.View()), u)
      ensures left == (u in old(queue.tickets))
    {
      left := queue.DequeueUser(u);
    }

    method SweepOnePool(k: PoolKey, now: int) returns (count: nat)
      modifies this`matches, this`timeouts, queue
      ensures var r := SweepPool(old(queue.View()), k, now);
              && queue.View() == r.queue
              && matches == old(matches) + r.matches
              && timeouts == old(timeouts) + r.evicted
              && count == |r.matches|
    {
      hide SweepFrom, Candidates, FirstCompatible, Dequeue, Erase, TimedOut, Window, StableSort.Sort;
      ghost var all := SweepPool(queue.View(), k, now);
      ghost var matches0, timeouts0 := matches, timeouts;
      var listed := queue.ListPool(k);
      var tickets := StableSort.Sort(listed, OlderFirst);
      var paired: set<UserId> := {};
      count := 0;
      for i := 0 to |tickets|
        invariant var rest := SweepFrom(queue.View(), k, tickets[i..], paired, now);
                  && all.queue == rest.queue
                  && matches0 + all.matches == matches + rest.matches
                  && timeouts0 + all.evicted == timeouts + rest.evicted
                  && |all.matches| == count + |rest.matches|
      {
        var t := tickets[i];
        assert tickets[i..][0] == t && tickets[i..][1..] == tickets[i + 1..];
        Unroll(queue.View(), k, tickets[i..], paired, now);
        ghost var o := Visit(queue.View(), k, t, paired, now);
        ghost var q' := QueueAfter(queue.View(), t, o);
        ghost var paired' := PairedAfter(paired, t, o);
        ghost var rest := SweepFrom(q', k, tickets[i + 1..], paired', now);
        assert matches + (MatchOf(t, o) + rest.matches) == (matches + MatchOf(t, o)) + rest.matches;
        assert timeouts + (EvictionOf(t, o) + rest.evicted) == (timeouts + EvictionOf(t, o)) + rest.evicted;
        ghost var matches', timeouts' := matches + MatchOf(t, o), timeouts + EvictionOf(t, o);
        if t.userId !in paired {
          if TimedOut(t, now) {
            var _ := queue.DequeueUser(t.userId);
            timeouts := timeouts + [t.userId];
          } else {
            var candidates := queue.FindCandidates(k, t.rating, Window(t, now), t.userId);
            var opponent := FirstCompatible(t, candidates, paired);
            if opponent.Some? {
              var claimed := queue.Claim(t.userId, opponent.value.userId);
              if claimed {
                paired := paired + {t.userId, opponent.value.userId};
                matches := matches + [Match(t, opponent.value)];
                count := count + 1;
              }
            }
          }
        }
        assert queue.View() == q' && paired == paired' && matches == matches' && timeouts == timeouts';
      }
      Unroll(queue.View(), k, tickets[|tickets|..], paired, now);
    }
  }
}
