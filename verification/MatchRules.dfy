/**
  Who may be matched, in terms of what the players asked for: each law speaks of
  tickets' own fields, for sweeps, joins and what they leave behind.
*/
module MatchRules {
  import opened Wrappers
  import opened Queue
  import opened Matchmaking

  // The private code a ticket carries; none and the empty one are the same.
  function Code(t: Ticket): string {
    if t.privateCode.None? then "" else t.privateCode.value
  }

  predicate NamesSomebodyElse(t: Ticket, u: UserId) {
    t.friendId.Some? && t.friendId.value != "" && t.friendId.value != u
  }

  // One pool, neither asked for somebody else, and one and the same code, or none.
  predicate AsAsked(a: Ticket, b: Ticket) {
    && a.mode == b.mode && a.region == b.region
    && !NamesSomebodyElse(a, b.userId) && !NamesSomebodyElse(b, a.userId)
    && Code(a) == Code(b)
  }

  lemma CompatibleExactly(a: Ticket, b: Ticket)
    ensures Compatible(a, b) <==> AsAsked(a, b)
  {
  }

  /**
    Everybody a sweep pairs gets what they asked for: the pool's mode and region, the friend they named,
    and nobody from outside a private match; and whoever is paired waited no longer than two minutes.
  */
  lemma SweepHonoursWishes(q: Queue, k: PoolKey, now: int)
    requires Consistent(q)
    ensures forall m :: m in SweepPool(q, k, now).matches ==>
              && m.seeker.mode == m.opponent.mode == k.mode && m.seeker.region == m.opponent.region == k.region
              && !NamesSomebodyElse(m.seeker, m.opponent.userId) && !NamesSomebodyElse(m.opponent, m.seeker.userId)
              && Code(m.seeker) == Code(m.opponent)
              && now - m.seeker.enqueuedAt <= 120_000 && now - m.opponent.enqueuedAt <= 120_000
  {
    hide Compatible, SweepPool, WithinReach;
    SweepPairsFairly(q, k, now);
    var ms := SweepPool(q, k, now).matches;
    forall m | m in ms
      ensures && AsAsked(m.seeker, m.opponent) && KeyOf(m.seeker) == k
              && now - m.seeker.enqueuedAt <= 120_000 && now - m.opponent.enqueuedAt <= 120_000
    {
      var i :| 0 <= i < |ms| && ms[i] == m;
      assert FairMatch(q, k, ms, i, now);
      CompatibleExactly(m.seeker, m.opponent);
    }
  }

  // Two players, one within the other's window.
  predicate EitherReaches(t: Ticket, u: Ticket, now: int) {
    t.userId != u.userId && (WithinReach(t, u, now) || WithinReach(u, t, now))
  }

  /**
    And conversely: of two tickets that a sweep leaves waiting within reach of either, one names somebody
    else or their codes differ; nobody is left who has waited longer than two minutes, and nobody else was evicted.
  */
  lemma LeftOverForAReason(q: Queue, k: PoolKey, now: int)
    requires Consistent(q)
    ensures var r := SweepPool(q, k, now);
            && (forall t, u :: WaitsIn(r.queue, k, t) && WaitsIn(r.queue, k, u) && EitherReaches(t, u, now) ==>
                  NamesSomebodyElse(t, u.userId) || NamesSomebodyElse(u, t.userId) || Code(t) != Code(u))
            && (forall t :: WaitsIn(r.queue, k, t) ==> now - t.enqueuedAt <= 120_000)
            && (forall u :: u in r.evicted <==>
                  u in q.tickets && KeyOf(q.tickets[u]) == k && now - q.tickets[u].enqueuedAt > 120_000)
  {
    hide Compatible, SweepPool, WithinReach;
    SweepIsMaximal(q, k, now);
    SweepConserves(q, k, now);
    var left := SweepPool(q, k, now).queue;
    forall t, u | WaitsIn(left, k, t) && WaitsIn(left, k, u) && EitherReaches(t, u, now)
      ensures NamesSomebodyElse(t, u.userId) || NamesSomebodyElse(u, t.userId) || Code(t) != Code(u)
    {
      CompatibleExactly(t, u);
    }
  }

  // The friend a ticket names waits, in the same pool, with the same code and for nobody else.
  predicate FriendWaits(q: Queue, t: Ticket) {
    && t.friendId.Some? && t.friendId.value != "" && t.friendId.value in q.tickets
    && var f := q.tickets[t.friendId.value];
       && f.mode == t.mode && f.region == t.region && !NamesSomebodyElse(f, t.userId) && Code(f) == Code(t)
  }

  /**
    A join is refused exactly for a rate limit, a user who is waiting already, or naming oneself, in this
    order. Accepted, it is matched at once exactly when the friend it names waits on the same terms, and
    then with that friend; otherwise the player waits.
  */
  lemma JoinDecides(q: Queue, t: Ticket, admitted: bool)
    requires Consistent(q)
    ensures var (q', ms, r) := Join(q, t, admitted);
            && (r == Failure(RateLimited) <==> !admitted)
            && (r == Failure(AlreadyQueued) <==> admitted && t.userId in q.tickets)
            && (r == Failure(InvalidQueue) <==>
                  admitted && t.userId !in q.tickets && t.friendId == Some(t.userId) && t.userId != "")
            && (r.Success? ==> r.value == t)
            && (r.Success? && FriendWaits(q, t) ==> ms == [Match(t, q.tickets[t.friendId.value])])
            && (r.Success? && !FriendWaits(q, t) ==> ms == [] && q'.tickets == q.tickets[t.userId := t])
  {
    hide Compatible, ClaimPair, PoolsAgree;
    JoinKeepsAgreement(q, t, admitted);
    if admitted && t.userId !in q.tickets && Truthy(t.friendId) && t.friendId.value != t.userId {
      EnqueueConsistent(q, t);
      ClaimRemovesBoth(Enqueue(q, t), t.userId, t.friendId.value);
      if t.friendId.value in q.tickets {
        KeyedTicket(q, t.friendId.value);
        CompatibleExactly(t, q.tickets[t.friendId.value]);
      }
    }
  }

  lemma KeyedTicket(q: Queue, u: UserId)
    requires Consistent(q) && u in q.tickets
    ensures q.tickets[u].userId == u
  {
  }
}
