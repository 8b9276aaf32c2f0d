/**
  The matchmaking queue: three structures that describe the same waiting players.

    pools    one sorted set per mode and region, member = user, score = rating
    tickets  the full ticket of each waiting user
    queued   the users who may not join again, and who may still be claimed

  `Queue` is a snapshot of the three; the functions below say what each script
  does to a snapshot, and `RedisQueueStore` holds the live structures.
*/
module Queue {
  import opened Wrappers
  import StableSort

  datatype Mode = OneVsOne | Practice | Ranked

  datatype Region = Global | Na | Eu | Asia

  datatype Skill = Any | Similar | Challenge

  datatype Ticket = Ticket(
    userId: UserId,
    rating: int,
    mode: Mode,
    region: Region,
    language: string,
    skill: Skill,
    friendId: Option<UserId>,
    privateCode: Option<string>,
    enqueuedAt: int)

  datatype PoolKey = PoolKey(mode: Mode, region: Region)

  datatype Entry = Entry(user: UserId, score: int)

  datatype Queue = Queue(pools: map<PoolKey, seq<Entry>>, tickets: map<UserId, Ticket>, queued: set<UserId>)

  function KeyOf(t: Ticket): PoolKey {
    PoolKey(t.mode, t.region)
  }

  function Pool(q: Queue, k: PoolKey): seq<Entry> {
    if k in q.pools then q.pools[k] else []
  }

  // ── sorted sets ──────────────────────────────────────────────────

  predicate LexBefore(a: string, b: string) {
    if a == [] then b != []
    else if b == [] then false
    else a[0] < b[0] || (a[0] == b[0] && LexBefore(a[1..], b[1..]))
  }

  predicate EntryBefore(a: Entry, b: Entry) {
    a.score < b.score || (a.score == b.score && LexBefore(a.user, b.user))
  }

  function ZRem(z: seq<Entry>, u: UserId): seq<Entry> {
    if z == [] then [] else if z[0].user == u then ZRem(z[1..], u) else [z[0]] + ZRem(z[1..], u)
  }

  function ZInsert(z: seq<Entry>, e: Entry): seq<Entry> {
    if z == [] || EntryBefore(e, z[0]) then [e] + z else [z[0]] + ZInsert(z[1..], e)
  }

  function ZAdd(z: seq<Entry>, e: Entry): seq<Entry> {
    ZInsert(ZRem(z, e.user), e)
  }

  function ZRange(z: seq<Entry>): seq<UserId> {
    seq(|z|, i requires 0 <= i < |z| => z[i].user)
  }

  function ZRangeByScore(z: seq<Entry>, lo: real, hi: real): seq<UserId> {
    if z == [] then []
    else (if lo <= z[0].score as real <= hi then [z[0].user] else []) + ZRangeByScore(z[1..], lo, hi)
  }

  function Without(ids: seq<UserId>, u: UserId): seq<UserId> {
    if ids == [] then [] else (if ids[0] == u then [] else [ids[0]]) + Without(ids[1..], u)
  }

  // Rating-ordered, and no user twice.
  ghost predicate WellFormed(z: seq<Entry>) {
    forall i, j :: 0 <= i < j < |z| ==> z[i].user != z[j].user && z[i].score <= z[j].score
  }

  // ── scripts, on a snapshot ───────────────────────────────────────

  function Enqueue(q: Queue, t: Ticket): Queue {
    Queue(q.pools[KeyOf(t) := ZAdd(Pool(q, KeyOf(t)), Entry(t.userId, t.rating))],
          q.tickets[t.userId := t],
          q.queued + {t.userId})
  }

  // The pipeline that erases a claimed user's pool entry and ticket.
  function Erase(q: Queue, u: UserId, ticket: Option<Ticket>): Queue {
    match ticket
    case None => q
    case Some(t) =>
      q.(pools := q.pools[KeyOf(t) := ZRem(Pool(q, KeyOf(t)), u)], tickets := q.tickets - {u})
  }

  function GetTicket(q: Queue, u: UserId): Option<Ticket> {
    if u in q.tickets then Some(q.tickets[u]) else None
  }

  function Dequeue(q: Queue, u: UserId): Queue {
    var q' := Erase(q, u, GetTicket(q, u));
    q'.(queued := q.queued - {u})
  }

  function ClaimPair(q: Queue, a: UserId, b: UserId): (Queue, bool) {
    if a in q.queued && b in q.queued then
      var q0 := q.(queued := q.queued - {a, b});
      var ta, tb := GetTicket(q0, a), GetTicket(q0, b);
      (Erase(Erase(q0, a, ta), b, tb), true)
    else
      (q, false)
  }

  function Hydrate(q: Queue, ids: seq<UserId>): seq<Ticket> {
    if ids == [] then []
    else (if ids[0] in q.tickets then [q.tickets[ids[0]]] else []) + Hydrate(q, ids[1..])
  }

  function Gap(a: int, b: int): int {
    if a < b then b - a else a - b
  }

  function Nearer(rating: int): (Ticket, Ticket) -> bool {
    (a: Ticket, b: Ticket) => Gap(a.rating, rating) < Gap(b.rating, rating)
  }

  function Candidates(q: Queue, k: PoolKey, rating: int, window: real, exclude: UserId): seq<Ticket> {
    var ids := ZRangeByScore(Pool(q, k), rating as real - window, rating as real + window);
    StableSort.Sort(Hydrate(q, Without(ids, exclude)), Nearer(rating))
  }

  function PoolTickets(q: Queue, k: PoolKey): seq<Ticket> {
    Hydrate(q, ZRange(Pool(q, k)))
  }

  // ── agreement of the three structures ────────────────────────────

  // A pool entry is exactly a waiting user's ticket seen from its own pool.
  ghost predicate Mirrored(q: Queue) {
    forall k, e :: e in Pool(q, k) <==>
      e.user in q.tickets && KeyOf(q.tickets[e.user]) == k && q.tickets[e.user].rating == e.score
  }

  ghost predicate Keyed(q: Queue) {
    forall u :: u in q.tickets ==> q.tickets[u].userId == u
  }

  ghost predicate PoolsAgree(q: Queue) {
    && Keyed(q)
    && Mirrored(q)
    && forall k :: WellFormed(Pool(q, k))
  }

  ghost predicate Consistent(q: Queue) {
    q.queued == q.tickets.Keys && PoolsAgree(q)
  }

  ghost predicate DistinctUsers(ts: seq<Ticket>) {
    forall i, j :: 0 <= i < j < |ts| ==> ts[i].userId != ts[j].userId
  }

  ghost predicate ComesFirst(e: Entry, rest: seq<Entry>) {
    forall i :: 0 <= i < |rest| ==> rest[i].user != e.user && e.score <= rest[i].score
  }

  lemma TailIsOrdered(z: seq<Entry>)
    requires z != [] && WellFormed(z)
    ensures WellFormed(z[1..]) && ComesFirst(z[0], z[1..])
  {
    var rest := z[1..];
    assert forall i :: 0 <= i < |rest| ==> rest[i] == z[i + 1];
  }

  lemma PrependedIsOrdered(e: Entry, rest: seq<Entry>)
    requires WellFormed(rest) && ComesFirst(e, rest)
    ensures WellFormed([e] + rest)
  {
    var z := [e] + rest;
    assert z[0] == e && forall i :: 0 < i < |z| ==> z[i] == rest[i - 1];
  }

  // A list is in order exactly when its tail is and its head comes before everybody in the tail.
  lemma WellFormedHead(z: seq<Entry>)
    requires z != []
    ensures WellFormed(z) <==>
              WellFormed(z[1..]) && forall x :: x in z[1..] ==> x.user != z[0].user && z[0].score <= x.score
    ensures forall x :: x in z <==> x == z[0] || x in z[1..]
  {
    hide WellFormed;
    var rest := z[1..];
    assert z == [z[0]] + rest;
    if WellFormed(z) { TailIsOrdered(z); }
    if WellFormed(rest) && ComesFirst(z[0], rest) { PrependedIsOrdered(z[0], rest); }
    assert forall i :: 0 <= i < |rest| ==> rest[i] in rest;
  }

  lemma {:induction false} ZRemMembers(z: seq<Entry>, u: UserId)
    ensures forall e :: e in ZRem(z, u) <==> e in z && e.user != u
    ensures WellFormed(z) ==> WellFormed(ZRem(z, u))
  {
    hide WellFormed;
    if z == [] {
      NothingIsOrdered();
    } else {
      WellFormedHead(z);
      ZRemMembers(z[1..], u);
      var r := ZRem(z, u);
      if z[0].user != u {
        assert r[1..] == ZRem(z[1..], u);
        WellFormedHead(r);
      }
    }
  }

  lemma NothingIsOrdered()
    ensures WellFormed([])
  {
  }

  lemma OneIsOrdered(e: Entry)
    ensures WellFormed([e])
  {
  }

  lemma {:induction false} ZInsertMembers(z: seq<Entry>, e: Entry)
    ensures forall x :: x in ZInsert(z, e) <==> x in z || x == e
    ensures WellFormed(z) && (forall x :: x in z ==> x.user != e.user) ==> WellFormed(ZInsert(z, e))
  {
    hide WellFormed, EntryBefore;
    if z == [] {
      OneIsOrdered(e);
      assert [e] + z == [e];
    } else {
      WellFormedHead(z);
      EntriesInOrder(e, z[0]);
      var r := ZInsert(z, e);
      if EntryBefore(e, z[0]) {
        assert r[1..] == z;
      } else {
        ZInsertMembers(z[1..], e);
        assert r[1..] == ZInsert(z[1..], e);
      }
      WellFormedHead(r);
    }
  }

  lemma EntriesInOrder(a: Entry, b: Entry)
    ensures if EntryBefore(a, b) then a.score <= b.score else b.score <= a.score
  {
  }

  lemma {:induction false} ZRangeByScoreMembers(z: seq<Entry>, lo: real, hi: real)
    ensures forall u :: u in ZRangeByScore(z, lo, hi) <==>
              exists e :: e in z && e.user == u && lo <= e.score as real <= hi
  {
    if z != [] {
      ZRangeByScoreMembers(z[1..], lo, hi);
      assert z == [z[0]] + z[1..];
    }
  }

  lemma {:induction false} WithoutMembers(ids: seq<UserId>, u: UserId)
    ensures forall x :: x in Without(ids, u) <==> x in ids && x != u
  {
    if ids != [] {
      WithoutMembers(ids[1..], u);
    }
  }

  lemma {:induction false} HydrateMembers(q: Queue, ids: seq<UserId>)
    requires Keyed(q)
    ensures forall t :: t in Hydrate(q, ids) <==>
              t.userId in ids && t.userId in q.tickets && q.tickets[t.userId] == t
  {
    if ids != [] {
      HydrateMembers(q, ids[1..]);
    }
  }

  lemma {:induction false} HydrateDistinct(q: Queue, ids: seq<UserId>)
    requires Keyed(q)
    requires forall i, j :: 0 <= i < j < |ids| ==> ids[i] != ids[j]
    ensures DistinctUsers(Hydrate(q, ids))
  {
    if ids != [] {
      var rest := ids[1..];
      assert forall i :: 0 <= i < |rest| ==> rest[i] == ids[i + 1];
      HydrateDistinct(q, rest);
      HydrateMembers(q, rest);
      var h := Hydrate(q, rest);
      forall i | 0 <= i < |h| ensures h[i].userId != ids[0] {
        assert h[i] in h;
      }
      if ids[0] in q.tickets {
        assert Hydrate(q, ids) == [q.tickets[ids[0]]] + h;
      } else {
        assert Hydrate(q, ids) == h;
      }
    }
  }

  /** enqueue of a user who is not waiting keeps the three structures in agreement. */
  lemma EnqueueConsistent(q: Queue, t: Ticket)
    requires Consistent(q) && t.userId !in q.queued
    ensures Consistent(Enqueue(q, t))
    ensures Enqueue(q, t).tickets == q.tickets[t.userId := t]
  {
    var k, e := KeyOf(t), Entry(t.userId, t.rating);
    var q' := Enqueue(q, t);
    ZRemMembers(Pool(q, k), t.userId);
    ZInsertMembers(ZRem(Pool(q, k), t.userId), e);
    assert Pool(q', k) == ZAdd(Pool(q, k), e);
    assert forall k' :: k' != k ==> Pool(q', k') == Pool(q, k');
  }

  /** Erasing a user whose ticket is current removes that user and nobody else. */
  lemma DequeueRemoves(q: Queue, u: UserId)
    requires Consistent(q)
    ensures Consistent(Dequeue(q, u))
    ensures Dequeue(q, u).tickets == q.tickets - {u}
  {
    if u in q.tickets {
      var k := KeyOf(q.tickets[u]);
      var q' := Dequeue(q, u);
      ZRemMembers(Pool(q, k), u);
      assert Pool(q', k) == ZRem(Pool(q, k), u);
      assert forall k' :: k' != k ==> Pool(q', k') == Pool(q, k');
    } else {
      assert q.tickets - {u} == q.tickets;
      assert q.queued - {u} == q.queued;
    }
  }

  lemma DequeueCounts(q: Queue, u: UserId)
    requires Consistent(q) && u in q.tickets
    ensures |Dequeue(q, u).tickets| + 1 == |q.tickets|
  {
    DequeueRemoves(q, u);
    assert (q.tickets - {u}).Keys == q.tickets.Keys - {u};
    assert |q.tickets.Keys - {u}| + 1 == |q.tickets.Keys|;
  }

  /** A claim succeeds exactly when both users wait, and then removes exactly those two, from all three structures. */
  lemma ClaimRemovesBoth(q: Queue, a: UserId, b: UserId)
    requires Consistent(q) && a != b
    ensures ClaimPair(q, a, b).1 <==> a in q.tickets && b in q.tickets
    ensures var q' := ClaimPair(q, a, b).0;
            && Consistent(q')
            && (!ClaimPair(q, a, b).1 ==> q' == q)
            && (ClaimPair(q, a, b).1 ==> q'.tickets == q.tickets - {a, b} && |q'.tickets| + 2 == |q.tickets|)
  {
    if a in q.queued && b in q.queued {
      var q1 := Dequeue(q, a);
      DequeueRemoves(q, a);
      DequeueCounts(q, a);
      DequeueRemoves(q1, b);
      DequeueCounts(q1, b);
      assert q.queued - {a, b} == q.queued - {a} - {b};
      assert ClaimPair(q, a, b).0 == Dequeue(q1, b);
      assert q.tickets - {a} - {b} == q.tickets - {a, b};
    }
  }

  ghost predicate WaitsIn(q: Queue, k: PoolKey, t: Ticket) {
    t.userId in q.tickets && q.tickets[t.userId] == t && KeyOf(t) == k
  }

  lemma InRange(q: Queue, k: PoolKey, rating: int, window: real)
    requires Consistent(q)
    ensures var ids := ZRangeByScore(Pool(q, k), rating as real - window, rating as real + window);
            forall u :: u in ids <==>
              u in q.tickets && KeyOf(q.tickets[u]) == k && Gap(q.tickets[u].rating, rating) as real <= window
  {
    hide Pool, ZRangeByScore, WellFormed;
    var lo, hi := rating as real - window, rating as real + window;
    ZRangeByScoreMembers(Pool(q, k), lo, hi);
    forall u
      ensures u in ZRangeByScore(Pool(q, k), lo, hi) <==>
                u in q.tickets && KeyOf(q.tickets[u]) == k && Gap(q.tickets[u].rating, rating) as real <= window
    {
      EntryOf(q, k, u);
      if u in q.tickets {
        GapInRange(q.tickets[u].rating, rating, window);
        var e := Entry(u, q.tickets[u].rating);
        assert KeyOf(q.tickets[u]) == k ==> e in Pool(q, k) && e.user == u;
      }
    }
  }

  // A user's entry in a pool, if any, is that of the user's ticket.
  lemma EntryOf(q: Queue, k: PoolKey, u: UserId)
    requires Consistent(q)
    ensures forall e :: e in Pool(q, k) && e.user == u <==>
              u in q.tickets && KeyOf(q.tickets[u]) == k && e == Entry(u, q.tickets[u].rating)
  {
    hide Pool, WellFormed;
  }

  lemma GapInRange(score: int, rating: int, window: real)
    ensures Gap(score, rating) as real <= window
            <==> rating as real - window <= score as real <= rating as real + window
  {
  }

  /** candidates: exactly the other waiting users of the pool inside the window, nearest first. */
  lemma CandidatesAre(q: Queue, k: PoolKey, rating: int, window: real, exclude: UserId)
    requires Consistent(q)
    ensures forall c :: c in Candidates(q, k, rating, window, exclude) <==>
              WaitsIn(q, k, c) && c.userId != exclude && Gap(c.rating, rating) as real <= window
    ensures var cs := Candidates(q, k, rating, window, exclude);
            forall i, j :: 0 <= i < j < |cs| ==> Gap(cs[i].rating, rating) <= Gap(cs[j].rating, rating)
  {
    var ids := ZRangeByScore(Pool(q, k), rating as real - window, rating as real + window);
    var found := Hydrate(q, Without(ids, exclude));
    InRange(q, k, rating, window);
    WithoutMembers(ids, exclude);
    HydrateMembers(q, Without(ids, exclude));
    StableSort.SortKeeps(found, Nearer(rating));
    StableSort.SortSorts(found, Nearer(rating));
    var cs := Candidates(q, k, rating, window, exclude);
    forall i, j | 0 <= i < j < |cs| ensures Gap(cs[i].rating, rating) <= Gap(cs[j].rating, rating) {
      assert !Nearer(rating)(cs[j], cs[i]);
    }
  }

  /** poolTickets: each waiting user of the pool, once. */
  lemma PoolTicketsAre(q: Queue, k: PoolKey)
    requires Consistent(q)
    ensures forall t :: t in PoolTickets(q, k) <==> WaitsIn(q, k, t)
    ensures DistinctUsers(PoolTickets(q, k))
  {
    var z := Pool(q, k);
    var ids := ZRange(z);
    HydrateMembers(q, ids);
    HydrateDistinct(q, ids);
    forall t: Ticket ensures t in PoolTickets(q, k) <==> WaitsIn(q, k, t) {
      if WaitsIn(q, k, t) {
        var e := Entry(t.userId, t.rating);
        assert e in z;
        var i :| 0 <= i < |z| && z[i] == e;
        assert ids[i] == t.userId;
      }
      if t.userId in ids {
        var i :| 0 <= i < |z| && ids[i] == t.userId;
        assert z[i] in z;
      }
    }
  }

  // ── the live structures ──────────────────────────────────────────

  class RedisQueueStore {
    var pools: map<PoolKey, seq<Entry>>
    var tickets: map<UserId, Ticket>
    var queued: set<UserId>

    function View(): Queue
      reads this
    {
      Queue(pools, tickets, queued)
    }

    constructor ()
      ensures View() == Queue(map[], map[], {}) && Consistent(View())
    {
      pools, tickets, queued := map[], map[], {};
    }

    method EnqueueTicket(t: Ticket)
      modifies this
      ensures View() == Enqueue(old(View()), t)
    {
      var pool := if KeyOf(t) in pools then pools[KeyOf(t)] else [];
      pools := pools[KeyOf(t) := ZAdd(pool, Entry(t.userId, t.rating))];
      tickets := tickets[t.userId := t];
      queued := queued + {t.userId};
    }

    method DequeueUser(u: UserId) returns (present: bool)
      modifies this
      ensures View() == Dequeue(old(View()), u)
      ensures present == (u in old(tickets))
    {
      if u !in tickets {
        queued := queued - {u};
        return false;
      }
      EraseUser(u, tickets[u]);
      queued := queued - {u};
      return true;
    }

    method EraseUser(u: UserId, t: Ticket)
      modifies this`pools, this`tickets
      ensures View() == Erase(old(View()), u, Some(t))
    {
      var pool := if KeyOf(t) in pools then pools[KeyOf(t)] else [];
      pools := pools[KeyOf(t) := ZRem(pool, u)];
      tickets := tickets - {u};
    }

    method Claim(a: UserId, b: UserId) returns (claimed: bool)
      modifies this
      ensures (View(), claimed) == ClaimPair(old(View()), a, b)
    {
      if a !in queued || b !in queued {
        return false;
      }
      queued := queued - {a, b};
      var ta := GetTicket(View(), a);
      var tb := GetTicket(View(), b);
      if ta.Some? {
        EraseUser(a, ta.value);
      }
      if tb.Some? {
        EraseUser(b, tb.value);
      }
      return true;
    }

    method HydrateIds(ids: seq<UserId>) returns (found: seq<Ticket>)
      ensures found == Hydrate(View(), ids)
    {
      found := [];
      for i := 0 to |ids|
        invariant found + Hydrate(View(), ids[i..]) == Hydrate(View(), ids)
      {
        if ids[i] in tickets {
          found := found + [tickets[ids[i]]];
        }
      }
    }

    method FindCandidates(k: PoolKey, rating: int, window: real, exclude: UserId) returns (cs: seq<Ticket>)
      ensures cs == Candidates(View(), k, rating, window, exclude)
    {
      var ids := ZRangeByScore(Pool(View(), k), rating as real - window, rating as real + window);
      var found := HydrateIds(Without(ids, exclude));
      cs := StableSort.Sort(found, Nearer(rating));
    }

    method ListPool(k: PoolKey) returns (ts: seq<Ticket>)
      ensures ts == PoolTickets(View(), k)
    {
      ts := HydrateIds(ZRange(Pool(View(), k)));
    }
  }
}
