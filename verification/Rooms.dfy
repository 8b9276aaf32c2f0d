/**
  Socket rooms: who is in a room is kept twice, as the room's member set and as the keys of its presence
  hash, next to the record that names the owner.

  `Rooms` is a snapshot of the three stores; each handler of the gateway is one step.  Which member a leave
  promotes depends on the order in which the store lists the presence hash, so the step says whom it lists first.
*/
module Rooms {
  import opened Wrappers

  type RoomId = string

  datatype RoomType = BATTLE | COLLABORATION | INTERVIEW

  datatype PresenceState = ONLINE | IDLE | OFFLINE

  datatype Record = Record(kind: RoomType, ownerId: UserId, capacity: nat, createdAt: int)

  datatype Participant = Participant(state: PresenceState, typing: bool, focused: bool, joinedAt: int)

  datatype Patch = SetState(state: PresenceState) | SetFocused(focused: bool) | SetTyping(typing: bool)

  datatype Rooms = Rooms(
    records: map<RoomId, Record>,
    members: map<RoomId, set<UserId>>,
    presence: map<RoomId, map<UserId, Participant>>)

  datatype RoomError = RoomNotFound | RoomFull | Unauthorized | NotAMember

  // What the stores hold of a room, as the manager reads it.
  datatype Room = Room(record: Record, memberIds: set<UserId>)

  type Capacity = RoomType -> nat

  const Empty := Rooms(map[], map[], map[])

  function MembersOf(s: Rooms, r: RoomId): set<UserId> {
    if r in s.members then s.members[r] else {}
  }

  function PresenceOf(s: Rooms, r: RoomId): map<UserId, Participant> {
    if r in s.presence then s.presence[r] else map[]
  }

  function RoomOf(s: Rooms, r: RoomId): Option<Room> {
    if r in s.records then Some(Room(s.records[r], MembersOf(s, r))) else None
  }

  function SetMembers(s: Rooms, r: RoomId, ms: set<UserId>): Rooms {
    s.(members := s.members[r := ms])
  }

  function SetPresence(s: Rooms, r: RoomId, p: map<UserId, Participant>): Rooms {
    s.(presence := s.presence[r := p])
  }

  function SetOwner(s: Rooms, r: RoomId, u: UserId): Rooms
    requires r in s.records
  {
    s.(records := s.records[r := s.records[r].(ownerId := u)])
  }

  // ── the handlers ─────────────────────────────────────────────────

  function Create(cap: Capacity, s: Rooms, u: UserId, kind: RoomType, r: RoomId, now: int): Rooms {
    if r in s.records then s else s.(records := s.records[r := Record(kind, u, cap(kind), now)])
  }

  function JoinRefusal(s: Rooms, u: UserId, r: RoomId): Option<RoomError> {
    if r !in s.records then Some(RoomNotFound)
    else if u !in MembersOf(s, r) && |MembersOf(s, r)| >= s.records[r].capacity then Some(RoomFull)
    else None
  }

  function Join(s: Rooms, u: UserId, r: RoomId, now: int): Rooms {
    if JoinRefusal(s, u, r).Some? then s
    else SetPresence(SetMembers(s, r, MembersOf(s, r) + {u}), r,
         PresenceOf(s, r)[u := Participant(ONLINE, false, true, now)])
  }

  function Erase(s: Rooms, r: RoomId): Rooms {
    Rooms(s.records - {r}, s.members - {r}, s.presence - {r})
  }

  // The stores after presence and membership of the leaver are gone, and before anybody is promoted.
  function Without(s: Rooms, u: UserId, r: RoomId): Rooms {
    var s1 := SetPresence(s, r, PresenceOf(s, r) - {u});
    if r !in s.records then s1
    else
      var s2 := SetMembers(s1, r, MembersOf(s, r) - {u});
      if MembersOf(s2, r) == {} then Erase(s2, r) else s2
  }

  function Promote(s: Rooms, r: RoomId, first: UserId): Rooms {
    if r !in s.records || PresenceOf(s, r) == map[] || s.records[r].ownerId in PresenceOf(s, r) then s
    else SetOwner(s, r, first)
  }

  // The store can list `first` first.
  predicate ListedFirst(s: Rooms, u: UserId, r: RoomId, first: UserId) {
    var present := PresenceOf(Without(s, u, r), r);
    present == map[] || first in present
  }

  function Leave(s: Rooms, u: UserId, r: RoomId, first: UserId): Rooms {
    Promote(Without(s, u, r), r, first)
  }

  function DeleteRefusal(s: Rooms, u: UserId, r: RoomId): Option<RoomError> {
    if r !in s.records then Some(RoomNotFound) else if s.records[r].ownerId != u then Some(Unauthorized) else None
  }

  function Delete(s: Rooms, u: UserId, r: RoomId): Rooms {
    if DeleteRefusal(s, u, r).Some? then s else Erase(s, r)
  }

  function TransferRefusal(s: Rooms, u: UserId, r: RoomId, heir: UserId): Option<RoomError> {
    if r !in s.records then Some(RoomNotFound)
    else if s.records[r].ownerId != u then Some(Unauthorized)
    else if heir !in MembersOf(s, r) then Some(NotAMember)
    else None
  }

  function Transfer(s: Rooms, u: UserId, r: RoomId, heir: UserId): Rooms {
    if TransferRefusal(s, u, r, heir).Some? then s else SetOwner(s, r, heir)
  }

  function Patched(p: Participant, patch: Patch): Participant {
    match patch
    case SetState(state) => p.(state := state)
    case SetFocused(focused) => p.(focused := focused, state := if focused then ONLINE else IDLE)
    case SetTyping(typing) => p.(typing := typing)
  }

  // Only a participant who is present is updated.
  function Update(s: Rooms, u: UserId, r: RoomId, patch: Patch): Rooms {
    if u in PresenceOf(s, r) then SetPresence(s, r, PresenceOf(s, r)[u := Patched(PresenceOf(s, r)[u], patch)]) else s
  }

  datatype Step =
    | CreateRoom(user: UserId, room: RoomId, kind: RoomType, now: int)
    | JoinRoom(user: UserId, room: RoomId, now: int)
    | LeaveRoom(user: UserId, room: RoomId, first: UserId)
    | DeleteRoom(user: UserId, room: RoomId)
    | TransferRoom(user: UserId, room: RoomId, heir: UserId)
    | UpdatePresence(user: UserId, room: RoomId, patch: Patch)

  // A leave in which the store lists an absent user first cannot happen, and is no step.
  function Do(cap: Capacity, s: Rooms, step: Step): Rooms {
    match step
    case CreateRoom(u, r, kind, now) => Create(cap, s, u, kind, r, now)
    case JoinRoom(u, r, now) => Join(s, u, r, now)
    case LeaveRoom(u, r, first) => if ListedFirst(s, u, r, first) then Leave(s, u, r, first) else s
    case DeleteRoom(u, r) => Delete(s, u, r)
    case TransferRoom(u, r, heir) => Transfer(s, u, r, heir)
    case UpdatePresence(u, r, patch) => Update(s, u, r, patch)
  }

  function Run(cap: Capacity, s: Rooms, steps: seq<Step>): Rooms
    decreases |steps|
  {
    if steps == [] then s else Run(cap, Do(cap, s, steps[0]), steps[1..])
  }

  // ── what every run keeps ─────────────────────────────────────────

  ghost predicate RoomAgrees(cap: Capacity, s: Rooms, r: RoomId) {
    && MembersOf(s, r) == PresenceOf(s, r).Keys
    && (r in s.records ==>
          s.records[r].capacity == cap(s.records[r].kind) && |MembersOf(s, r)| <= s.records[r].capacity)
    && (r !in s.records ==> MembersOf(s, r) == {})
  }

  ghost predicate Invariant(cap: Capacity, s: Rooms) {
    forall r :: RoomAgrees(cap, s, r)
  }

  ghost predicate OwnerInside(s: Rooms, r: RoomId) {
    r in s.records && s.records[r].ownerId in MembersOf(s, r)
  }

  ghost predicate SameRoom(s: Rooms, s': Rooms, r: RoomId) {
    MembersOf(s', r) == MembersOf(s, r) && PresenceOf(s', r) == PresenceOf(s, r) && RoomOf(s', r) == RoomOf(s, r)
  }

  lemma WithoutElsewhere(s: Rooms, u: UserId, r: RoomId, q: RoomId)
    requires q != r
    ensures SameRoom(s, Without(s, u, r), q)
  {
  }

  lemma OtherRoomsStay(cap: Capacity, s: Rooms, step: Step, r: RoomId)
    requires r != step.room
    ensures SameRoom(s, Do(cap, s, step), r)
  {
    hide Without, ListedFirst, JoinRefusal;
    if step.LeaveRoom? {
      WithoutElsewhere(s, step.user, step.room, r);
    }
  }

  lemma FewerMembers(ms: set<UserId>, u: UserId)
    ensures |ms - {u}| <= |ms| && |ms + {u}| == (if u in ms then |ms| else |ms| + 1)
  {
    if u in ms {
      assert ms + {u} == ms && ms == (ms - {u}) + {u};
    } else {
      assert ms - {u} == ms;
    }
  }

  lemma JoinAgrees(cap: Capacity, s: Rooms, u: UserId, r: RoomId, now: int)
    requires RoomAgrees(cap, s, r)
    ensures RoomAgrees(cap, Join(s, u, r, now), r)
    ensures OwnerInside(s, r) ==> OwnerInside(Join(s, u, r, now), r)
  {
    FewerMembers(MembersOf(s, r), u);
  }

  lemma WithoutAgrees(cap: Capacity, s: Rooms, u: UserId, r: RoomId)
    requires RoomAgrees(cap, s, r)
    ensures var s' := Without(s, u, r);
            && RoomAgrees(cap, s', r) && MembersOf(s', r) == MembersOf(s, r) - {u}
            && (r in s'.records <==> r in s.records && MembersOf(s', r) != {})
            && (r in s'.records ==> s'.records[r] == s.records[r])
  {
    FewerMembers(MembersOf(s, r), u);
    assert PresenceOf(SetPresence(s, r, PresenceOf(s, r) - {u}), r).Keys == PresenceOf(s, r).Keys - {u};
  }

  lemma PromoteAgrees(cap: Capacity, s: Rooms, r: RoomId, first: UserId)
    requires RoomAgrees(cap, s, r) && (PresenceOf(s, r) == map[] || first in PresenceOf(s, r))
    ensures var s' := Promote(s, r, first);
            && RoomAgrees(cap, s', r) && MembersOf(s', r) == MembersOf(s, r)
            && (r in s.records && MembersOf(s, r) != {} ==> OwnerInside(s', r))
  {
  }

  /**
    After any leave, the leaver is no longer a member, nobody else was removed, a room that was emptied is
    gone, and a room that still has members has one of them as its owner, whoever was owner before.
  */
  lemma LeaveSettlesOwnership(cap: Capacity, s: Rooms, u: UserId, r: RoomId, first: UserId)
    requires RoomAgrees(cap, s, r) && ListedFirst(s, u, r, first)
    ensures var s' := Leave(s, u, r, first);
            && RoomAgrees(cap, s', r) && MembersOf(s', r) == MembersOf(s, r) - {u}
            && (r in s'.records <==> MembersOf(s', r) != {})
            && (r in s'.records ==> OwnerInside(s', r))
            && (r in s'.records && s.records[r].ownerId in MembersOf(s', r) ==> s'.records[r] == s.records[r])
  {
    hide Without, Promote;
    WithoutAgrees(cap, s, u, r);
    PromoteAgrees(cap, Without(s, u, r), r, first);
    PromoteKeeps(Without(s, u, r), r, first);
  }

  lemma PromoteKeeps(s: Rooms, r: RoomId, first: UserId)
    ensures var s' := Promote(s, r, first);
            && s'.records.Keys == s.records.Keys
            && (r in s.records && s.records[r].ownerId in PresenceOf(s, r) ==> s' == s)
  {
  }

  lemma UpdateAgrees(cap: Capacity, s: Rooms, u: UserId, r: RoomId, patch: Patch)
    requires RoomAgrees(cap, s, r)
    ensures RoomAgrees(cap, Update(s, u, r, patch), r)
    ensures OwnerInside(s, r) ==> OwnerInside(Update(s, u, r, patch), r)
  {
  }

  lemma StepKeepsRoom(cap: Capacity, s: Rooms, step: Step, r: RoomId)
    requires RoomAgrees(cap, s, r)
    ensures RoomAgrees(cap, Do(cap, s, step), r)
    ensures OwnerInside(s, r) && r in Do(cap, s, step).records ==> OwnerInside(Do(cap, s, step), r)
  {
    if r != step.room {
      OtherRoomsStay(cap, s, step, r);
    } else {
      hide Join, Leave, Update, ListedFirst;
      match step
      case JoinRoom(u, _, now) => JoinAgrees(cap, s, u, r, now);
      case LeaveRoom(u, _, first) => if ListedFirst(s, u, r, first) { LeaveSettlesOwnership(cap, s, u, r, first); }
      case UpdatePresence(u, _, patch) => UpdateAgrees(cap, s, u, r, patch);
      case _ =>
    }
  }

  /** Over every run the two books of each room name the same people, and never more than the room's capacity. */
  lemma {:induction false} RunKeepsInvariant(cap: Capacity, s: Rooms, steps: seq<Step>)
    requires Invariant(cap, s)
    ensures Invariant(cap, Run(cap, s, steps))
    decreases |steps|
  {
    hide RoomAgrees, Do;
    if steps != [] {
      forall r ensures RoomAgrees(cap, Do(cap, s, steps[0]), r) {
        assert RoomAgrees(cap, s, r);
        StepKeepsRoom(cap, s, steps[0], r);
      }
      RunKeepsInvariant(cap, Do(cap, s, steps[0]), steps[1..]);
    }
  }

  /** From empty stores, every run keeps the books. */
  lemma RunFromEmpty(cap: Capacity, steps: seq<Step>)
    ensures Invariant(cap, Run(cap, Empty, steps))
  {
    RunKeepsInvariant(cap, Empty, steps);
  }

  ghost predicate OpenThroughout(cap: Capacity, s: Rooms, steps: seq<Step>, r: RoomId)
    decreases |steps|
  {
    r in s.records && (steps != [] ==> OpenThroughout(cap, Do(cap, s, steps[0]), steps[1..], r))
  }

  /** Once a room's owner is a member, its owner is a member for as long as the room stays open. */
  lemma {:induction false} OwnerStaysInside(cap: Capacity, s: Rooms, steps: seq<Step>, r: RoomId)
    requires RoomAgrees(cap, s, r) && OwnerInside(s, r) && OpenThroughout(cap, s, steps, r)
    ensures OwnerInside(Run(cap, s, steps), r)
    decreases |steps|
  {
    hide RoomAgrees, Do, OwnerInside;
    if steps != [] {
      StepKeepsRoom(cap, s, steps[0], r);
      assert r in Do(cap, s, steps[0]).records;
      OwnerStaysInside(cap, Do(cap, s, steps[0]), steps[1..], r);
    }
  }

  lemma WithoutUndoesJoin(s: Rooms, u: UserId, r: RoomId, now: int)
    requires u !in MembersOf(s, r) && MembersOf(s, r) == PresenceOf(s, r).Keys && MembersOf(s, r) != {}
    requires JoinRefusal(s, u, r).None?
    ensures Without(Join(s, u, r, now), u, r) == s
  {
    var p, ms := PresenceOf(s, r), MembersOf(s, r);
    assert p[u := Participant(ONLINE, false, true, now)] - {u} == p;
    assert ms + {u} - {u} == ms;
    var joined := Join(s, u, r, now);
    assert joined.members[r := ms] == s.members;
    assert joined.presence[r := p] == s.presence;
  }

  /**
    Leaving undoes joining exactly when the owner is in the room: a user who was let in and leaves again
    leaves all three stores as they were, unless the owner was absent.
  */
  lemma LeaveUndoesJoin(cap: Capacity, s: Rooms, u: UserId, r: RoomId, now: int, first: UserId)
    requires RoomAgrees(cap, s, r) && u !in MembersOf(s, r) && JoinRefusal(s, u, r).None?
    requires ListedFirst(Join(s, u, r, now), u, r, first)
    ensures Leave(Join(s, u, r, now), u, r, first) == s <==> OwnerInside(s, r)
  {
    hide Join, Without, ListedFirst;
    JoinAgrees(cap, s, u, r, now);
    if OwnerInside(s, r) {
      WithoutUndoesJoin(s, u, r, now);
      PromoteKeeps(s, r, first);
    } else {
      LeaveSettlesOwnership(cap, Join(s, u, r, now), u, r, first);
    }
  }

  /**
    A leave by somebody who is not a member closes a room that nobody has joined yet, and changes no membership
    otherwise.
  */
  lemma StrangerLeaves(cap: Capacity, s: Rooms, u: UserId, r: RoomId, first: UserId)
    requires RoomAgrees(cap, s, r) && u !in MembersOf(s, r) && ListedFirst(s, u, r, first)
    ensures var s' := Leave(s, u, r, first);
            && MembersOf(s', r) == MembersOf(s, r)
            && (r in s.records && r !in s'.records <==> r in s.records && MembersOf(s, r) == {})
  {
    hide Leave, ListedFirst;
    LeaveSettlesOwnership(cap, s, u, r, first);
  }

  // ── the stores and the handlers ──────────────────────────────────

  class RoomService {
    const cap: Capacity
    var records: map<RoomId, Record>
    var members: map<RoomId, set<UserId>>
    var presence: map<RoomId, map<UserId, Participant>>

    function View(): Rooms
      reads this
    {
      Rooms(records, members, presence)
    }

    constructor (cap: Capacity)
      ensures View() == Empty && this.cap == cap
    {
      this.cap := cap;
      records, members, presence := map[], map[], map[];
    }

    method CreateRoom(u: UserId, kind: RoomType, r: RoomId, now: int) returns (room: Room)
      modifies this`records
      ensures View() == Create(cap, old(View()), u, kind, r, now)
      ensures RoomOf(View(), r).Some? && room.record == RoomOf(View(), r).value.record
      ensures old(RoomOf(View(), r)).Some? ==> room == old(RoomOf(View(), r)).value && View() == old(View())
    {
      var existing := RoomOf(View(), r);
      if existing.Some? {
        return existing.value;
      }
      room := Room(Record(kind, u, cap(kind), now), {});
      records := records[r := room.record];
    }

    method JoinRoom(u: UserId, r: RoomId) returns (result: Result<Room, RoomError>)
      modifies this`members
      ensures match result
              case Failure(e) => JoinRefusal(old(View()), u, r) == Some(e) && View() == old(View())
              case Success(room) =>
                && JoinRefusal(old(View()), u, r).None?
                && View() == SetMembers(old(View()), r, old(MembersOf(View(), r)) + {u})
                && RoomOf(View(), r) == Some(room)
    {
      var existing := RoomOf(View(), r);
      if existing.None? {
        return Failure(RoomNotFound);
      }
      var room := existing.value;
      if u !in room.memberIds && |MembersOf(View(), r)| >= room.record.capacity {
        return Failure(RoomFull);
      }
      members := members[r := MembersOf(View(), r) + {u}];
      result := Success(Room(room.record, members[r]));
    }

    method HandleJoin(u: UserId, r: RoomId, now: int) returns (result: Result<Room, RoomError>)
      modifies this
      ensures View() == Join(old(View()), u, r, now)
      ensures result.Failure? <==> JoinRefusal(old(View()), u, r).Some?
      ensures result.Failure? ==> JoinRefusal(old(View()), u, r) == Some(result.error)
      ensures result.Success? ==> RoomOf(View(), r) == Some(result.value)
    {
      result := JoinRoom(u, r);
      if result.Success? {
        presence := presence[r := PresenceOf(View(), r)[u := Participant(ONLINE, false, true, now)]];
      }
    }

    method EraseRoom(r: RoomId)
      modifies this
      ensures View() == Erase(old(View()), r)
    {
      records := records - {r};
      members := members - {r};
      presence := presence - {r};
    }

    // Membership only; the caller has already removed the presence.
    method LeaveRoom(u: UserId, r: RoomId) returns (room: Option<Room>, ownerLeft: bool)
      modifies this
      ensures var s := old(View());
              View() == if r !in s.records then s
                        else var s1 := SetMembers(s, r, MembersOf(s, r) - {u});
                             if MembersOf(s1, r) == {} then Erase(s1, r) else s1
      ensures room == RoomOf(View(), r)
      ensures ownerLeft <==> r in old(records) && old(records)[r].ownerId == u
    {
      var existing := RoomOf(View(), r);
      if existing.None? {
        return None, false;
      }
      members := members[r := MembersOf(View(), r) - {u}];
      ownerLeft := existing.value.record.ownerId == u;
      if |MembersOf(View(), r)| == 0 {
        EraseRoom(r);
        return None, ownerLeft;
      }
      room := RoomOf(View(), r);
    }

    method OwnerDisconnected(r: RoomId, remaining: seq<UserId>) returns (promoted: Option<UserId>)
      requires forall u :: u in remaining <==> u in PresenceOf(View(), r)
      modifies this`records
      ensures View() == if remaining == [] then old(View()) else Promote(old(View()), r, remaining[0])
      ensures promoted.Some? <==> remaining != [] && r in old(records) && old(records)[r].ownerId !in remaining
      ensures promoted.Some? ==> promoted.value in remaining && records[r].ownerId == promoted.value
    {
      if r !in records || remaining == [] {
        return None;
      }
      if records[r].ownerId in remaining {
        assert remaining[0] in PresenceOf(View(), r);
        return None;
      }
      assert remaining[0] in PresenceOf(View(), r);
      records := records[r := records[r].(ownerId := remaining[0])];
      promoted := Some(remaining[0]);
    }

    // The store lists the hash in an order of its own.
    method ListPresent(r: RoomId) returns (listing: seq<UserId>)
      ensures forall u :: u in listing <==> u in PresenceOf(View(), r)
      ensures forall i, j :: 0 <= i < j < |listing| ==> listing[i] != listing[j]
    {
      listing := [];
      var left := PresenceOf(View(), r).Keys;
      while left != {}
        invariant forall u :: u in listing || u in left <==> u in PresenceOf(View(), r)
        invariant forall u :: u in listing ==> u !in left
        invariant forall i, j :: 0 <= i < j < |listing| ==> listing[i] != listing[j]
        decreases |left|
      {
        var u :| u in left;
        listing := listing + [u];
        left := left - {u};
      }
    }

    method HandleLeave(u: UserId, r: RoomId) returns (promoted: Option<UserId>)
      modifies this
      ensures exists first :: ListedFirst(old(View()), u, r, first) && View() == Leave(old(View()), u, r, first)
    {
      ghost var s := View();
      presence := presence[r := PresenceOf(View(), r) - {u}];
      var room, _ := LeaveRoom(u, r);
      assert View() == Without(s, u, r);
      promoted := None;
      if room.Some? {
        var remaining := ListPresent(r);
        promoted := OwnerDisconnected(r, remaining);
        if remaining == [] {
          assert PresenceOf(Without(s, u, r), r) == map[];
          assert ListedFirst(s, u, r, u) && View() == Leave(s, u, r, u);
        } else {
          assert ListedFirst(s, u, r, remaining[0]) && View() == Leave(s, u, r, remaining[0]);
        }
      } else {
        LeftNothing(s, u, r);
      }
    }

    method HandleDelete(u: UserId, r: RoomId) returns (result: Result<Room, RoomError>)
      modifies this
      ensures View() == Delete(old(View()), u, r)
      ensures r !in old(records) ==> result == Failure(RoomNotFound) && View() == old(View())
      ensures r in old(records) && old(records[r]).ownerId != u
              ==> result == Failure(Unauthorized) && View() == old(View())
      ensures r in old(records) && old(records[r]).ownerId == u ==>
                result == Success(old(RoomOf(View(), r)).value) && r !in records && r !in members && r !in presence
      ensures result.Failure? <==> DeleteRefusal(old(View()), u, r).Some?
      ensures result.Failure? ==> DeleteRefusal(old(View()), u, r) == Some(result.error)
    {
      var existing := RoomOf(View(), r);
      if existing.None? {
        return Failure(RoomNotFound);
      }
      if existing.value.record.ownerId != u {
        return Failure(Unauthorized);
      }
      EraseRoom(r);
      result := Success(existing.value);
    }

    method HandleTransfer(u: UserId, r: RoomId, heir: UserId) returns (result: Result<Room, RoomError>)
      modifies this`records
      ensures View() == Transfer(old(View()), u, r, heir)
      ensures result.Success?
              <==> r in old(records) && old(records[r]).ownerId == u && heir in old(MembersOf(View(), r))
      ensures result.Success? ==> records == old(records)[r := old(records[r]).(ownerId := heir)]
      ensures result.Failure? <==> TransferRefusal(old(View()), u, r, heir).Some?
      ensures result.Failure? ==> TransferRefusal(old(View()), u, r, heir) == Some(result.error)
      ensures result.Success? ==> RoomOf(View(), r) == Some(result.value)
    {
      var existing := RoomOf(View(), r);
      if existing.None? {
        return Failure(RoomNotFound);
      }
      var room := existing.value;
      if room.record.ownerId != u {
        return Failure(Unauthorized);
      }
      if heir !in room.memberIds {
        return Failure(NotAMember);
      }
      records := records[r := records[r].(ownerId := heir)];
      result := Success(room.(record := room.record.(ownerId := heir)));
    }

    method UpdateParticipant(u: UserId, r: RoomId, patch: Patch) returns (updated: Option<Participant>)
      modifies this`presence
      ensures View() == Update(old(View()), u, r, patch)
      ensures updated == if u in old(PresenceOf(View(), r)) then Some(PresenceOf(View(), r)[u]) else None
    {
      var room := PresenceOf(View(), r);
      if u !in room {
        return None;
      }
      var next := Patched(room[u], patch);
      presence := presence[r := room[u := next]];
      updated := Some(next);
    }
  }

  // With the room gone there is nobody to promote.
  lemma LeftNothing(s: Rooms, u: UserId, r: RoomId)
    requires r !in Without(s, u, r).records
    ensures exists first :: ListedFirst(s, u, r, first) && Without(s, u, r) == Leave(s, u, r, first)
  {
    var present := PresenceOf(Without(s, u, r), r);
    var first :| present == map[] || first in present;
    assert ListedFirst(s, u, r, first) && Without(s, u, r) == Leave(s, u, r, first);
  }
}
