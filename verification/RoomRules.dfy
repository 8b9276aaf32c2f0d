/**
  Who may do what to a socket room: what opens and closes it, who gets in, and
  how ownership moves, for every step of the handlers.
*/
module RoomRules {
  import opened Wrappers
  import opened Rooms

  // A step that the gateway can take: a leave lists a user first who is there.
  predicate Possible(s: Rooms, step: Step) {
    step.LeaveRoom? ==> ListedFirst(s, step.user, step.room, step.first)
  }

  predicate Owns(s: Rooms, u: UserId, r: RoomId) {
    r in s.records && s.records[r].ownerId == u
  }

  // ── opening and closing ──────────────────────────────────────────

  /**
    An open room is closed by a step if and only if its owner deletes it, or somebody leaves and nobody is
    left in it. Then nothing of it remains.
  */
  lemma RoomClosesExactly(cap: Capacity, s: Rooms, step: Step, r: RoomId)
    requires RoomAgrees(cap, s, r) && r in s.records && Possible(s, step)
    ensures var s' := Do(cap, s, step);
            && (r !in s'.records <==>
                  step.room == r && ((step.DeleteRoom? && Owns(s, step.user, r))
                                     || (step.LeaveRoom? && MembersOf(s, r) - {step.user} == {})))
            && (r !in s'.records ==> MembersOf(s', r) == {} && PresenceOf(s', r) == map[])
  {
    if r != step.room {
      OtherRoomsStay(cap, s, step, r);
    } else if step.LeaveRoom? {
      hide Leave, ListedFirst;
      LeaveSettlesOwnership(cap, s, step.user, r, step.first);
    }
  }

  /**
    A closed room is opened only by a create, which makes its caller the owner of an empty room of the type's
    capacity.
  */
  lemma RoomOpensExactly(cap: Capacity, s: Rooms, step: Step, r: RoomId)
    requires RoomAgrees(cap, s, r) && r !in s.records && Possible(s, step)
    ensures var s' := Do(cap, s, step);
            && (r in s'.records <==> step.CreateRoom? && step.room == r)
            && (r in s'.records ==>
                  s'.records[r] == Record(step.kind, step.user, cap(step.kind), step.now) && MembersOf(s', r) == {})
  {
    if r != step.room {
      OtherRoomsStay(cap, s, step, r);
    } else if step.LeaveRoom? {
      hide Leave, ListedFirst;
      LeaveSettlesOwnership(cap, s, step.user, r, step.first);
    }
  }

  /**
    Nobody but the owner deletes a room: any other delete changes nothing, and is refused with
    Unauthorized if the room is open and with RoomNotFound if it is not; the owner is never refused.
  */
  lemma OnlyOwnersDelete(cap: Capacity, s: Rooms, u: UserId, r: RoomId)
    ensures !Owns(s, u, r) ==> Do(cap, s, DeleteRoom(u, r)) == s
    ensures DeleteRefusal(s, u, r) == Some(RoomNotFound) <==> r !in s.records
    ensures DeleteRefusal(s, u, r) == Some(Unauthorized) <==> r in s.records && s.records[r].ownerId != u
    ensures DeleteRefusal(s, u, r).None? <==> Owns(s, u, r)
  {
  }

  // ── members ──────────────────────────────────────────────────────

  predicate MayEnter(s: Rooms, u: UserId, r: RoomId) {
    r in s.records && (u in MembersOf(s, r) || |MembersOf(s, r)| < s.records[r].capacity)
  }

  // Who is a member of a room that is open after the step.
  function MembersAfter(s: Rooms, step: Step, r: RoomId): set<UserId> {
    if step.room != r then MembersOf(s, r)
    else if step.JoinRoom? && MayEnter(s, step.user, r) then MembersOf(s, r) + {step.user}
    else if step.LeaveRoom? then MembersOf(s, r) - {step.user}
    else if step.DeleteRoom? && Owns(s, step.user, r) then {}
    else MembersOf(s, r)
  }

  /**
    Members come by joining an open room with a place free, or their own, and go by leaving; nobody is moved by
    others, except when the owner deletes the room.
  */
  lemma MembersMoveExactly(cap: Capacity, s: Rooms, step: Step, r: RoomId)
    requires RoomAgrees(cap, s, r) && Possible(s, step)
    ensures MembersOf(Do(cap, s, step), r) == MembersAfter(s, step, r)
  {
    hide Leave, ListedFirst, Join, Update, SameRoom, Delete;
    if r != step.room {
      OtherRoomsStay(cap, s, step, r);
      SameMembers(s, Do(cap, s, step), r);
    } else {
      match step
      case JoinRoom(u, _, now) => JoinMembers(s, u, r, now);
      case LeaveRoom(u, _, first) => LeaveSettlesOwnership(cap, s, u, r, first);
      case UpdatePresence(u, _, patch) => UpdateMembers(s, u, r, patch);
      case DeleteRoom(u, _) => DeleteMembers(s, u, r);
      case _ =>
    }
  }

  lemma SameMembers(s: Rooms, s': Rooms, r: RoomId)
    requires SameRoom(s, s', r)
    ensures MembersOf(s', r) == MembersOf(s, r)
  {
  }

  lemma JoinMembers(s: Rooms, u: UserId, r: RoomId, now: int)
    ensures MembersOf(Join(s, u, r, now), r) == if MayEnter(s, u, r) then MembersOf(s, r) + {u} else MembersOf(s, r)
  {
  }

  lemma UpdateMembers(s: Rooms, u: UserId, r: RoomId, patch: Patch)
    ensures MembersOf(Update(s, u, r, patch), r) == MembersOf(s, r)
  {
  }

  lemma DeleteMembers(s: Rooms, u: UserId, r: RoomId)
    ensures MembersOf(Delete(s, u, r), r) == if Owns(s, u, r) then {} else MembersOf(s, r)
  {
  }

  /**
    A join is refused exactly if the room is not there, or full to somebody who is not in it; it never throws
    anybody out.
  */
  lemma JoinsRefusedExactly(s: Rooms, u: UserId, r: RoomId)
    ensures JoinRefusal(s, u, r) == Some(RoomNotFound) <==> r !in s.records
    ensures JoinRefusal(s, u, r) == Some(RoomFull) <==> r in s.records && !MayEnter(s, u, r)
    ensures JoinRefusal(s, u, r).None? <==> MayEnter(s, u, r)
  {
  }

  // ── ownership ────────────────────────────────────────────────────

  // The owner of a room that is open before and after the step.
  function OwnerAfter(s: Rooms, step: Step, r: RoomId): UserId
    requires r in s.records
  {
    var owner, left := s.records[r].ownerId, MembersOf(s, r) - {step.user};
    if step.room != r then owner
    else if step.TransferRoom? && step.user == owner && step.heir in MembersOf(s, r) then step.heir
    else if step.LeaveRoom? && owner !in left then step.first
    else owner
  }

  /**
    Ownership moves in two ways only: the owner hands it to a member, or somebody leaves while the owner is
    not among those who stay, and the one listed first inherits. Type, capacity and age never change.
  */
  lemma OwnershipMovesExactly(cap: Capacity, s: Rooms, step: Step, r: RoomId)
    requires RoomAgrees(cap, s, r) && Possible(s, step) && r in s.records && r in Do(cap, s, step).records
    ensures Do(cap, s, step).records[r] == s.records[r].(ownerId := OwnerAfter(s, step, r))
  {
    hide Leave, ListedFirst, Join, Update, SameRoom;
    if r != step.room {
      OtherRoomsStay(cap, s, step, r);
      SameRecord(s, Do(cap, s, step), r);
    } else if step.LeaveRoom? {
      LeaveInherits(cap, s, step.user, r, step.first);
    } else {
      RecordsStay(s, step, r);
    }
  }

  lemma SameRecord(s: Rooms, s': Rooms, r: RoomId)
    requires SameRoom(s, s', r) && r in s.records && r in s'.records
    ensures s'.records[r] == s.records[r]
  {
  }

  lemma RecordsStay(s: Rooms, step: Step, r: RoomId)
    ensures step.JoinRoom? ==> Join(s, step.user, r, step.now).records == s.records
    ensures step.UpdatePresence? ==> Update(s, step.user, r, step.patch).records == s.records
  {
    hide JoinRefusal;
  }

  lemma LeaveInherits(cap: Capacity, s: Rooms, u: UserId, r: RoomId, first: UserId)
    requires RoomAgrees(cap, s, r) && ListedFirst(s, u, r, first) && r in s.records
             && r in Leave(s, u, r, first).records
    ensures var owner := s.records[r].ownerId;
            Leave(s, u, r, first).records[r]
            == s.records[r].(ownerId := if owner in MembersOf(s, r) - {u} then owner else first)
  {
    hide Without;
    WithoutAgrees(cap, s, u, r);
  }

  /**
    A handover is refused exactly, in this order, if the room is not there, the caller does not own it, or the heir
    is no member.
  */
  lemma HandoversRefusedExactly(s: Rooms, u: UserId, r: RoomId, heir: UserId)
    ensures TransferRefusal(s, u, r, heir) == Some(RoomNotFound) <==> r !in s.records
    ensures TransferRefusal(s, u, r, heir) == Some(Unauthorized) <==> r in s.records && !Owns(s, u, r)
    ensures TransferRefusal(s, u, r, heir) == Some(NotAMember) <==> Owns(s, u, r) && heir !in MembersOf(s, r)
    ensures TransferRefusal(s, u, r, heir).None? <==> Owns(s, u, r) && heir in MembersOf(s, r)
  {
  }

  // ── presence ─────────────────────────────────────────────────────

  /**
    What others see of a participant changes only by that user's own steps; a user who arrives is online
    and focused, and one who looks away is idle.
  */
  lemma PresenceIsOnesOwn(cap: Capacity, s: Rooms, step: Step, r: RoomId, u: UserId)
    requires RoomAgrees(cap, s, r) && Possible(s, step)
    requires u in PresenceOf(s, r) && u in PresenceOf(Do(cap, s, step), r)
    ensures var p, p' := PresenceOf(s, r)[u], PresenceOf(Do(cap, s, step), r)[u];
            && (step.room != r || step.user != u ==> p' == p)
            && (step.room == r && step.user == u && step.JoinRoom? ==>
                  p' == Participant(ONLINE, false, true, step.now))
            && (step.room == r && step.user == u && step.UpdatePresence? && step.patch.SetFocused? ==>
                  p'.focused == step.patch.focused && p'.joinedAt == p.joinedAt && p'.typing == p.typing
                  && p'.state == if p'.focused then ONLINE else IDLE)
            && (step.room == r && step.user == u && step.UpdatePresence? && step.patch.SetTyping? ==>
                  p' == p.(typing := step.patch.typing))
            && (step.room == r && step.user == u && step.UpdatePresence? && step.patch.SetState? ==>
                  p' == p.(state := step.patch.state))
  {
    if r != step.room {
      OtherRoomsStay(cap, s, step, r);
    } else if step.LeaveRoom? {
      LeaveKeepsPresence(s, step.user, r, step.first, u);
    }
  }

  lemma LeaveKeepsPresence(s: Rooms, u: UserId, r: RoomId, first: UserId, v: UserId)
    requires v in PresenceOf(Leave(s, u, r, first), r)
    ensures v != u && v in PresenceOf(s, r) && PresenceOf(Leave(s, u, r, first), r)[v] == PresenceOf(s, r)[v]
  {
  }
}
