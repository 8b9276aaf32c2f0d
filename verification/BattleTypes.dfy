/** What a battle is: its runtime record, its durable status, and the edges of its life cycle. */
module BattleTypes {
  import opened Wrappers

  datatype RuntimeState = WAITING | COUNTDOWN | ACTIVE | PAUSED | FINISHED | CANCELLED | EXPIRED

  datatype BattleStatus = Scheduled | InProgress | Finished | Aborted

  datatype BattleMode = OneVsOne | FreeForAll | Team

  datatype RuntimeBattle = RuntimeBattle(
    hostId: UserId,
    mode: BattleMode,
    rated: bool,
    state: RuntimeState,
    participantIds: seq<UserId>,
    startedAt: Option<int>,
    durationMs: int,
    pausedAt: Option<int>,
    winnerId: Option<UserId>)

  function Transitions(from: RuntimeState): set<RuntimeState> {
    match from
    case WAITING => {COUNTDOWN, CANCELLED, EXPIRED}
    case COUNTDOWN => {ACTIVE, CANCELLED}
    case ACTIVE => {PAUSED, FINISHED, EXPIRED}
    case PAUSED => {ACTIVE, FINISHED, EXPIRED}
    case FINISHED => {}
    case CANCELLED => {}
    case EXPIRED => {}
  }

  predicate CanTransition(from: RuntimeState, to: RuntimeState) {
    to in Transitions(from)
  }

  function ToPersistedStatus(s: RuntimeState): BattleStatus {
    match s
    case WAITING => Scheduled
    case COUNTDOWN => Scheduled
    case ACTIVE => InProgress
    case PAUSED => InProgress
    case FINISHED => Finished
    case CANCELLED => Aborted
    case EXPIRED => Aborted
  }
}
