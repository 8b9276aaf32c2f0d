/**
  The nonce check of one player in one battle under concurrent requests.

  The stored nonce is read by one command and overwritten by another, so the
  check is no compare-and-set.  Any number of requests, each with its own nonce,
  take their two steps in any order.
*/
module NonceProtocol {
  import opened Wrappers

  type Request = nat

  datatype Phase = Fresh | Read(current: int) | Accepted | Refused

  // `accepted`: the requests that were let through, in order.
  datatype State = State(stored: int, phases: map<Request, Phase>, accepted: seq<Request>)

  // Every request carries a nonce.
  type Nonces = Request -> int

  function PhaseOf(s: State, r: Request): Phase {
    if r in s.phases then s.phases[r] else Fresh
  }

  // A refused request takes its only step when it reads: no command lies between reading and refusing.
  function Do(nonce: Nonces, s: State, r: Request): State {
    match PhaseOf(s, r)
    case Fresh => s.(phases := s.phases[r := if nonce(r) <= s.stored then Refused else Read(s.stored)])
    case Read(_) => State(nonce(r), s.phases[r := Accepted], s.accepted + [r])
    case _ => s
  }

  function Run(nonce: Nonces, s: State, schedule: seq<Request>): State
    decreases |schedule|
  {
    if schedule == [] then s else Run(nonce, Do(nonce, s, schedule[0]), schedule[1..])
  }

  function Initial(stored: int): State {
    State(stored, map[], [])
  }

  // No nonce is let through a second time.
  ghost predicate EachOnce(nonce: Nonces, s: State) {
    forall i, j :: 0 <= i < j < |s.accepted| ==> nonce(s.accepted[i]) != nonce(s.accepted[j])
  }

  lemma RunTwo(nonce: Nonces, s: State, a: Request, b: Request, rest: seq<Request>)
    ensures Run(nonce, s, [a, b] + rest) == Run(nonce, Do(nonce, Do(nonce, s, a), b), rest)
  {
    hide Do;
    var all := [a, b] + rest;
    assert all[1..] == [b] + rest && all[1..][1..] == rest;
  }

  lemma RunFour(nonce: Nonces, s: State, a: Request, b: Request, c: Request, d: Request)
    ensures Run(nonce, s, [a, b, c, d]) == Do(nonce, Do(nonce, Do(nonce, Do(nonce, s, a), b), c), d)
  {
    hide Do;
    assert [a, b, c, d] == [a, b] + [c, d] && [c, d] == [c, d] + [];
    RunTwo(nonce, s, a, b, [c, d]);
    RunTwo(nonce, Do(nonce, Do(nonce, s, a), b), c, d, []);
  }

  // ── over all schedules ───────────────────────────────────────────

  // Each request is let through at most once, and only with a nonce above the first stored one.
  ghost predicate Bookkeeping(nonce: Nonces, start: int, s: State) {
    && start <= s.stored
    && (forall r :: PhaseOf(s, r).Read? ==> nonce(r) > start)
    && (forall i :: 0 <= i < |s.accepted| ==> PhaseOf(s, s.accepted[i]).Accepted? && nonce(s.accepted[i]) > start)
    && forall i, j :: 0 <= i < j < |s.accepted| ==> s.accepted[i] != s.accepted[j]
  }

  lemma StepKeepsBooks(nonce: Nonces, start: int, s: State, r: Request)
    requires Bookkeeping(nonce, start, s)
    ensures Bookkeeping(nonce, start, Do(nonce, s, r))
  {
    var s' := Do(nonce, s, r);
    assert forall x :: x != r ==> PhaseOf(s', x) == PhaseOf(s, x);
  }

  lemma {:induction false} RunKeepsBooks(nonce: Nonces, start: int, s: State, schedule: seq<Request>)
    requires Bookkeeping(nonce, start, s)
    ensures Bookkeeping(nonce, start, Run(nonce, s, schedule))
    decreases |schedule|
  {
    hide Do, Bookkeeping;
    if schedule != [] {
      StepKeepsBooks(nonce, start, s, schedule[0]);
      RunKeepsBooks(nonce, start, Do(nonce, s, schedule[0]), schedule[1..]);
    }
  }

  /** Two requests with one nonce that both read before either writes are both let through. */
  lemma BothLetThrough(nonce: Nonces, stored: int, p: Request, q: Request)
    requires p != q && nonce(p) == nonce(q) > stored
    ensures Run(nonce, Initial(stored), [p, q, p, q]).accepted == [p, q]
  {
    var s1 := Do(nonce, Initial(stored), p);
    var s2 := Do(nonce, s1, q);
    var s3 := Do(nonce, s2, p);
    assert PhaseOf(s1, q) == Fresh && PhaseOf(s2, p) == PhaseOf(s2, q) == Read(stored)
           && PhaseOf(s3, q) == Read(stored);
    RunFour(nonce, Initial(stored), p, q, p, q);
  }

  /**
    Over all schedules a nonce is let through at most once if and only if no two requests carry the same
    nonce above the stored one: against requests that arrive together the check protects nothing.
  */
  lemma EachOnceExactlyWithoutRepeats(nonce: Nonces, stored: int)
    ensures (forall schedule :: EachOnce(nonce, Run(nonce, Initial(stored), schedule)))
            <==> forall p, q :: p != q && nonce(p) == nonce(q) ==> nonce(p) <= stored
  {
    hide Run, Do;
    if p, q :| p != q && nonce(p) == nonce(q) && nonce(p) > stored {
      BothLetThrough(nonce, stored, p, q);
      var r := Run(nonce, Initial(stored), [p, q, p, q]);
      assert nonce(r.accepted[0]) == nonce(r.accepted[1]);
    } else {
      forall schedule ensures EachOnce(nonce, Run(nonce, Initial(stored), schedule)) {
        RunKeepsBooks(nonce, stored, Initial(stored), schedule);
      }
    }
  }

  /** The stored nonce can fall: then a repeat is let through although nothing else happens meanwhile. */
  lemma LateRepeatLetThrough(nonce: Nonces, stored: int, p: Request, q: Request, again: Request)
    requires p != q && again !in {p, q} && stored < nonce(p) < nonce(q) == nonce(again)
    ensures Run(nonce, Run(nonce, Initial(stored), [p, q, q, p]), [again, again]).accepted == [q, p, again]
  {
    var s1 := Do(nonce, Initial(stored), p);
    var s2 := Do(nonce, s1, q);
    assert PhaseOf(s1, q) == Fresh && PhaseOf(s2, q) == PhaseOf(s2, p) == Read(stored) && PhaseOf(s2, again) == Fresh;
    var s3 := Do(nonce, s2, q);
    assert PhaseOf(s3, p) == Read(stored) && PhaseOf(s3, again) == Fresh;
    var s4 := Do(nonce, s3, p);
    assert PhaseOf(s4, again) == Fresh;
    RunFour(nonce, Initial(stored), p, q, q, p);
    var s5 := Do(nonce, s4, again);
    assert PhaseOf(s5, again) == Read(nonce(p));
    assert [again, again] == [again, again] + [];
    RunTwo(nonce, s4, again, again, []);
  }

  // ── on one schedule ──────────────────────────────────────────────

  ghost predicate Increasing(nonce: Nonces, accepted: seq<Request>) {
    forall i, j :: 0 <= i < j < |accepted| ==> nonce(accepted[i]) < nonce(accepted[j])
  }

  // What a compare-and-set would check: the nonce is still above the stored one when it is written.
  predicate StillAbove(nonce: Nonces, s: State, r: Request) {
    PhaseOf(s, r).Read? ==> s.stored < nonce(r)
  }

  ghost predicate AllStillAbove(nonce: Nonces, s: State, schedule: seq<Request>)
    decreases |schedule|
  {
    schedule != [] ==>
      StillAbove(nonce, s, schedule[0]) && AllStillAbove(nonce, Do(nonce, s, schedule[0]), schedule[1..])
  }

  ghost predicate StoresLatest(nonce: Nonces, s: State) {
    && (s.accepted != [] ==> s.stored == nonce(s.accepted[|s.accepted| - 1]))
    && (s.accepted == [] ==> forall r :: PhaseOf(s, r).Read? ==> s.stored < nonce(r))
  }

  lemma StepIncreasesExactly(nonce: Nonces, s: State, r: Request)
    requires StoresLatest(nonce, s)
    ensures StoresLatest(nonce, Do(nonce, s, r))
    ensures Increasing(nonce, Do(nonce, s, r).accepted) <==> Increasing(nonce, s.accepted) && StillAbove(nonce, s, r)
  {
    var s' := Do(nonce, s, r);
    assert forall x :: x != r ==> PhaseOf(s', x) == PhaseOf(s, x);
    if s'.accepted != s.accepted {
      assert forall i :: 0 <= i < |s.accepted| ==> s'.accepted[i] == s.accepted[i];
      assert s'.accepted[|s.accepted|] == r;
    }
  }

  lemma {:induction false} RunIncreasesExactly(nonce: Nonces, s: State, schedule: seq<Request>)
    requires StoresLatest(nonce, s)
    ensures Increasing(nonce, Run(nonce, s, schedule).accepted)
            <==> Increasing(nonce, s.accepted) && AllStillAbove(nonce, s, schedule)
    decreases |schedule|
  {
    hide Do, StoresLatest, Increasing, StillAbove;
    if schedule != [] {
      StepIncreasesExactly(nonce, s, schedule[0]);
      RunIncreasesExactly(nonce, Do(nonce, s, schedule[0]), schedule[1..]);
    }
  }

  // Every request reads and writes, or is refused, before the next one reads.
  predicate OneAtATime(schedule: seq<Request>)
    decreases |schedule|
  {
    schedule != [] ==> |schedule| >= 2 && schedule[0] == schedule[1] && OneAtATime(schedule[2..])
  }

  // Nobody has read without writing.
  ghost predicate NobodyBetween(s: State) {
    forall r :: !PhaseOf(s, r).Read?
  }

  lemma RequestAlone(nonce: Nonces, s: State, r: Request)
    requires NobodyBetween(s)
    ensures StillAbove(nonce, s, r) && StillAbove(nonce, Do(nonce, s, r), r)
    ensures NobodyBetween(Do(nonce, Do(nonce, s, r), r))
  {
    var s1 := Do(nonce, s, r);
    var s2 := Do(nonce, s1, r);
    assert forall x :: x != r ==> PhaseOf(s2, x) == PhaseOf(s1, x) == PhaseOf(s, x);
  }

  lemma {:induction false} OneAtATimeStaysAbove(nonce: Nonces, s: State, schedule: seq<Request>)
    requires OneAtATime(schedule) && NobodyBetween(s)
    ensures AllStillAbove(nonce, s, schedule)
    decreases |schedule|
  {
    hide Do, StillAbove, NobodyBetween;
    if schedule != [] {
      var r := schedule[0];
      RequestAlone(nonce, s, r);
      assert schedule[1..][1..] == schedule[2..] && schedule[1..][0] == r;
      OneAtATimeStaysAbove(nonce, Do(nonce, Do(nonce, s, r), r), schedule[2..]);
    }
  }

  /**
    On any schedule the nonces let through strictly increase, so that none is let through twice, if and
    only if each is still above the stored one when it is written; requests handled one at a time are.
  */
  lemma NoncesIncreaseExactly(nonce: Nonces, stored: int, schedule: seq<Request>)
    ensures Increasing(nonce, Run(nonce, Initial(stored), schedule).accepted)
            <==> AllStillAbove(nonce, Initial(stored), schedule)
    ensures AllStillAbove(nonce, Initial(stored), schedule) ==> EachOnce(nonce, Run(nonce, Initial(stored), schedule))
    ensures OneAtATime(schedule) ==> AllStillAbove(nonce, Initial(stored), schedule)
  {
    hide Run, AllStillAbove, OneAtATime;
    RunIncreasesExactly(nonce, Initial(stored), schedule);
    if OneAtATime(schedule) { OneAtATimeStaysAbove(nonce, Initial(stored), schedule); }
  }
}
