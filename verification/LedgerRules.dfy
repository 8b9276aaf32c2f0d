/**
  What a rated battle does to the players who were in it, and what each board then
  shows: the rating arithmetic carried over to the ledger, on every run.
*/
module LedgerRules {
  import opened Wrappers
  import opened Elo
  import opened RatingLedger

  // ── the two changes of a battle ──────────────────────────────────

  // A change as the player's own standing and result allow it.
  predicate InBounds(s: Standing, o: Outcome, c: Change) {
    && c.oldRating == s.current && c.newRating == c.oldRating + c.change && c.newRating >= 100
    && -KFactor(s) <= c.change <= KFactor(s)
    && (o == Win ==> c.change >= 0) && (o == Loss ==> c.change <= 0)
  }

  // The two changes a battle appends, first player first, each from the player's own standing against the
  // other's rating.
  ghost predicate FairChanges(pow: Curve, l: Ledger, l': Ledger, r: BattleResult) {
    && |l'.history| == |l.history| + 2 && l'.history[..|l.history|] == l.history
    && var a, b := StandingOf(StatsOf(l, r.playerA)), StandingOf(StatsOf(l, r.playerB));
       var cA, cB := l'.history[|l.history|], l'.history[|l.history| + 1];
       && cA.userId == r.playerA && cB.userId == r.playerB && cA.battleId == cB.battleId == r.battleId
       && InBounds(a, OutcomeFor(r, r.playerA), cA) && InBounds(b, OutcomeFor(r, r.playerB), cB)
       && cA.newRating == NextRating(pow, a, b.current, OutcomeFor(r, r.playerA))
       && cB.newRating == NextRating(pow, b, a.current, OutcomeFor(r, r.playerB))
       && (KFactor(a) == KFactor(b) ==> cA.change + cB.change >= 0)
       && (KFactor(a) == KFactor(b) && cA.newRating > 100 && cB.newRating > 100 ==> cA.change + cB.change <= 1)
       && StatsOf(l', r.playerA).current == cA.newRating && StatsOf(l', r.playerB).current == cB.newRating
  }

  lemma ApplyIs(pow: Curve, l: Ledger, r: BattleResult, profileA: Profile, profileB: Profile)
    requires r.rated && r.playerA != r.playerB
    ensures var l' := Apply(pow, l, r, profileA, profileB);
            var a, b := StatsOf(l, r.playerA), StatsOf(l, r.playerB);
            var (aNew, bNew) := ComputePair(pow, StandingOf(a), StandingOf(b), OutcomeOfA(r));
            && l'.history == l.history + [Change(r.playerA, a.current, aNew, aNew - a.current, r.battleId),
                                          Change(r.playerB, b.current, bNew, bNew - b.current, r.battleId)]
            && StatsOf(l', r.playerA).current == aNew && StatsOf(l', r.playerB).current == bNew
            && forall u :: u != r.playerA && u != r.playerB ==> StatsOf(l', u) == StatsOf(l, u)
  {
    hide ComputePair, UpsertAll, KeysOf;
  }

  lemma ApplyMovesFairly(pow: Curve, l: Ledger, r: BattleResult, profileA: Profile, profileB: Profile)
    requires IsPower(pow) && r.rated && Fair(r)
    requires StatsOf(l, r.playerA).current >= FLOOR && StatsOf(l, r.playerB).current >= FLOOR
    ensures FairChanges(pow, l, Apply(pow, l, r, profileA, profileB), r)
    ensures forall u :: u != r.playerA && u != r.playerB ==>
              StatsOf(Apply(pow, l, r, profileA, profileB), u) == StatsOf(l, u)
  {
    hide Apply, StatsOf, NextRating, IsPower, KFactor;
    var a, b := StandingOf(StatsOf(l, r.playerA)), StandingOf(StatsOf(l, r.playerB));
    ApplyIs(pow, l, r, profileA, profileB);
    OutcomesOfFair(r);
    MovesWithinK(pow, a, b.current, OutcomeOfA(r));
    MovesWithinK(pow, b, a.current, Opposite(OutcomeOfA(r)));
    if KFactor(a) == KFactor(b) { PairSum(pow, a, b, OutcomeOfA(r)); }
  }

  lemma {:induction false} HistoryGrows(pow: Curve, steps: seq<Applied>, i: nat)
    requires i <= |steps|
    ensures Run(pow, steps[..i]).history <= Run(pow, steps).history
    decreases |steps|
  {
    hide Apply;
    if i < |steps| {
      var n := |steps| - 1;
      HistoryGrows(pow, steps[..n], i);
      assert steps[..n][..i] == steps[..i];
      var last := steps[n];
      ApplyAppends(pow, Run(pow, steps[..n]), last.result, last.profileA, last.profileB);
    } else {
      assert steps[..i] == steps;
    }
  }

  lemma ApplyAppends(pow: Curve, l: Ledger, r: BattleResult, profileA: Profile, profileB: Profile)
    ensures l.history <= Apply(pow, l, r, profileA, profileB).history
  {
    hide ComputePair, UpsertAll, KeysOf, AfterResult;
  }

  /**
    Over any run of fair results, every rated battle left two changes in the history: each computed from
    the player's own standing and the other's rating, never larger than the player's own K, never negative
    for a winner nor positive for a loser; with equal K the points are conserved up to one, unless the floor
    added some; and nobody else's statistics moved.
  */
  lemma RunMovesFairly(pow: Curve, steps: seq<Applied>, i: nat)
    requires IsPower(pow) && i < |steps| && steps[i].result.rated
    requires forall j :: 0 <= j < |steps| ==> Fair(steps[j].result)
    ensures var before, after := Run(pow, steps[..i]), Run(pow, steps[..i + 1]);
            && FairChanges(pow, before, after, steps[i].result)
            && (forall u :: !Plays(steps[i].result, u) ==> StatsOf(after, u) == StatsOf(before, u))
            && after.history <= Run(pow, steps).history
  {
    hide Apply, IsPower, FairChanges, StatsOf, Fair;
    var done, r := steps[..i], steps[i].result;
    assert steps[..i + 1][..i] == done && steps[..i + 1][i] == steps[i];
    RatingAboveFloor(pow, done, r.playerA);
    RatingAboveFloor(pow, done, r.playerB);
    ApplyMovesFairly(pow, Run(pow, done), r, steps[i].profileA, steps[i].profileB);
    HistoryGrows(pow, steps, i + 1);
  }

  lemma RatingAboveFloor(pow: Curve, steps: seq<Applied>, u: UserId)
    requires forall i :: 0 <= i < |steps| ==> Fair(steps[i].result)
    ensures StatsOf(Run(pow, steps), u).current >= FLOOR
  {
    RunKeepsBooks(pow, steps, u);
  }

  /** A winner who did not play counts as a win of the second player. */
  lemma StrangerWinsForSecond(pow: Curve, l: Ledger, r: BattleResult, profileA: Profile, profileB: Profile)
    requires r.rated && r.playerA != r.playerB && r.winnerId.Some? && r.winnerId.value !in {r.playerA, r.playerB}
    ensures var l' := Apply(pow, l, r, profileA, profileB);
            && StatsOf(l', r.playerA).losses == StatsOf(l, r.playerA).losses + 1
            && StatsOf(l', r.playerB).wins == StatsOf(l, r.playerB).wins + 1
  {
    hide ComputePair, UpsertAll, KeysOf;
  }

  // ── the boards ───────────────────────────────────────────────────

  // The boards a player belongs on at a commit: of each period the global one, and those of a country and college.
  predicate BelongsOn(p: Profile, k: BoardKey) {
    var period := match k.period case WEEKLY => p.weekly case MONTHLY => p.monthly case ALL_TIME => "all";
    match k.scope
    case GLOBAL => k.group == period
    case COUNTRY => p.country.Some? && p.country.value != "" && k.group == p.country.value + ":" + period
    case COLLEGE => p.college.Some? && p.college.value != "" && k.group == p.college.value + ":" + period
  }

  lemma KeysAre(p: Profile, k: BoardKey)
    ensures k in KeysOf(p, Periods) <==> BelongsOn(p, k)
  {
    var monthly := KeysOf(p, [MONTHLY, ALL_TIME]);
    assert Periods[1..] == [MONTHLY, ALL_TIME] && Periods[1..][1..] == [ALL_TIME] && [ALL_TIME][1..] == [];
    assert KeysOf(p, [ALL_TIME]) == KeysOfPeriod(p, ALL_TIME) + [];
    assert monthly == KeysOfPeriod(p, MONTHLY) + KeysOf(p, [ALL_TIME]);
    assert KeysOf(p, Periods) == KeysOfPeriod(p, WEEKLY) + monthly;
    forall period ensures k in KeysOfPeriod(p, period) <==> k.period == period && BelongsOn(p, k) {
      KeysOfPeriodAre(p, period, k);
    }
  }

  lemma KeysOfPeriodAre(p: Profile, period: Period, k: BoardKey)
    ensures k in KeysOfPeriod(p, period) <==> k.period == period && BelongsOn(p, k)
  {
  }

  // Player, rating and profile of a commit, as the boards see it.
  datatype Posting = Posting(user: UserId, rating: int, profile: Profile)

  // All commits of a run, in order.
  function Postings(pow: Curve, steps: seq<Applied>): seq<Posting> {
    if steps == [] then []
    else
      var (done, last) := (steps[..|steps| - 1], steps[|steps| - 1]);
      var r, l := last.result, Run(pow, steps);
      Postings(pow, done)
      + if !r.rated || |l.history| < 2 then [] else
          [Posting(r.playerA, l.history[|l.history| - 2].newRating, last.profileA),
           Posting(r.playerB, l.history[|l.history| - 1].newRating, last.profileB)]
  }

  // The rating of the user's latest commit that belonged on the board.
  function Latest(ps: seq<Posting>, k: BoardKey, u: UserId): Option<int> {
    if ps == [] then None
    else
      var p := ps[|ps| - 1];
      if p.user == u && BelongsOn(p.profile, k) then Some(p.rating) else Latest(ps[..|ps| - 1], k, u)
  }

  ghost predicate Shows(board: Board, ps: seq<Posting>, k: BoardKey) {
    forall u :: (if u in board then Some(board[u]) else None) == Latest(ps, k, u)
  }

  lemma CommitShows(l: Ledger, u: UserId, before: Stats, battleId: string, newRating: int, o: Outcome, p: Profile,
      ps: seq<Posting>, k: BoardKey)
    requires Shows(BoardIn(l.boards, k), ps, k)
    ensures var l' := Commit(l, u, before, battleId, newRating, o, p);
            Shows(BoardIn(l'.boards, k), ps + [Posting(u, newRating, p)], k)
  {
    hide UpsertAll, KeysOf, BelongsOn, BoardIn;
    UpsertAllIs(l.boards, KeysOf(p, Periods), u, newRating, k);
    KeysAre(p, k);
    var posted := ps + [Posting(u, newRating, p)];
    assert posted[..|posted| - 1] == ps;
  }

  lemma ApplyShows(pow: Curve, l: Ledger, last: Applied, ps: seq<Posting>, k: BoardKey)
    requires Shows(BoardIn(l.boards, k), ps, k) && last.result.rated
    ensures var r, l' := last.result, Apply(pow, l, last.result, last.profileA, last.profileB);
            && |l'.history| == |l.history| + 2
            && Shows(BoardIn(l'.boards, k),
                     ps + [Posting(r.playerA, l'.history[|l.history|].newRating, last.profileA),
                           Posting(r.playerB, l'.history[|l.history| + 1].newRating, last.profileB)], k)
  {
    hide ComputePair, UpsertAll, KeysOf, BelongsOn, BoardIn, Shows, AfterResult;
    var r := last.result;
    var a, b, o := StatsOf(l, r.playerA), StatsOf(l, r.playerB), OutcomeOfA(r);
    var (aNew, bNew) := ComputePair(pow, StandingOf(a), StandingOf(b), o);
    var l1 := Commit(l, r.playerA, a, r.battleId, aNew, o, last.profileA);
    var first, second := Posting(r.playerA, aNew, last.profileA), Posting(r.playerB, bNew, last.profileB);
    CommitShows(l, r.playerA, a, r.battleId, aNew, o, last.profileA, ps, k);
    CommitShows(l1, r.playerB, b, r.battleId, bNew, Opposite(o), last.profileB, ps + [first], k);
    assert ps + [first] + [second] == ps + [first, second];
  }

  /**
    Over any run, every board of every scope and period shows exactly the players some commit of whom
    belonged on it, each with the rating of the latest such commit.
  */
  lemma {:induction false} RunBoardsExactly(pow: Curve, steps: seq<Applied>, k: BoardKey)
    ensures Shows(BoardIn(Run(pow, steps).boards, k), Postings(pow, steps), k)
    decreases |steps|
  {
    hide Apply, Shows, Latest, BoardIn;
    if steps == [] {
      NothingShown(k);
    } else {
      var done, last := steps[..|steps| - 1], steps[|steps| - 1];
      RunBoardsExactly(pow, done, k);
      if last.result.rated {
        ApplyShows(pow, Run(pow, done), last, Postings(pow, done), k);
      } else {
        UnratedStays(pow, Run(pow, done), last);
        assert Postings(pow, done) + [] == Postings(pow, done);
      }
    }
  }

  lemma NothingShown(k: BoardKey)
    ensures Shows(BoardIn(EmptyLedger.boards, k), [], k)
  {
  }

  /** An unrated battle moves nothing. */
  lemma UnratedStays(pow: Curve, l: Ledger, last: Applied)
    requires !last.result.rated
    ensures Apply(pow, l, last.result, last.profileA, last.profileB) == l
  {
  }
}
