/**
  The rating service: what a finished battle does to two players' statistics, to the history of rating
  changes and to the boards.

  `Ledger` is a snapshot of the three; a run applies any sequence of battle results to an empty one.
  The calendar keys and a player's country and college are read afresh at every commit, so each commit
  comes with its own `Profile`.
*/
module RatingLedger {
  import opened Wrappers
  import opened Elo

  const DEFAULT := 1200

  datatype Stats = Stats(current: int, peak: int, games: nat, wins: nat, losses: nat, winStreak: nat, lossStreak: nat)

  datatype Change = Change(userId: UserId, oldRating: int, newRating: int, change: int, battleId: string)

  datatype Scope = GLOBAL | COUNTRY | COLLEGE

  datatype Period = WEEKLY | MONTHLY | ALL_TIME

  datatype BoardKey = BoardKey(scope: Scope, group: string, period: Period)

  type Board = map<UserId, int>

  datatype Ledger = Ledger(stats: map<UserId, Stats>, history: seq<Change>, boards: map<BoardKey, Board>)

  datatype Profile = Profile(country: Option<string>, college: Option<string>, weekly: string, monthly: string)

  datatype BattleResult = BattleResult(
    battleId: string,
    playerA: UserId,
    playerB: UserId,
    winnerId: Option<UserId>,
    rated: bool)

  const NewPlayer := Stats(DEFAULT, DEFAULT, 0, 0, 0, 0, 0)

  const EmptyLedger := Ledger(map[], [], map[])

  function StatsIn(stats: map<UserId, Stats>, u: UserId): Stats {
    if u in stats then stats[u] else NewPlayer
  }

  function StatsOf(l: Ledger, u: UserId): Stats {
    StatsIn(l.stats, u)
  }

  function StandingOf(s: Stats): Standing {
    Standing(s.games, s.current)
  }

  function BoardIn(boards: map<BoardKey, Board>, k: BoardKey): Board {
    if k in boards then boards[k] else map[]
  }

  // ── one commit ───────────────────────────────────────────────────

  function AfterResult(s: Stats, newRating: int, o: Outcome): Stats {
    Stats(newRating, if s.peak < newRating then newRating else s.peak, s.games + 1,
          s.wins + (if o == Win then 1 else 0), s.losses + (if o == Loss then 1 else 0),
          if o == Win then s.winStreak + 1 else 0, if o == Loss then s.lossStreak + 1 else 0)
  }

  function Upsert(boards: map<BoardKey, Board>, k: BoardKey, u: UserId, rating: int): map<BoardKey, Board> {
    boards[k := BoardIn(boards, k)[u := rating]]
  }

  function UpsertAll(boards: map<BoardKey, Board>, keys: seq<BoardKey>, u: UserId, rating: int): map<BoardKey, Board>
    decreases |keys|
  {
    if keys == [] then boards else UpsertAll(Upsert(boards, keys[0], u, rating), keys[1..], u, rating)
  }

  function Present(name: Option<string>): bool {
    name.Some? && name.value != ""
  }

  function Suffix(p: Profile, period: Period): string {
    match period
    case WEEKLY => p.weekly
    case MONTHLY => p.monthly
    case ALL_TIME => "all"
  }

  function KeysOfPeriod(p: Profile, period: Period): seq<BoardKey> {
    var suffix := Suffix(p, period);
    [BoardKey(GLOBAL, suffix, period)]
    + (if Present(p.country) then [BoardKey(COUNTRY, p.country.value + ":" + suffix, period)] else [])
    + (if Present(p.college) then [BoardKey(COLLEGE, p.college.value + ":" + suffix, period)] else [])
  }

  function KeysOf(p: Profile, periods: seq<Period>): seq<BoardKey> {
    if periods == [] then [] else KeysOfPeriod(p, periods[0]) + KeysOf(p, periods[1..])
  }

  const Periods := [WEEKLY, MONTHLY, ALL_TIME]

  const GlobalAllTime := BoardKey(GLOBAL, "all", ALL_TIME)

  // `before` is what was read when the battle was applied; the statistics are read again to be updated.
  function Commit(l: Ledger, u: UserId, before: Stats, battleId: string, newRating: int, o: Outcome,
      p: Profile): Ledger {
    Ledger(l.stats[u := AfterResult(StatsOf(l, u), newRating, o)],
           l.history + [Change(u, before.current, newRating, newRating - before.current, battleId)],
           UpsertAll(l.boards, KeysOf(p, Periods), u, newRating))
  }

  function OutcomeOfA(r: BattleResult): Outcome {
    if r.winnerId.None? then Draw else if r.winnerId.value == r.playerA then Win else Loss
  }

  function Apply(pow: Curve, l: Ledger, r: BattleResult, profileA: Profile, profileB: Profile): Ledger
  {
    if !r.rated then l
    else
      var a, b := StatsOf(l, r.playerA), StatsOf(l, r.playerB);
      var o := OutcomeOfA(r);
      var (aNew, bNew) := ComputePair(pow, StandingOf(a), StandingOf(b), o);
      var l1 := Commit(l, r.playerA, a, r.battleId, aNew, o, profileA);
      Commit(l1, r.playerB, b, r.battleId, bNew, Opposite(o), profileB)
  }

  // A battle result together with what its two commits read.
  datatype Applied = Applied(result: BattleResult, profileA: Profile, profileB: Profile)

  function Run(pow: Curve, steps: seq<Applied>): Ledger
  {
    if steps == [] then EmptyLedger
    else var (done, last) := (steps[..|steps| - 1], steps[|steps| - 1]);
         Apply(pow, Run(pow, done), last.result, last.profileA, last.profileB)
  }

  // ── what the results say, independently of the ledger ────────────

  // Two distinct players, one of whom won unless nobody did.
  predicate Fair(r: BattleResult) {
    r.playerA != r.playerB && (r.winnerId.None? || r.winnerId.value in {r.playerA, r.playerB})
  }

  predicate Plays(r: BattleResult, u: UserId) {
    r.rated && (u == r.playerA || u == r.playerB)
  }

  function OutcomeFor(r: BattleResult, u: UserId): Outcome {
    if r.winnerId.None? then Draw else if r.winnerId.value == u then Win else Loss
  }

  // How the rated battles of a player ended, in order.
  function Outcomes(steps: seq<Applied>, u: UserId): seq<Outcome> {
    if steps == [] then []
    else var (done, last) := (steps[..|steps| - 1], steps[|steps| - 1].result);
         Outcomes(done, u) + if Plays(last, u) then [OutcomeFor(last, u)] else []
  }

  function Count(os: seq<Outcome>, o: Outcome): nat {
    if os == [] then 0 else Count(os[..|os| - 1], o) + if os[|os| - 1] == o then 1 else 0
  }

  // How many of the latest outcomes are o without interruption.
  function Streak(os: seq<Outcome>, o: Outcome): nat {
    if os == [] || os[|os| - 1] != o then 0 else 1 + Streak(os[..|os| - 1], o)
  }

  function Decided(steps: seq<Applied>): nat {
    if steps == [] then 0
    else var r := steps[|steps| - 1].result;
         Decided(steps[..|steps| - 1]) + if r.rated && r.winnerId.Some? then 1 else 0
  }

  function ChangesOf(h: seq<Change>, u: UserId): seq<Change> {
    if h == [] then []
    else var last := h[|h| - 1]; ChangesOf(h[..|h| - 1], u) + if last.userId == u then [last] else []
  }

  // Each change starts where the previous one ended, the first at 1200, and the last ends at `current`.
  ghost predicate Chained(cs: seq<Change>, current: int) {
    if cs == [] then current == 1200
    else var c := cs[|cs| - 1];
         c.newRating == current && c.change == c.newRating - c.oldRating && Chained(cs[..|cs| - 1], c.oldRating)
  }

  // The highest of 1200 and all ratings reached.
  function Highest(cs: seq<Change>): int {
    if cs == [] then 1200
    else var (before, r) := (Highest(cs[..|cs| - 1]), cs[|cs| - 1].newRating); if before < r then r else before
  }

  // ── one player's books ───────────────────────────────────────────

  ghost predicate BooksAgree(s: Stats, cs: seq<Change>, os: seq<Outcome>) {
    && Chained(cs, s.current) && s.peak == Highest(cs) && s.games == |cs| == |os| && s.current >= 100
    && s.wins == Count(os, Win) && s.losses == Count(os, Loss)
    && s.winStreak == Streak(os, Win) && s.lossStreak == Streak(os, Loss)
  }

  ghost predicate Books(l: Ledger, steps: seq<Applied>, u: UserId) {
    && BooksAgree(StatsOf(l, u), ChangesOf(l.history, u), Outcomes(steps, u))
    && (u in l.stats <==> ChangesOf(l.history, u) != [])
  }

  lemma Appended<T>(s: seq<T>, x: T)
    ensures (s + [x])[..|s + [x]| - 1] == s && (s + [x])[|s + [x]| - 1] == x
  {
  }

  lemma BooksGrow(s: Stats, cs: seq<Change>, os: seq<Outcome>, c: Change, o: Outcome)
    requires BooksAgree(s, cs, os) && c.oldRating == s.current && c.change == c.newRating - c.oldRating
             && c.newRating >= FLOOR
    ensures BooksAgree(AfterResult(s, c.newRating, o), cs + [c], os + [o])
  {
    Appended(cs, c);
    Appended(os, o);
  }

  lemma CommitTouchesOne(l: Ledger, u: UserId, before: Stats, battleId: string, newRating: int, o: Outcome,
      p: Profile, v: UserId)
    ensures var l' := Commit(l, u, before, battleId, newRating, o, p);
            var change := Change(u, before.current, newRating, newRating - before.current, battleId);
            && ChangesOf(l'.history, v)
               == (if v == u then ChangesOf(l.history, v) + [change] else ChangesOf(l.history, v))
            && StatsOf(l', v) == (if v == u then AfterResult(StatsOf(l, v), newRating, o) else StatsOf(l, v))
            && (v in l'.stats <==> v == u || v in l.stats)
  {
    Appended(l.history, Change(u, before.current, newRating, newRating - before.current, battleId));
  }

  lemma PairAboveFloor(pow: Curve, a: Standing, b: Standing, o: Outcome)
    ensures ComputePair(pow, a, b, o).0 >= FLOOR && ComputePair(pow, a, b, o).1 >= FLOOR
  {
  }

  lemma OutcomesOfFair(r: BattleResult)
    requires Fair(r)
    ensures OutcomeOfA(r) == OutcomeFor(r, r.playerA) && Opposite(OutcomeOfA(r)) == OutcomeFor(r, r.playerB)
  {
  }

  lemma ApplyKeepsBooks(pow: Curve, l: Ledger, done: seq<Applied>, last: Applied, u: UserId)
    requires Fair(last.result) && Books(l, done, u)
    ensures Books(Apply(pow, l, last.result, last.profileA, last.profileB), done + [last], u)
  {
    hide ComputePair, Commit, StatsOf, BooksAgree, OutcomeFor, OutcomeOfA;
    Appended(done, last);
    var r := last.result;
    assert Outcomes(done + [last], u) == Outcomes(done, u) + if Plays(r, u) then [OutcomeFor(r, u)] else [];
    assert Outcomes(done, u) + [] == Outcomes(done, u);
    if r.rated {
      var a, b := StatsOf(l, r.playerA), StatsOf(l, r.playerB);
      var o := OutcomeOfA(r);
      var (aNew, bNew) := ComputePair(pow, StandingOf(a), StandingOf(b), o);
      var l1 := Commit(l, r.playerA, a, r.battleId, aNew, o, last.profileA);
      PairAboveFloor(pow, StandingOf(a), StandingOf(b), o);
      OutcomesOfFair(r);
      CommitTouchesOne(l, r.playerA, a, r.battleId, aNew, o, last.profileA, u);
      CommitTouchesOne(l1, r.playerB, b, r.battleId, bNew, Opposite(o), last.profileB, u);
      var cs, os := ChangesOf(l.history, u), Outcomes(done, u);
      if u == r.playerA {
        CurrentOf(a, cs, os);
        BooksGrow(a, cs, os, Change(u, a.current, aNew, aNew - a.current, r.battleId), o);
      } else if u == r.playerB {
        CurrentOf(b, cs, os);
        BooksGrow(b, cs, os, Change(u, b.current, bNew, bNew - b.current, r.battleId), Opposite(o));
      }
    }
  }

  lemma CurrentOf(s: Stats, cs: seq<Change>, os: seq<Outcome>)
    requires BooksAgree(s, cs, os)
    ensures Chained(cs, s.current) && s.games == |cs|
  {
  }

  /**
    Over any run of fair results the books of every player agree: each change starts where the last one
    ended, the peak is the highest of 1200 and all ratings held, games, wins, losses and both streaks are
    those of the player's battles, and no rating is below the floor.
  */
  lemma {:induction false} RunKeepsBooks(pow: Curve, steps: seq<Applied>, u: UserId)
    requires forall i :: 0 <= i < |steps| ==> Fair(steps[i].result)
    ensures Books(Run(pow, steps), steps, u)
  {
    hide Apply, Fair;
    if steps != [] {
      var done, last := steps[..|steps| - 1], steps[|steps| - 1];
      assert done + [last] == steps;
      RunKeepsBooks(pow, done, u);
      ApplyKeepsBooks(pow, Run(pow, done), done, last, u);
    }
  }

  // ── totals over all players ──────────────────────────────────────

  ghost function Sum(m: map<UserId, int>): int {
    if m == map[] then 0 else var u :| u in m; m[u] + Sum(m - {u})
  }

  lemma {:induction false} SumTakesOut(m: map<UserId, int>, u: UserId)
    requires u in m
    ensures Sum(m) == m[u] + Sum(m - {u})
    decreases |m|
  {
    var v :| v in m && Sum(m) == m[v] + Sum(m - {v});
    if v != u {
      SumTakesOut(m - {v}, u);
      SumTakesOut(m - {u}, v);
      assert m - {v} - {u} == m - {u} - {v};
    }
  }

  lemma SumUpdated(m: map<UserId, int>, u: UserId, value: int)
    ensures Sum(m[u := value]) == Sum(m) - (if u in m then m[u] else 0) + value
  {
    var m' := m[u := value];
    SumTakesOut(m', u);
    assert m' - {u} == m - {u};
    if u in m { SumTakesOut(m, u); } else { assert m - {u} == m; }
  }

  function Wins(l: Ledger): map<UserId, int> {
    map u | u in l.stats :: l.stats[u].wins
  }

  function Losses(l: Ledger): map<UserId, int> {
    map u | u in l.stats :: l.stats[u].losses
  }

  lemma CommitTotals(l: Ledger, u: UserId, before: Stats, battleId: string, newRating: int, o: Outcome, p: Profile)
    ensures var l' := Commit(l, u, before, battleId, newRating, o, p);
            && Sum(Wins(l')) == Sum(Wins(l)) + (if o == Win then 1 else 0)
            && Sum(Losses(l')) == Sum(Losses(l)) + (if o == Loss then 1 else 0)
  {
    hide UpsertAll, KeysOf, Sum;
    var l', s := Commit(l, u, before, battleId, newRating, o, p), AfterResult(StatsOf(l, u), newRating, o);
    assert Wins(l') == Wins(l)[u := s.wins];
    assert Losses(l') == Losses(l)[u := s.losses];
    SumUpdated(Wins(l), u, s.wins);
    SumUpdated(Losses(l), u, s.losses);
  }

  /** Wins and losses balance: over all players both add up to the number of rated battles that somebody won. */
  lemma {:induction false} WinsEqualLosses(pow: Curve, steps: seq<Applied>)
    ensures Sum(Wins(Run(pow, steps))) == Sum(Losses(Run(pow, steps))) == Decided(steps)
  {
    hide ComputePair, Commit, Wins, Losses;
    if steps == [] {
      NothingWon();
    } else {
      var done, last := steps[..|steps| - 1], steps[|steps| - 1];
      WinsEqualLosses(pow, done);
      ApplyTotals(pow, Run(pow, done), last);
    }
  }

  lemma NothingWon()
    ensures Sum(Wins(EmptyLedger)) == 0 == Sum(Losses(EmptyLedger))
  {
    assert Wins(EmptyLedger) == map[] == Losses(EmptyLedger);
  }

  lemma ApplyTotals(pow: Curve, l: Ledger, last: Applied)
    ensures var l', n := Apply(pow, l, last.result, last.profileA, last.profileB),
                         if last.result.rated && last.result.winnerId.Some? then 1 else 0;
            Sum(Wins(l')) == Sum(Wins(l)) + n && Sum(Losses(l')) == Sum(Losses(l)) + n
  {
    hide ComputePair, Commit, Wins, Losses, Sum;
    var r := last.result;
    if r.rated {
      var a, b, o := StatsOf(l, r.playerA), StatsOf(l, r.playerB), OutcomeOfA(r);
      var (aNew, bNew) := ComputePair(pow, StandingOf(a), StandingOf(b), o);
      var l1 := Commit(l, r.playerA, a, r.battleId, aNew, o, last.profileA);
      CommitTotals(l, r.playerA, a, r.battleId, aNew, o, last.profileA);
      CommitTotals(l1, r.playerB, b, r.battleId, bNew, Opposite(o), last.profileB);
    }
  }

  // ── the boards ───────────────────────────────────────────────────

  lemma {:induction false} UpsertAllIs(boards: map<BoardKey, Board>, keys: seq<BoardKey>, u: UserId, rating: int,
      k: BoardKey)
    ensures BoardIn(UpsertAll(boards, keys, u, rating), k)
              == if k in keys then BoardIn(boards, k)[u := rating] else BoardIn(boards, k)
    decreases |keys|
  {
    if keys != [] {
      UpsertAllIs(Upsert(boards, keys[0], u, rating), keys[1..], u, rating, k);
      assert k in keys <==> k == keys[0] || k in keys[1..];
      var b := BoardIn(boards, k);
      assert b[u := rating][u := rating] == b[u := rating];
    }
  }

  lemma GlobalIsRefreshed(p: Profile)
    ensures GlobalAllTime in KeysOf(p, Periods)
  {
    var rest := KeysOf(p, [MONTHLY, ALL_TIME]);
    assert Periods[1..] == [MONTHLY, ALL_TIME] && Periods[1..][1..] == [ALL_TIME] && [ALL_TIME][1..] == [];
    assert KeysOf(p, [ALL_TIME]) == KeysOfPeriod(p, ALL_TIME) + KeysOf(p, []);
    assert KeysOfPeriod(p, ALL_TIME)[0] == GlobalAllTime;
    assert KeysOf(p, Periods) == KeysOfPeriod(p, WEEKLY) + rest;
    assert rest == KeysOfPeriod(p, MONTHLY) + KeysOf(p, [ALL_TIME]);
  }

  ghost predicate Held(l: Ledger, u: UserId, rating: int) {
    exists i :: 0 <= i < |l.history| && l.history[i].userId == u && l.history[i].newRating == rating
  }

  ghost predicate BoardIsTrue(l: Ledger, board: Board) {
    forall u :: u in board ==> Held(l, u, board[u])
  }

  // The all-time global board shows every player's present rating; every other board shows ratings that were held.
  ghost predicate BoardsAgree(l: Ledger) {
    && BoardIn(l.boards, GlobalAllTime) == (map u | u in l.stats :: l.stats[u].current)
    && forall k :: BoardIsTrue(l, BoardIn(l.boards, k))
  }

  lemma CommitKeepsBoards(l: Ledger, u: UserId, before: Stats, battleId: string, newRating: int, o: Outcome, p: Profile)
    requires BoardsAgree(l)
    ensures BoardsAgree(Commit(l, u, before, battleId, newRating, o, p))
  {
    hide UpsertAll, KeysOf, BoardIn;
    var l', keys := Commit(l, u, before, battleId, newRating, o, p), KeysOf(p, Periods);
    GlobalIsRefreshed(p);
    UpsertAllIs(l.boards, keys, u, newRating, GlobalAllTime);
    assert l'.history[|l.history|].userId == u && l'.history[|l.history|].newRating == newRating;
    assert Held(l', u, newRating);
    forall k ensures BoardIsTrue(l', BoardIn(l'.boards, k)) {
      UpsertAllIs(l.boards, keys, u, newRating, k);
      assert BoardIsTrue(l, BoardIn(l.boards, k));
      HeldStays(l, l');
    }
  }

  lemma HeldStays(l: Ledger, l': Ledger)
    requires |l.history| <= |l'.history| && l'.history[..|l.history|] == l.history
    ensures forall u, r :: Held(l, u, r) ==> Held(l', u, r)
  {
    assert forall i :: 0 <= i < |l.history| ==> l'.history[i] == l.history[i];
  }

  /** Over any run the all-time global board holds exactly the players who have played, each at the present rating. */
  lemma {:induction false} RunKeepsBoards(pow: Curve, steps: seq<Applied>)
    ensures BoardsAgree(Run(pow, steps))
  {
    hide ComputePair, Commit, StatsOf, BoardIn;
    if steps == [] {
      NoBoards();
    } else {
      RunKeepsBoards(pow, steps[..|steps| - 1]);
      var last := steps[|steps| - 1];
      var l, r := Run(pow, steps[..|steps| - 1]), last.result;
      if r.rated {
        var a, b, o := StatsOf(l, r.playerA), StatsOf(l, r.playerB), OutcomeOfA(r);
        var (aNew, bNew) := ComputePair(pow, StandingOf(a), StandingOf(b), o);
        CommitKeepsBoards(l, r.playerA, a, r.battleId, aNew, o, last.profileA);
        CommitKeepsBoards(Commit(l, r.playerA, a, r.battleId, aNew, o, last.profileA),
                          r.playerB, b, r.battleId, bNew, Opposite(o), last.profileB);
      }
    }
  }

  lemma NoBoards()
    ensures BoardsAgree(EmptyLedger)
  {
  }

  // ── a player against himself ─────────────────────────────────────

  ghost predicate ChainOf(l: Ledger, u: UserId) {
    Chained(ChangesOf(l.history, u), StatsOf(l, u).current)
  }

  // The second commit records the rating that was read before the first.
  lemma ChainSurvivesUnmoved(pow: Curve, l: Ledger, r: BattleResult, profileA: Profile, profileB: Profile)
    requires r.rated
    requires ChainOf(l, r.playerA) && ChainOf(l, r.playerB)
    ensures var l' := Apply(pow, l, r, profileA, profileB);
            var a, b := StatsOf(l, r.playerA), StatsOf(l, r.playerB);
            ChainOf(l', r.playerA) && ChainOf(l', r.playerB)
            <==> r.playerA != r.playerB || ComputePair(pow, StandingOf(a), StandingOf(b), OutcomeOfA(r)).0 == a.current
  {
    hide ComputePair, Commit, StatsOf, Chained;
    var a, b, o := StatsOf(l, r.playerA), StatsOf(l, r.playerB), OutcomeOfA(r);
    var (aNew, bNew) := ComputePair(pow, StandingOf(a), StandingOf(b), o);
    var l1 := Commit(l, r.playerA, a, r.battleId, aNew, o, profileA);
    CommitTouchesOne(l, r.playerA, a, r.battleId, aNew, o, profileA, r.playerA);
    CommitTouchesOne(l, r.playerA, a, r.battleId, aNew, o, profileA, r.playerB);
    CommitTouchesOne(l1, r.playerB, b, r.battleId, bNew, Opposite(o), profileB, r.playerA);
    CommitTouchesOne(l1, r.playerB, b, r.battleId, bNew, Opposite(o), profileB, r.playerB);
    var first := Change(r.playerA, a.current, aNew, aNew - a.current, r.battleId);
    var second := Change(r.playerB, b.current, bNew, bNew - b.current, r.battleId);
    ChainedFurther(ChangesOf(l.history, r.playerA), first, aNew);
    ChainedFurther(ChangesOf(l.history, r.playerB), second, bNew);
    ChainedFurther(ChangesOf(l1.history, r.playerB), second, bNew);
    ChainedFurther(ChangesOf(l.history, r.playerB), first, b.current);
  }

  /**
    The second commit of a battle records the rating that was read before the first.  The chain of changes
    of the players therefore survives a rated battle exactly when the two are distinct, or the battle was a
    draw, or the first player lost at the floor.
  */
  lemma ChainSurvivesExactly(pow: Curve, l: Ledger, r: BattleResult, profileA: Profile, profileB: Profile)
    requires IsPower(pow) && r.rated && StatsOf(l, r.playerA).current >= FLOOR
    requires ChainOf(l, r.playerA) && ChainOf(l, r.playerB)
    ensures var l' := Apply(pow, l, r, profileA, profileB);
            ChainOf(l', r.playerA) && ChainOf(l', r.playerB)
            <==> r.playerA != r.playerB || OutcomeOfA(r) == Draw
                 || (OutcomeOfA(r) == Loss && StatsOf(l, r.playerA).current == FLOOR)
  {
    hide IsPower, Apply, ChainOf, ComputePair, StatsOf;
    ChainSurvivesUnmoved(pow, l, r, profileA, profileB);
    SelfPlay(pow, StandingOf(StatsOf(l, r.playerA)), OutcomeOfA(r));
  }

  lemma ChainedFurther(cs: seq<Change>, c: Change, current: int)
    ensures Chained(cs + [c], current) <==>
              c.newRating == current && c.change == c.newRating - c.oldRating && Chained(cs, c.oldRating)
  {
    Appended(cs, c);
  }

  // ── results that arrive together ─────────────────────────────────

  // One player's statistics are read by one command and written back by another.
  datatype Access = Read(who: nat) | Write(who: nat, newRating: int, outcome: Outcome)

  datatype Shared = Shared(stored: Stats, held: map<nat, Stats>)

  function DoAccess(s: Shared, a: Access): Shared {
    match a
    case Read(who) => s.(held := s.held[who := s.stored])
    case Write(who, newRating, o) =>
      if who !in s.held then s else Shared(AfterResult(s.held[who], newRating, o), s.held - {who})
  }

  function RunAccesses(start: Stats, schedule: seq<Access>): Shared {
    if schedule == [] then Shared(start, map[])
    else DoAccess(RunAccesses(start, schedule[..|schedule| - 1]), schedule[|schedule| - 1])
  }

  // Where, in the schedule, the reading is that a write by `who` at its end would be computed from.
  function Reading(schedule: seq<Access>, who: nat): (i: Option<nat>)
    ensures i.Some? ==> i.value < |schedule|
  {
    if schedule == [] then None
    else
      var last := schedule[|schedule| - 1];
      if last.who != who then Reading(schedule[..|schedule| - 1], who)
      else if last.Read? then Some(|schedule| - 1) else None
  }

  predicate Writes(schedule: seq<Access>, k: nat)
    requires k < |schedule|
  {
    schedule[k].Write? && Reading(schedule[..k], schedule[k].who).Some?
  }

  // A result is written between another one's reading and its write.
  ghost predicate OverlapAt(schedule: seq<Access>, j: nat, k: nat) {
    j < k < |schedule| && Writes(schedule, j) && Writes(schedule, k)
      && Reading(schedule[..k], schedule[k].who).value < j
  }

  ghost predicate Overlapping(schedule: seq<Access>) {
    exists j: nat, k: nat :: OverlapAt(schedule, j, k)
  }

  // What the statistics would be had the written results been applied one after the other.
  function OneByOne(start: Stats, schedule: seq<Access>): Stats {
    if schedule == [] then start
    else
      var n := |schedule| - 1;
      var before := OneByOne(start, schedule[..n]);
      if Writes(schedule, n) then AfterResult(before, schedule[n].newRating, schedule[n].outcome) else before
  }

  // No more than what the results amount to, and the number of games says whether it is all of them.
  ghost predicate AtMost(s: Stats, full: Stats) {
    s.games <= full.games && s.wins <= full.wins && s.losses <= full.losses && (s.games == full.games ==> s == full)
  }

  lemma SlicedTwice(schedule: seq<Access>, i: nat, n: nat)
    requires i <= n <= |schedule|
    ensures schedule[..n][..i] == schedule[..i]
  {
  }

  lemma {:induction false} OneByOneGrows(start: Stats, schedule: seq<Access>, i: nat, n: nat)
    requires i <= n <= |schedule|
    ensures AtMost(OneByOne(start, schedule[..i]), OneByOne(start, schedule[..n]))
    ensures OneByOne(start, schedule[..i]).games < OneByOne(start, schedule[..n]).games
            <==> exists j: nat :: i <= j < n && Writes(schedule, j)
    decreases n - i
  {
    if i < n {
      OneByOneGrows(start, schedule, i, n - 1);
      assert schedule[..n][..n - 1] == schedule[..n - 1];
      assert Writes(schedule[..n], n - 1) <==> Writes(schedule, n - 1);
    }
  }

  lemma OverlapsOfPrefix(schedule: seq<Access>, n: nat)
    requires n <= |schedule|
    ensures Overlapping(schedule[..n]) <==> exists j: nat, k: nat :: k < n && OverlapAt(schedule, j, k)
  {
    var done := schedule[..n];
    forall j: nat, k: nat | j < k < n ensures OverlapAt(done, j, k) <==> OverlapAt(schedule, j, k) {
      SlicedTwice(schedule, j, n);
      SlicedTwice(schedule, k, n);
    }
  }

  // The held statistics are those stored when they were read.
  lemma {:induction false} HeldIsRead(start: Stats, schedule: seq<Access>, who: nat)
    ensures var i, s := Reading(schedule, who), RunAccesses(start, schedule);
            && (who in s.held <==> i.Some?)
            && (i.Some? ==> s.held[who] == RunAccesses(start, schedule[..i.value]).stored)
    decreases |schedule|
  {
    if schedule != [] {
      var n := |schedule| - 1;
      HeldIsRead(start, schedule[..n], who);
      var i := Reading(schedule[..n], who);
      if i.Some? { SlicedTwice(schedule, i.value, n); }
    }
  }

  // The last access writes nothing: an access that reads, or a write without a reading.
  lemma UnwrittenStays(start: Stats, schedule: seq<Access>)
    requires schedule != [] && !Writes(schedule, |schedule| - 1)
    ensures var done := schedule[..|schedule| - 1];
            && RunAccesses(start, schedule).stored == RunAccesses(start, done).stored
            && OneByOne(start, schedule) == OneByOne(start, done)
            && (Overlapping(schedule) <==> Overlapping(done))
  {
    var n := |schedule| - 1;
    HeldIsRead(start, schedule[..n], schedule[n].who);
    OverlapsOfPrefix(schedule, n);
    assert schedule[..|schedule|] == schedule;
    OverlapsOfPrefix(schedule, |schedule|);
  }

  // The last access writes what was read after the first i accesses: it overlaps exactly with the writes since then.
  lemma WrittenOverlaps(schedule: seq<Access>, i: nat)
    requires schedule != [] && Writes(schedule, |schedule| - 1)
    requires Reading(schedule[..|schedule| - 1], schedule[|schedule| - 1].who) == Some(i)
    ensures Overlapping(schedule) <==>
              Overlapping(schedule[..i]) || exists j: nat :: i <= j < |schedule| - 1 && Writes(schedule, j)
  {
    hide Writes;
    var n := |schedule| - 1;
    assert schedule[..|schedule|] == schedule;
    OverlapsOfPrefix(schedule, |schedule|);
    OverlapsOfPrefix(schedule, i);
    ReadingIsRead(schedule[..n], schedule[n].who);
    ReadIsNoWrite(schedule, i);
    if j: nat :| i <= j < n && Writes(schedule, j) {
      assert OverlapAt(schedule, j, n);
    }
  }

  lemma ReadIsNoWrite(schedule: seq<Access>, i: nat)
    requires i < |schedule| && schedule[i].Read?
    ensures !Writes(schedule, i)
  {
  }

  lemma ReadingIsRead(schedule: seq<Access>, who: nat)
    ensures var i := Reading(schedule, who); i.Some? ==> schedule[i.value].Read?
  {
  }

  // A write computed from the statistics `read`, where `full` is what all results so far amount to.
  lemma WriteCounts(read: Stats, fullThen: Stats, full: Stats, newRating: int, o: Outcome)
    requires AtMost(read, fullThen) && AtMost(fullThen, full)
    ensures AtMost(AfterResult(read, newRating, o), AfterResult(full, newRating, o))
    ensures AfterResult(read, newRating, o).games == AfterResult(full, newRating, o).games
            <==> read.games == fullThen.games && fullThen.games == full.games
  {
  }

  lemma {:induction false} StoredExactly(start: Stats, schedule: seq<Access>)
    ensures var s, full := RunAccesses(start, schedule).stored, OneByOne(start, schedule);
            AtMost(s, full) && (s.games == full.games <==> !Overlapping(schedule))
    decreases |schedule|
  {
    hide AfterResult, Overlapping, AtMost;
    if schedule == [] {
      NothingWritten(start);
    } else {
      var n := |schedule| - 1;
      var done, last := schedule[..n], schedule[n];
      StoredExactly(start, done);
      if Writes(schedule, n) {
        var i := Reading(done, last.who).value;
        HeldIsRead(start, done, last.who);
        SlicedTwice(schedule, i, n);
        StoredExactly(start, schedule[..i]);
        OneByOneGrows(start, schedule, i, n);
        GamesNeverFall(OneByOne(start, schedule[..i]), OneByOne(start, done));
        WriteCounts(RunAccesses(start, schedule[..i]).stored, OneByOne(start, schedule[..i]), OneByOne(start, done),
                    last.newRating, last.outcome);
        WrittenOverlaps(schedule, i);
      } else {
        UnwrittenStays(start, schedule);
      }
    }
  }

  lemma GamesNeverFall(s: Stats, full: Stats)
    requires AtMost(s, full)
    ensures s.games <= full.games
  {
  }

  lemma NothingWritten(start: Stats)
    ensures AtMost(start, start) && !Overlapping([])
  {
  }

  /**
    Reading and writing back is not an increment.  On every schedule of any number of results for one
    player, the statistics are what applying the written results one after the other gives if and only if
    no result is written between another one's reading and its write; otherwise games are lost, and wins
    and losses are never more than there were.
  */
  lemma UpdatesAreLostExactly(start: Stats, schedule: seq<Access>)
    ensures var s, full := RunAccesses(start, schedule).stored, OneByOne(start, schedule);
            && (s == full <==> !Overlapping(schedule))
            && (s.games < full.games <==> Overlapping(schedule))
            && s.wins <= full.wins && s.losses <= full.losses
  {
    hide RunAccesses, OneByOne, Overlapping;
    StoredExactly(start, schedule);
  }

  /** Two wins that are read before either is written count as one. */
  lemma TwoWinsCountAsOne(first: int, second: int)
    ensures var schedule := [Read(0), Read(1), Write(0, first, Win), Write(1, second, Win)];
            var s, full := RunAccesses(NewPlayer, schedule).stored, OneByOne(NewPlayer, schedule);
            s.games == s.wins == 1 && full.games == full.wins == 2
  {
    var schedule := [Read(0), Read(1), Write(0, first, Win), Write(1, second, Win)];
    var s3, s2 := schedule[..3], schedule[..2];
    assert s3 == [Read(0), Read(1), Write(0, first, Win)] && s3[..2] == s2 == [Read(0), Read(1)];
    BothRead();
    assert !Writes(s2, 1) && !Writes(s2, 0);
    assert Writes(s3, 2) && Reading(s3, 1) == Some(1) && Writes(schedule, 3);
    assert OneByOne(NewPlayer, s3) == AfterResult(NewPlayer, first, Win);
  }

  lemma BothRead()
    ensures var s2: seq<Access> := [Read(0), Read(1)];
            && RunAccesses(NewPlayer, s2) == Shared(NewPlayer, map[0 := NewPlayer, 1 := NewPlayer])
            && OneByOne(NewPlayer, s2) == NewPlayer && Reading(s2, 0) == Some(0) && Reading(s2, 1) == Some(1)
  {
    var s2: seq<Access> := [Read(0), Read(1)];
    var s1 := s2[..1];
    assert s1 == [Read(0)] && s1[..0] == [];
    assert RunAccesses(NewPlayer, s1) == Shared(NewPlayer, map[0 := NewPlayer]);
    assert !Writes(s2, 1) && !Writes(s1, 0) && OneByOne(NewPlayer, s1) == NewPlayer;
  }

  // ── the service ──────────────────────────────────────────────────

  class RatingService {
    const pow: Curve
    var stats: map<UserId, Stats>
    var history: seq<Change>
    var boards: map<BoardKey, Board>

    function View(): Ledger
      reads this
    {
      Ledger(stats, history, boards)
    }

    constructor (pow: Curve)
      ensures View() == EmptyLedger && this.pow == pow
    {
      this.pow := pow;
      stats := map[];
      history := [];
      boards := map[];
    }

    method ApplyResult(u: UserId, newRating: int, won: bool, draw: bool) returns (next: Stats)
      modifies this`stats
      ensures var o := if won then Win else if draw then Draw else Loss;
              next == AfterResult(old(StatsOf(View(), u)), newRating, o) && stats == old(stats)[u := next]
    {
      var current := StatsOf(View(), u);
      var winStreak := if won then current.winStreak + 1 else 0;
      var lossStreak := if !won && !draw then current.lossStreak + 1 else 0;
      var peak := if current.peak < newRating then newRating else current.peak;
      next := Stats(newRating, peak, current.games + 1, current.wins + (if won then 1 else 0),
                    current.losses + (if !won && !draw then 1 else 0), winStreak, lossStreak);
      stats := stats[u := next];
    }

    method UpsertScore(k: BoardKey, u: UserId, rating: int)
      modifies this`boards
      ensures boards == Upsert(old(boards), k, u, rating)
    {
      boards := boards[k := BoardIn(boards, k)[u := rating]];
    }

    method RefreshLeaderboards(u: UserId, rating: int, p: Profile)
      modifies this`boards
      ensures boards == UpsertAll(old(boards), KeysOf(p, Periods), u, rating)
    {
      var i := 0;
      assert Periods[0..] == Periods;
      while i < |Periods|
        invariant 0 <= i <= |Periods|
        invariant UpsertAll(boards, KeysOf(p, Periods[i..]), u, rating)
                  == UpsertAll(old(boards), KeysOf(p, Periods), u, rating)
      {
        ghost var before, rest := boards, KeysOf(p, Periods[i + 1..]);
        var period := Periods[i];
        var suffix := Suffix(p, period);
        assert Periods[i..][1..] == Periods[i + 1..];
        UpsertScore(BoardKey(GLOBAL, suffix, period), u, rating);
        if Present(p.country) {
          UpsertScore(BoardKey(COUNTRY, p.country.value + ":" + suffix, period), u, rating);
        }
        if Present(p.college) {
          UpsertScore(BoardKey(COLLEGE, p.college.value + ":" + suffix, period), u, rating);
        }
        OnePeriod(before, p, period, u, rating);
        UpsertAppended(before, KeysOfPeriod(p, period), rest, u, rating);
        i := i + 1;
      }
    }

    method CommitChange(u: UserId, before: Stats, battleId: string, newRating: int, o: Outcome, p: Profile)
      returns (change: Change)
      modifies this
      ensures View() == Commit(old(View()), u, before, battleId, newRating, o, p)
      ensures change == Change(u, before.current, newRating, newRating - before.current, battleId)
              && history == old(history) + [change]
    {
      var _ := ApplyResult(u, newRating, o == Win, o == Draw);
      change := Change(u, before.current, newRating, newRating - before.current, battleId);
      history := history + [change];
      RefreshLeaderboards(u, newRating, p);
    }

    method ApplyBattleResult(r: BattleResult, profileA: Profile, profileB: Profile)
      returns (changes: Option<(Change, Change)>)
      modifies this
      ensures View() == Apply(pow, old(View()), r, profileA, profileB)
      ensures changes.Some? <==> r.rated
      ensures changes.Some? ==> history == old(history) + [changes.value.0, changes.value.1]
    {
      hide ComputePair, AfterResult, UpsertAll, KeysOf;
      if !r.rated {
        return None;
      }
      var statsA := StatsOf(View(), r.playerA);
      var statsB := StatsOf(View(), r.playerB);
      var o := OutcomeOfA(r);
      var (aNew, bNew) := ComputePair(pow, StandingOf(statsA), StandingOf(statsB), o);
      var a := CommitChange(r.playerA, statsA, r.battleId, aNew, o, profileA);
      var b := CommitChange(r.playerB, statsB, r.battleId, bNew, Opposite(o), profileB);
      changes := Some((a, b));
    }
  }

  lemma OnePeriod(boards: map<BoardKey, Board>, p: Profile, period: Period, u: UserId, rating: int)
    ensures var suffix := Suffix(p, period);
            var b1 := Upsert(boards, BoardKey(GLOBAL, suffix, period), u, rating);
            var b2 := if Present(p.country) then
                        Upsert(b1, BoardKey(COUNTRY, p.country.value + ":" + suffix, period), u, rating) else b1;
            var b3 := if Present(p.college) then
                        Upsert(b2, BoardKey(COLLEGE, p.college.value + ":" + suffix, period), u, rating) else b2;
            UpsertAll(boards, KeysOfPeriod(p, period), u, rating) == b3
  {
    hide Upsert;
    var suffix := Suffix(p, period);
    var country := if Present(p.country) then [BoardKey(COUNTRY, p.country.value + ":" + suffix, period)] else [];
    var college := if Present(p.college) then [BoardKey(COLLEGE, p.college.value + ":" + suffix, period)] else [];
    var global := BoardKey(GLOBAL, suffix, period);
    UpsertAppended(boards, [global] + country, college, u, rating);
    UpsertAppended(boards, [global], country, u, rating);
  }

  lemma {:induction false} UpsertAppended(boards: map<BoardKey, Board>, keys: seq<BoardKey>, more: seq<BoardKey>,
      u: UserId, rating: int)
    ensures UpsertAll(boards, keys + more, u, rating) == UpsertAll(UpsertAll(boards, keys, u, rating), more, u, rating)
    decreases |keys|
  {
    if keys == [] {
      assert keys + more == more;
    } else {
      assert (keys + more)[1..] == keys[1..] + more;
      UpsertAppended(Upsert(boards, keys[0], u, rating), keys[1..], more, u, rating);
    }
  }
}
