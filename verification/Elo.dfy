/**
  Elo arithmetic over the reals.

  The one thing taken as given is the curve d -> 10 ** (d / 400): positive, growing, and turning sums
  into products.  That the expected scores lie in (0, 1) and sum to 1 is derived from it.
*/
module Elo {
  import opened Numbers

  const K_PROVISIONAL := 40
  const K_STANDARD := 20
  const K_ELITE := 10
  const PROVISIONAL_GAMES := 30
  const ELITE_THRESHOLD := 2400
  const FLOOR := 100

  datatype Outcome = Win | Loss | Draw

  // What of a player's statistics the arithmetic looks at.
  datatype Standing = Standing(games: nat, current: int)

  type Curve = f: int -> real | forall d :: f(d) > 0.0 witness ((d: int) => 1.0)

  // What is needed of 10 ** (d / 400), besides being positive.
  ghost predicate IsPower(pow: Curve) {
    && (forall d :: pow(d) * pow(-d) == 1.0)
    && (forall d, e :: d <= e ==> pow(d) <= pow(e))
  }

  function ExpectedScore(pow: Curve, self: int, opponent: int): real
  {
    1.0 / (1.0 + pow(opponent - self))
  }

  function KFactor(s: Standing): int {
    if s.games < PROVISIONAL_GAMES then K_PROVISIONAL
    else if s.current >= ELITE_THRESHOLD then K_ELITE
    else K_STANDARD
  }

  function ScoreOf(o: Outcome): real {
    match o
    case Win => 1.0
    case Draw => 0.5
    case Loss => 0.0
  }

  function Opposite(o: Outcome): Outcome {
    match o
    case Win => Loss
    case Loss => Win
    case Draw => Draw
  }

  function Points(k: int, surprise: real): int {
    Round(k as real * surprise)
  }

  // The change before the floor is applied.
  function Delta(pow: Curve, s: Standing, opponent: int, o: Outcome): int
  {
    Points(KFactor(s), ScoreOf(o) - ExpectedScore(pow, s.current, opponent))
  }

  function NextRating(pow: Curve, s: Standing, opponent: int, o: Outcome): int
  {
    var moved := s.current + Delta(pow, s, opponent, o);
    if moved < FLOOR then FLOOR else moved
  }

  function ComputePair(pow: Curve, a: Standing, b: Standing, aOutcome: Outcome): (int, int)
  {
    (NextRating(pow, a, b.current, aOutcome), NextRating(pow, b, a.current, Opposite(aOutcome)))
  }

  // ── expected scores ──────────────────────────────────────────────

  lemma Reciprocal(y: real)
    requires y > 0.0
    ensures var e := 1.0 / (1.0 + y);
            0.0 < e < 1.0 && e * (1.0 + y) == 1.0
  {
  }

  lemma ReciprocalsSum(x: real, y: real)
    requires x > 0.0 && y > 0.0 && x * y == 1.0
    ensures 1.0 / (1.0 + x) + 1.0 / (1.0 + y) == 1.0
  {
    var e := 1.0 / (1.0 + y);
    Reciprocal(y);
    assert (x * e) * (1.0 + y) == x * (e * (1.0 + y)) == x;
    assert (1.0 - e) * (1.0 + x) == 1.0 + x - e - x * e;
    assert e + x * e == x by {
      assert x * (e * (1.0 + y)) == x * e + (x * y) * e;
    }
    assert (1.0 - e) * (1.0 + x) == 1.0;
  }

  /** The two expected scores are probabilities and sum to 1. */
  lemma ExpectedScoresSumToOne(pow: Curve, a: int, b: int)
    requires IsPower(pow)
    ensures 0.0 < ExpectedScore(pow, a, b) < 1.0
    ensures ExpectedScore(pow, a, b) + ExpectedScore(pow, b, a) == 1.0
  {
    var d := b - a;
    assert -d == a - b;
    Reciprocal(pow(d));
    ReciprocalsSum(pow(d), pow(-d));
  }

  lemma InversesFall(p: real, q: real, e: real, f: real)
    requires 0.0 < p <= q && e * p == 1.0 && f * q == 1.0 && f > 0.0
    ensures f <= e
  {
    if e < f {
      ScaleUp(e, f, p);
      ScaleUp(p, q, f);
    }
  }

  lemma ReciprocalsFall(x: real, y: real)
    requires 0.0 < x <= y
    ensures 1.0 / (1.0 + y) <= 1.0 / (1.0 + x)
  {
    Reciprocal(x);
    Reciprocal(y);
    InversesFall(1.0 + x, 1.0 + y, 1.0 / (1.0 + x), 1.0 / (1.0 + y));
  }

  /** The stronger the opponent, the less is expected. */
  lemma StrongerOpponentExpectsLess(pow: Curve, self: int, opponent: int, stronger: int)
    requires IsPower(pow) && opponent <= stronger
    ensures ExpectedScore(pow, self, stronger) <= ExpectedScore(pow, self, opponent)
  {
    ReciprocalsFall(pow(opponent - self), pow(stronger - self));
  }

  // ── one rating ───────────────────────────────────────────────────

  lemma PointsWithin(k: int, x: real)
    requires k > 0 && -1.0 <= x <= 1.0
    ensures -k <= Points(k, x) <= k
    ensures x >= 0.0 ==> Points(k, x) >= 0
    ensures x <= 0.0 ==> Points(k, x) <= 0
  {
    PointsGrow(k, -1.0, x);
    PointsGrow(k, x, 1.0);
    if x >= 0.0 { PointsGrow(k, 0.0, x); }
    if x <= 0.0 { PointsGrow(k, x, 0.0); }
    WholePoints(k);
  }

  lemma WholePoints(k: int)
    ensures Points(k, -1.0) == -k && Points(k, 0.0) == 0 && Points(k, 1.0) == k
  {
    assert k as real * -1.0 == (-k) as real;
  }

  lemma KIsPositive(s: Standing)
    ensures KFactor(s) in {40, 20, 10}
  {
  }

  lemma PointsGrow(k: int, x: real, y: real)
    requires k > 0 && x <= y
    ensures Points(k, x) <= Points(k, y)
  {
    ScaleUp(x, y, k as real);
    RoundIsMonotone(k as real * x, k as real * y);
  }

  /**
    No rating at or above the floor moves by more than its K, a win never lowers it and a loss never raises
    it; and no rating, whatever it was, ends below the floor.
  */
  lemma MovesWithinK(pow: Curve, s: Standing, opponent: int, o: Outcome)
    requires IsPower(pow)
    ensures var next := NextRating(pow, s, opponent, o);
            && next >= 100
            && (s.current >= 100 ==> s.current - KFactor(s) <= next <= s.current + KFactor(s))
            && (o.Win? ==> next >= s.current)
            && (o.Loss? && s.current >= 100 ==> next <= s.current)
  {
    ExpectedScoresSumToOne(pow, s.current, opponent);
    hide ExpectedScore, Points, IsPower, KFactor;
    KIsPositive(s);
    PointsWithin(KFactor(s), ScoreOf(o) - ExpectedScore(pow, s.current, opponent));
  }

  /** Results are ordered: a draw never earns less than a loss, nor more than a win. */
  lemma BetterResultsEarnMore(pow: Curve, s: Standing, opponent: int)
    requires IsPower(pow)
    ensures NextRating(pow, s, opponent, Loss) <= NextRating(pow, s, opponent, Draw)
    ensures NextRating(pow, s, opponent, Draw) <= NextRating(pow, s, opponent, Win)
  {
    hide Points, ExpectedScore, KFactor;
    KIsPositive(s);
    var e := ExpectedScore(pow, s.current, opponent);
    PointsGrow(KFactor(s), ScoreOf(Loss) - e, ScoreOf(Draw) - e);
    PointsGrow(KFactor(s), ScoreOf(Draw) - e, ScoreOf(Win) - e);
  }

  /** The same result against a stronger opponent never earns less. */
  lemma StrongerOpponentEarnsMore(pow: Curve, s: Standing, opponent: int, stronger: int, o: Outcome)
    requires IsPower(pow) && opponent <= stronger
    ensures NextRating(pow, s, opponent, o) <= NextRating(pow, s, stronger, o)
  {
    StrongerOpponentExpectsLess(pow, s.current, opponent, stronger);
    hide Points, ExpectedScore, KFactor;
    KIsPositive(s);
    PointsGrow(KFactor(s), ScoreOf(o) - ExpectedScore(pow, s.current, opponent),
               ScoreOf(o) - ExpectedScore(pow, s.current, stronger));
  }

  /**
    K never grows as a player plays more and climbs, and falls exactly at the 30th game and, from there on, at 2400.
  */
  lemma KShrinks(s: Standing, t: Standing)
    requires s.games <= t.games && s.current <= t.current
    ensures KFactor(t) <= KFactor(s) && KFactor(s) in {40, 20, 10}
    ensures KFactor(t) < KFactor(s) <==>
              t.games >= 30 && (s.games < 30 || s.current < 2400 <= t.current)
  {
  }

  /**
    Against an equal opponent, oneself included, a rating at or above the floor stays exactly after a draw or a loss
    at the floor.
  */
  lemma EqualOpponents(pow: Curve, s: Standing, o: Outcome)
    requires IsPower(pow) && s.current >= FLOOR
    ensures NextRating(pow, s, s.current, o) == s.current <==> o == Draw || (o == Loss && s.current == FLOOR)
  {
    hide ExpectedScore, IsPower, Points, KFactor;
    ExpectedScoresSumToOne(pow, s.current, s.current);
    KIsPositive(s);
    HalfPoints(KFactor(s));
  }

  lemma HalfPoints(k: int)
    requires k in {K_PROVISIONAL, K_STANDARD, K_ELITE}
    ensures Points(k, 0.5) == k / 2 > 0 && Points(k, 0.0) == 0 && Points(k, -0.5) == -(k / 2)
  {
  }

  // ── a pair ───────────────────────────────────────────────────────

  // x lies halfway between two whole numbers.
  ghost predicate IsHalf(x: real) {
    (x + 0.5).Floor as real == x + 0.5
  }

  lemma RoundedPair(x: real)
    ensures Round(x) + Round(-x) == if IsHalf(x) then 1 else 0
  {
    var n := (x + 0.5).Floor;
    assert n as real <= x + 0.5 < (n + 1) as real;
    if IsHalf(x) {
      assert -x + 0.5 == (1 - n) as real;
    } else {
      assert (-n) as real <= -x + 0.5 < (1 - n) as real;
    }
  }

  lemma PointsOfPair(k: int, x: real, y: real)
    requires y == -x
    ensures Points(k, x) + Points(k, y) == if IsHalf(k as real * x) then 1 else 0
  {
    assert k as real * y == -(k as real * x);
    RoundedPair(k as real * x);
  }

  // What the first player's result is worth before rounding.
  function Earned(pow: Curve, a: Standing, b: Standing, aOutcome: Outcome): real
  {
    KFactor(a) as real * (ScoreOf(aOutcome) - ExpectedScore(pow, a.current, b.current))
  }

  lemma DeltasSum(pow: Curve, a: Standing, b: Standing, aOutcome: Outcome)
    requires IsPower(pow) && KFactor(a) == KFactor(b)
    ensures Delta(pow, a, b.current, aOutcome) + Delta(pow, b, a.current, Opposite(aOutcome))
              == if IsHalf(Earned(pow, a, b, aOutcome)) then 1 else 0
  {
    ExpectedScoresSumToOne(pow, a.current, b.current);
    hide Points, ExpectedScore, IsHalf, IsPower, KFactor;
    PointsOfPair(KFactor(a),
                 ScoreOf(aOutcome) - ExpectedScore(pow, a.current, b.current),
                 ScoreOf(Opposite(aOutcome)) - ExpectedScore(pow, b.current, a.current));
  }

  /**
    With equal K the points of a pair are conserved up to rounding: unless the floor interferes the sum
    moves by 0 or 1, by 1 exactly when the exact exchange ends in one half; and the floor only adds points.
  */
  lemma PairSum(pow: Curve, a: Standing, b: Standing, aOutcome: Outcome)
    requires IsPower(pow) && KFactor(a) == KFactor(b)
    ensures var (aNew, bNew) := ComputePair(pow, a, b, aOutcome);
            && aNew + bNew >= a.current + b.current
            && (aNew > 100 && bNew > 100 ==>
                  aNew + bNew == a.current + b.current + if IsHalf(Earned(pow, a, b, aOutcome)) then 1 else 0)
  {
    hide Delta, Earned, IsHalf, KFactor;
    DeltasSum(pow, a, b, aOutcome);
  }

  lemma SelfPlay(pow: Curve, s: Standing, o: Outcome)
    requires IsPower(pow) && s.current >= FLOOR
    ensures ComputePair(pow, s, s, o).0 == s.current <==> o == Draw || (o == Loss && s.current == FLOOR)
  {
    hide NextRating, IsPower;
    EqualOpponents(pow, s, o);
  }
}
