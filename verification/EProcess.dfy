/**
 The evidence machine of the nightly scorecard: `eprocess_wealth` bets a fixed
 fraction of wealth on every graded trade, averages three betting fractions, and
 the scorecard unlocks a pilot at wealth 5 and sized trading at wealth 20.

 A sampling plan is a finite probability tree.  Every node lists the possible next
 returns with their conditional probabilities, so a branch may depend on the whole
 past.  "Wealth ever reaches c" is the probability that some prefix of the realised
 returns has wealth at least c, which is what a grader that looks every night sees.
 */
module EProcess {
  import opened Numbers

  const LAMBDAS: seq<real> := [0.05, 0.10, 0.20]
  const R_CAP: real := 2.0
  const WEALTH_PILOT: real := 5.0
  const WEALTH_LIVE: real := 20.0

  /** The return a bet is settled on: at worst the whole premium, at best `R_CAP`. */
  function Clamp(r: real): real { Min(Max(r, -1.0), R_CAP) }

  /** What one settled trade multiplies the wealth of fraction `lam` by. */
  function Factor(lam: real, r: real): real { Max(0.000000000001, 1.0 + lam * Clamp(r)) }

  /** Wealth of a single betting fraction after the returns `rs`. */
  function Growth(lam: real, rs: seq<real>): real {
    if rs == [] then 1.0 else Growth(lam, rs[..|rs| - 1]) * Factor(lam, rs[|rs| - 1])
  }

  /** Wealth of the equal mixture of the three fractions. */
  function Wealth(rs: seq<real>): real {
    (Growth(0.05, rs) + Growth(0.10, rs) + Growth(0.20, rs)) / 3.0
  }

  method EprocessWealth(rs: seq<real>) returns (w: real)
    ensures w == Wealth(rs)
  {
    if |rs| == 0 {
      return 1.0;
    }
    var wealth: seq<real> := [];
    for k := 0 to |LAMBDAS|
      invariant |wealth| == k
      invariant forall j :: 0 <= j < k ==> wealth[j] == Growth(LAMBDAS[j], rs)
    {
      var v := Compound(LAMBDAS[k], rs);
      wealth := wealth + [v];
    }
    w := Sum(wealth) / (|wealth| as real);
    MeanOfThree(wealth);
  }

  /** The inner loop: one betting fraction over the trades in time order. */
  method Compound(lam: real, rs: seq<real>) returns (w: real)
    ensures w == Growth(lam, rs)
  {
    w := 1.0;
    for i := 0 to |rs|
      invariant w == Growth(lam, rs[..i])
    {
      assert rs[..i + 1][..i] == rs[..i];
      w := w * Factor(lam, rs[i]);
    }
    assert rs[..|rs|] == rs;
  }

  lemma MeanOfThree(xs: seq<real>)
    requires |xs| == 3
    ensures Sum(xs) / (|xs| as real) == (xs[0] + xs[1] + xs[2]) / 3.0
  {
    assert xs[..2][..1] == xs[..1] && xs[..1][..0] == [];
    assert Sum(xs[..1]) == xs[0];
    assert Sum(xs[..2]) == xs[0] + xs[1];
  }

  // ---------------------------------------------------------------- one bet

  /** With the fractions in use the floor of the source never binds: one bet can cost at
      most a fifth of the wealth behind it, and win at most two premiums on its stake. */
  lemma FactorIsLinear(lam: real, r: real)
    requires 0.0 <= lam <= 0.20
    ensures 0.8 <= Factor(lam, r) == 1.0 + lam * Clamp(r) <= 1.0 + 2.0 * lam
  {
    ClampRange(r);
    hide Clamp;
    FloorIdle(lam, Clamp(r));
  }

  /** The floor leaves a factor within range as it is. */
  lemma FloorIdle(lam: real, c: real)
    requires 0.0 <= lam <= 0.20 && -1.0 <= c <= 2.0
    ensures 0.8 <= Max(0.000000000001, 1.0 + lam * c) == 1.0 + lam * c <= 1.0 + 2.0 * lam
  {
    ScaleRange(lam, c);
    AboveFloor(lam, lam * c);
  }

  lemma AboveFloor(lam: real, x: real)
    requires 0.0 <= lam <= 0.20 && -lam <= x <= 2.0 * lam
    ensures 0.8 <= Max(0.000000000001, 1.0 + x) == 1.0 + x <= 1.0 + 2.0 * lam
  {
  }

  lemma ClampRange(r: real)
    ensures -1.0 <= Clamp(r) <= 2.0
  {
  }

  lemma ScaleRange(lam: real, c: real)
    requires 0.0 <= lam && -1.0 <= c <= 2.0
    ensures -lam <= lam * c <= 2.0 * lam
  {
    assert lam * (c + 1.0) >= 0.0;
    assert lam * (2.0 - c) >= 0.0;
  }

  lemma OneBet(lam: real, rs: seq<real>, r: real)
    requires 0.0 <= lam <= 0.20
    ensures Growth(lam, rs + [r]) == Growth(lam, rs) + lam * Growth(lam, rs) * Clamp(r)
  {
    assert (rs + [r])[..|rs|] == rs;
    FactorIsLinear(lam, r);
    MulOnePlus(Growth(lam, rs), lam, Clamp(r));
  }

  lemma MulOnePlus(g: real, lam: real, c: real)
    ensures g * (1.0 + lam * c) == g + lam * g * c
  {
  }

  lemma {:induction false} GrowthPositive(lam: real, rs: seq<real>)
    requires 0.0 <= lam
    ensures Growth(lam, rs) > 0.0
  {
    if rs == [] {
    } else {
      GrowthPositive(lam, rs[..|rs| - 1]);
      var g, f := Growth(lam, rs[..|rs| - 1]), Factor(lam, rs[|rs| - 1]);
      assert g * f > 0.0;
    }
  }

  lemma WealthPositive(rs: seq<real>)
    ensures Wealth(rs) > 0.0
  {
    GrowthPositive(0.05, rs);
    GrowthPositive(0.10, rs);
    GrowthPositive(0.20, rs);
  }

  function Pow(b: real, n: nat): real { if n == 0 then 1.0 else Pow(b, n - 1) * b }

  lemma GrowthStep(lam: real, past: seq<real>, r: real)
    ensures Growth(lam, past + [r]) == Growth(lam, past) * Factor(lam, r)
  {
    hide Factor;
    assert (past + [r])[..|past|] == past;
  }

  lemma PowStep(b: real, n: nat)
    ensures Pow(b, n + 1) == Pow(b, n) * b
  {
  }

  lemma {:induction false} GrowthCapped(lam: real, rs: seq<real>)
    requires 0.0 <= lam <= 0.20
    ensures 0.0 < Growth(lam, rs) <= Pow(1.0 + 2.0 * lam, |rs|)
    decreases |rs|, 0
  {
    if rs == [] {
    } else {
      GrowthCappedStep(lam, rs[..|rs| - 1], rs[|rs| - 1]);
      assert rs == rs[..|rs| - 1] + [rs[|rs| - 1]];
    }
  }

  lemma {:induction false} GrowthCappedStep(lam: real, past: seq<real>, r: real)
    requires 0.0 <= lam <= 0.20
    ensures 0.0 < Growth(lam, past + [r]) <= Pow(1.0 + 2.0 * lam, |past| + 1)
    decreases |past|, 1
  {
    hide Growth, Pow, Factor, Clamp;
    var b := 1.0 + 2.0 * lam;
    GrowthCapped(lam, past);
    GrowthStep(lam, past, r);
    PowStep(b, |past|);
    FactorIsLinear(lam, r);
    MulBound(Growth(lam, past), Pow(b, |past|), Factor(lam, r), b);
  }

  lemma MulBound(g: real, p: real, f: real, b: real)
    requires 0.0 < g <= p && 0.0 < f <= b
    ensures 0.0 < g * f <= p * b
  {
    assert g * f <= p * f <= p * b;
  }

  lemma {:induction false} PowGrows(b: real, m: nat, n: nat)
    requires b >= 1.0 && m <= n
    ensures 1.0 <= Pow(b, m) <= Pow(b, n)
    decreases n
  {
    if n == 0 {
    } else {
      PowGrows(b, if m < n then m else n - 1, n - 1);
      MulBound(1.0, Pow(b, n - 1), 1.0, b);
      assert Pow(b, n - 1) * b >= Pow(b, n - 1) * 1.0;
    }
  }

  /** The win cap at work: no fluke unlocks anything.  The pilot bar takes at least seven
      graded trades and the live bar at least twelve, however large the wins. */
  lemma UnlockNeedsTrades(rs: seq<real>)
    ensures Wealth(rs) >= WEALTH_PILOT ==> |rs| >= 7
    ensures Wealth(rs) >= WEALTH_LIVE ==> |rs| >= 12
  {
    GrowthCapped(0.05, rs);
    GrowthCapped(0.10, rs);
    GrowthCapped(0.20, rs);
    if |rs| < 7 {
      WinsAtMost(|rs|, 6);
      SixWins();
    }
    if |rs| < 12 {
      WinsAtMost(|rs|, 11);
      ElevenWins();
    }
  }

  function Wins(n: nat): real { (Pow(1.1, n) + Pow(1.2, n) + Pow(1.4, n)) / 3.0 }

  lemma WinsAtMost(m: nat, n: nat)
    requires m <= n
    ensures Wins(m) <= Wins(n)
  {
    PowGrows(1.1, m, n);
    PowGrows(1.2, m, n);
    PowGrows(1.4, m, n);
  }

  lemma PowFive(b: real)
    ensures Pow(b, 5) == b * b * b * b * b
    ensures Pow(b, 6) == Pow(b, 5) * b
    ensures Pow(b, 11) == Pow(b, 6) * b * b * b * b * b
  {
    assert Pow(b, 1) == b;
    assert Pow(b, 3) == b * b * b;
    assert Pow(b, 8) == Pow(b, 6) * b * b;
    assert Pow(b, 10) == Pow(b, 8) * b * b;
  }

  lemma SixWins()
    ensures Wins(6) < WEALTH_PILOT
  {
    PowFive(1.1);
    PowFive(1.2);
    PowFive(1.4);
  }

  lemma ElevenWins()
    ensures Wins(11) < WEALTH_LIVE
  {
    PowFive(1.1);
    PowFive(1.2);
    PowFive(1.4);
  }

  // ---------------------------------------------------------------- sampling plans

  datatype Tree = Stop | Trade(arms: Arms)

  /** The possible next returns of one node. */
  datatype Arms = Done | Arm(prob: real, ret: real, next: Tree, others: Arms)

  function Mass(a: Arms): real {
    match a
    case Done => 0.0
    case Arm(p, _, _, others) => p + Mass(others)
  }

  /** Conditional expectation of `f` of the next return. */
  function Expect(a: Arms, f: real -> real): real {
    match a
    case Done => 0.0
    case Arm(p, r, _, others) => p * f(r) + Expect(others, f)
  }

  function Return(r: real): real { r }

  /** Conditional mean of the return. */
  function Mean(a: Arms): real { Expect(a, Return) }

  /** Conditional mean of the return the bet is settled on. */
  function ClampedMean(a: Arms): real { Expect(a, Clamp) }

  /** A probability tree: nonnegative branch weights that sum to one at every node. */
  predicate IsPlan(t: Tree) {
    t.Trade? ==> Mass(t.arms) == 1.0 && ArePlans(t.arms)
  }

  predicate ArePlans(a: Arms) {
    a.Arm? ==> a.prob >= 0.0 && IsPlan(a.next) && ArePlans(a.others)
  }

  /** The null hypothesis as the source states it: no return below -1 (a long option
      cannot lose more than its premium) and conditional mean at most 0. */
  predicate Null(t: Tree) {
    t.Trade? ==> Mean(t.arms) <= 0.0 && NullArms(t.arms)
  }

  predicate NullArms(a: Arms) {
    a.Arm? ==> a.ret >= -1.0 && Null(a.next) && NullArms(a.others)
  }

  /** No favourable bet after clamping. */
  predicate Unfavourable(t: Tree) {
    t.Trade? ==> ClampedMean(t.arms) <= 0.0 && UnfavourableArms(t.arms)
  }

  predicate UnfavourableArms(a: Arms) {
    a.Arm? ==> Unfavourable(a.next) && UnfavourableArms(a.others)
  }

  lemma {:induction false} NullIsUnfavourable(t: Tree)
    requires IsPlan(t) && Null(t)
    ensures Unfavourable(t)
    decreases t, 1
  {
    if t.Stop? {
    } else {
      NullArmsAreUnfavourable(t.arms);
    }
  }

  lemma {:induction false} NullArmsAreUnfavourable(a: Arms)
    requires ArePlans(a) && NullArms(a)
    ensures UnfavourableArms(a) && ClampedMean(a) <= Mean(a)
    decreases a, 0
  {
    if a.Done? {
    } else {
      NullIsUnfavourable(a.next);
      NullArmsAreUnfavourable(a.others);
      assert a.prob * Clamp(a.ret) <= a.prob * a.ret;
    }
  }

  // ---------------------------------------------------------------- supermartingale

  /** `w` is a positive wealth process: before each trade some positive stake is fixed,
      and the trade pays that stake times its clamped return. */
  ghost predicate Bets(w: seq<real> -> real) {
    forall past :: BetsAt(w, past)
  }

  ghost predicate BetsAt(w: seq<real> -> real, past: seq<real>) {
    w(past) > 0.0 && exists s :: s > 0.0 && Stakes(w, past, s)
  }

  ghost predicate Stakes(w: seq<real> -> real, past: seq<real>, s: real) {
    forall r :: w(past + [r]) == w(past) + s * Clamp(r)
  }

  lemma WealthBets()
    ensures Bets(Wealth)
  {
    forall past ensures BetsAt(Wealth, past) {
      WealthPositive(past);
      var s := WealthStake(past);
    }
  }

  lemma WealthStake(past: seq<real>) returns (s: real)
    ensures s > 0.0 && Stakes(Wealth, past, s)
  {
    GrowthPositive(0.05, past);
    GrowthPositive(0.10, past);
    GrowthPositive(0.20, past);
    s := (0.05 * Growth(0.05, past) + 0.10 * Growth(0.10, past) + 0.20 * Growth(0.20, past)) / 3.0;
    forall r ensures Wealth(past + [r]) == Wealth(past) + s * Clamp(r) {
      WealthMoves(past, r, s);
    }
  }

  lemma WealthMoves(past: seq<real>, r: real, s: real)
    requires s == (0.05 * Growth(0.05, past) + 0.10 * Growth(0.10, past) + 0.20 * Growth(0.20, past)) / 3.0
    ensures Wealth(past + [r]) == Wealth(past) + s * Clamp(r)
  {
    hide Growth, Factor, Clamp;
    OneBet(0.05, past, r);
    OneBet(0.10, past, r);
    OneBet(0.20, past, r);
    Mix(Growth(0.05, past), Growth(0.10, past), Growth(0.20, past), Clamp(r),
        Growth(0.05, past + [r]), Growth(0.10, past + [r]), Growth(0.20, past + [r]));
  }

  lemma Mix(a: real, b: real, d: real, c: real, a': real, b': real, d': real)
    requires a' == a + 0.05 * a * c && b' == b + 0.10 * b * c && d' == d + 0.20 * d * c
    ensures (a' + b' + d') / 3.0 == (a + b + d) / 3.0 + (0.05 * a + 0.10 * b + 0.20 * d) / 3.0 * c
  {
  }

  /** Expected wealth after the next trade, given the returns so far. */
  function ExpectedNext(w: seq<real> -> real, a: Arms, past: seq<real>): real {
    Expect(a, r => w(past + [r]))
  }

  lemma {:induction false} ExpectAffine(a: Arms, f: real -> real, g: real -> real, w: real, s: real)
    requires forall r :: f(r) == w + s * g(r)
    ensures Expect(a, f) == w * Mass(a) + s * Expect(a, g)
  {
    match a
    case Done =>
    case Arm(p, r, _, others) =>
      ExpectAffine(others, f, g, w, s);
      assert f(r) == w + s * g(r);
      Distribute(p, w, s, g(r), Mass(others), Expect(others, g), f(r));
  }

  lemma Distribute(p: real, w: real, s: real, c: real, m: real, k: real, x: real)
    requires x == w + s * c
    ensures p * x + (w * m + s * k) == w * (p + m) + s * (p * c + k)
  {
    assert p * (w + s * c) == p * w + p * (s * c);
    assert p * (s * c) == s * (p * c);
  }

  /** The exact condition for the wealth to be a supermartingale at a node. */
  lemma SupermartingaleIff(w: seq<real> -> real, a: Arms, past: seq<real>)
    requires Bets(w) && Mass(a) == 1.0
    ensures ExpectedNext(w, a, past) <= w(past) <==> ClampedMean(a) <= 0.0
  {
    hide Clamp, Expect, Mass;
    assert BetsAt(w, past);
    var s :| s > 0.0 && Stakes(w, past, s);
    ExpectAffine(a, r => w(past + [r]), Clamp, w(past), s);
    SignOfStep(ExpectedNext(w, a, past), w(past), s, ClampedMean(a));
  }

  /** The claim about the code's own wealth: at every node of every plan the expected wealth after
      the next trade is at most the present wealth exactly when the mean clamped return is at
      most 0. */
  lemma WealthSupermartingaleIff(a: Arms, past: seq<real>)
    requires Mass(a) == 1.0
    ensures ExpectedNext(Wealth, a, past) <= Wealth(past) <==> ClampedMean(a) <= 0.0
  {
    WealthBets();
    hide *;
    SupermartingaleIff(Wealth, a, past);
  }

  lemma SignOfStep(e: real, w: real, s: real, m: real)
    requires s > 0.0 && e == w * 1.0 + s * m
    ensures e <= w <==> m <= 0.0
  {
  }

  // ---------------------------------------------------------------- Ville's inequality

  /** Probability that the wealth is at least `c` now or at any later look. */
  function EverReaches(w: seq<real> -> real, t: Tree, past: seq<real>, c: real): real
    decreases t
  {
    if w(past) >= c then 1.0
    else if t.Stop? then 0.0
    else SomeArmReaches(w, t.arms, past, c)
  }

  function SomeArmReaches(w: seq<real> -> real, a: Arms, past: seq<real>, c: real): real
    decreases a
  {
    match a
    case Done => 0.0
    case Arm(p, r, next, others) =>
      p * EverReaches(w, next, past + [r], c) + SomeArmReaches(w, others, past, c)
  }

  /** `v` is at least 1 wherever `w` has reached `c`. */
  ghost predicate Dominates(v: seq<real> -> real, w: seq<real> -> real, c: real) {
    forall past :: w(past) >= c ==> v(past) >= 1.0
  }

  lemma {:induction false} Maximal(v: seq<real> -> real, w: seq<real> -> real,
                                   t: Tree, past: seq<real>, c: real)
    requires Bets(v) && Dominates(v, w, c) && IsPlan(t) && Unfavourable(t)
    ensures EverReaches(w, t, past, c) <= v(past)
    decreases t, 1
  {
    hide Mass, Expect, ArePlans, UnfavourableArms, SomeArmReaches;
    assert BetsAt(v, past);
    if w(past) >= c || t.Stop? {
    } else {
      MaximalArms(v, w, t.arms, past, c);
      SupermartingaleIff(v, t.arms, past);
    }
  }

  lemma {:induction false} MaximalArms(v: seq<real> -> real, w: seq<real> -> real,
                                       a: Arms, past: seq<real>, c: real)
    requires Bets(v) && Dominates(v, w, c) && ArePlans(a) && UnfavourableArms(a)
    ensures SomeArmReaches(w, a, past, c) <= ExpectedNext(v, a, past)
    decreases a, 0
  {
    hide IsPlan, Unfavourable, Bets, Dominates, EverReaches;
    match a
    case Done =>
    case Arm(p, r, next, others) =>
      Maximal(v, w, next, past + [r], c);
      MaximalArms(v, w, others, past, c);
      Weigh(p, EverReaches(w, next, past + [r], c), v(past + [r]));
  }

  lemma Weigh(p: real, e: real, v: real)
    requires p >= 0.0 && e <= v
    ensures p * e <= p * v
  {
  }

  /** Ville's inequality for the scorecard: under the null, the chance that any nightly
      look ever sees wealth `c` is at most `1/c`, at the pilot bar 20%, at the live bar 5%. */
  lemma Ville(t: Tree, c: real)
    requires IsPlan(t) && Null(t) && c > 0.0
    ensures EverReaches(Wealth, t, [], c) <= 1.0 / c
    ensures EverReaches(Wealth, t, [], WEALTH_PILOT) <= 0.20
    ensures EverReaches(Wealth, t, [], WEALTH_LIVE) <= 0.05
  {
    VilleAt(t, c);
    VilleAt(t, WEALTH_PILOT);
    VilleAt(t, WEALTH_LIVE);
  }

  lemma VilleAt(t: Tree, c: real)
    requires IsPlan(t) && Null(t) && c > 0.0
    ensures EverReaches(Wealth, t, [], c) <= 1.0 / c
  {
    NullIsUnfavourable(t);
    var v := (past: seq<real>) => Wealth(past) / c;
    assert Wealth([]) == 1.0;
    forall past: seq<real> ensures BetsAt(v, past) && (Wealth(past) >= c ==> v(past) >= 1.0) {
      WealthPositive(past);
      var s := WealthStake(past);
      ScaleStake(past, s, c);
    }
    Maximal(v, Wealth, t, [], c);
  }

  lemma ScaleStake(past: seq<real>, s: real, c: real)
    requires s > 0.0 && c > 0.0 && Wealth(past) > 0.0 && Stakes(Wealth, past, s)
    ensures var v := (p: seq<real>) => Wealth(p) / c;
            BetsAt(v, past) && (Wealth(past) >= c ==> v(past) >= 1.0)
  {
    hide Wealth, Clamp;
    var v := (p: seq<real>) => Wealth(p) / c;
    forall r ensures v(past + [r]) == v(past) + s / c * Clamp(r) {
      assert Wealth(past + [r]) == Wealth(past) + s * Clamp(r);
    }
    assert Stakes(v, past, s / c);
  }

  /** What a trade brings on a stake of one: at worst its loss, at best twice it. */
  function Settled(r: real): real { if r <= -1.0 then -1.0 else if r >= 2.0 then 2.0 else r }

  /** A book that starts at 1 and puts the share `lam` of itself on every trade. */
  ghost predicate Compounds(book: seq<real> -> real, lam: real) {
    && book([]) == 1.0
    && forall past, r :: book(past + [r]) == book(past) * (1.0 + lam * Settled(r))
  }

  lemma Settles(lam: real, r: real)
    requires 0.0 <= lam <= 0.20
    ensures Factor(lam, r) == 1.0 + lam * Settled(r)
  {
    FactorIsLinear(lam, r);
  }

  lemma {:induction false} GrowthCompounds(book: seq<real> -> real, lam: real, rs: seq<real>)
    requires Compounds(book, lam) && 0.0 <= lam <= 0.20
    ensures Growth(lam, rs) == book(rs)
    decreases |rs|
  {
    if rs == [] {
    } else {
      var init, r := rs[..|rs| - 1], rs[|rs| - 1];
      assert rs == init + [r];
      GrowthCompounds(book, lam, init);
      Settles(lam, r);
      hide Factor, Clamp;
    }
  }

  lemma BooksExist(lam: real)
    requires 0.0 <= lam <= 0.20
    ensures Compounds(rs => Growth(lam, rs), lam)
  {
    hide Factor, Clamp;
    forall past: seq<real>, r: real
      ensures Growth(lam, past + [r]) == Growth(lam, past) * (1.0 + lam * Settled(r)) {
      Settles(lam, r);
      assert (past + [r])[..|past|] == past;
    }
  }

  /** The wealth is the mean of three such books, with shares of 5, 10 and 20 percent. */
  lemma WealthIsMean(rs: seq<real>, small: seq<real> -> real, middle: seq<real> -> real, large: seq<real> -> real)
    requires Compounds(small, 0.05) && Compounds(middle, 0.10) && Compounds(large, 0.20)
    ensures Wealth(rs) == (small(rs) + middle(rs) + large(rs)) / 3.0
  {
    hide Compounds;
    GrowthCompounds(small, 0.05, rs);
    GrowthCompounds(middle, 0.10, rs);
    GrowthCompounds(large, 0.20, rs);
  }

  lemma OneTrade(r: real)
    ensures Wealth([]) == 1.0
    ensures Wealth([] + [r]) == 1.0 + (0.35 / 3.0) * Clamp(r)
  {
    OneBet(0.05, [], r);
    OneBet(0.10, [], r);
    OneBet(0.20, [], r);
  }

  /** A zero-mean plan that can lose 19 premiums at once. */
  const BAD_ARM: Arms := Arm(0.05, -19.0, Stop, Done)
  const UNBOUNDED_LOSS: Tree := Trade(Arm(0.95, 1.0, Stop, BAD_ARM))

  /** The premium bound is needed: without it a zero-mean plan is favourable after
      clamping and reaches wealth 1.1 with probability 0.95, more than 1/1.1. */
  lemma VilleNeedsBoundedLoss()
    ensures IsPlan(UNBOUNDED_LOSS) && Mean(UNBOUNDED_LOSS.arms) == 0.0
    ensures EverReaches(Wealth, UNBOUNDED_LOSS, [], 1.1) == 0.95 > 1.0 / 1.1
  {
    UnboundedLossIsPlan();
    UnboundedLossReaches();
  }

  lemma UnboundedLossIsPlan()
    ensures IsPlan(UNBOUNDED_LOSS) && Mean(UNBOUNDED_LOSS.arms) == 0.0
  {
    assert Mass(BAD_ARM) == 0.05 && ArePlans(BAD_ARM);
    hide ArePlans;
    assert Expect(BAD_ARM, Return) == 0.05 * Return(-19.0);
  }

  lemma UnboundedLossReaches()
    ensures EverReaches(Wealth, UNBOUNDED_LOSS, [], 1.1) == 0.95
  {
    OneTrade(1.0);
    OneTrade(-19.0);
    hide Wealth;
    var w := Wealth;
    assert w([]) == 1.0 && w([] + [1.0]) >= 1.1 > w([] + [-19.0]);
    assert EverReaches(w, Stop, [] + [-19.0], 1.1) == 0.0;
    assert SomeArmReaches(w, BAD_ARM, [], 1.1) == 0.0;
  }
}
