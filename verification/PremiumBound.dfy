/** How much a trade may lose for the bound on the betting evidence to hold: one premium, and no
    more.  A position of `k` contracts whose return is taken on one premium can lose `k`. */
module PremiumBound {
  import opened Numbers
  import opened EProcess

  /** The null hypothesis with losses of up to `k` premiums. */
  predicate NullWithin(t: Tree, k: real) {
    t.Trade? ==> Mean(t.arms) <= 0.0 && ArmsWithin(t.arms, k)
  }

  predicate ArmsWithin(a: Arms, k: real) {
    a.Arm? ==> a.ret >= -k && NullWithin(a.next, k) && ArmsWithin(a.others, k)
  }

  lemma {:induction false} WithinOne(t: Tree, k: real)
    requires NullWithin(t, k) && k <= 1.0
    ensures Null(t)
    decreases t, 1
  {
    if t.Stop? {
    } else {
      ArmsWithinOne(t.arms, k);
    }
  }

  lemma {:induction false} ArmsWithinOne(a: Arms, k: real)
    requires ArmsWithin(a, k) && k <= 1.0
    ensures NullArms(a)
    decreases a, 0
  {
    match a
    case Done =>
    case Arm(_, _, next, others) =>
      WithinOne(next, k);
      ArmsWithinOne(others, k);
  }

  lemma {:induction false} WithinMore(t: Tree, k: real, m: real)
    requires NullWithin(t, k) && k <= m
    ensures NullWithin(t, m)
    decreases t, 1
  {
    if t.Stop? {
    } else {
      ArmsWithinMore(t.arms, k, m);
    }
  }

  lemma {:induction false} ArmsWithinMore(a: Arms, k: real, m: real)
    requires ArmsWithin(a, k) && k <= m
    ensures ArmsWithin(a, m)
    decreases a, 0
  {
    match a
    case Done =>
    case Arm(_, _, next, others) =>
      WithinMore(next, k, m);
      ArmsWithinMore(others, k, m);
  }

  // ---------------------------------------------------------------- two contracts

  /** Zero-mean trades that win a little or lose two premiums. */
  function Either(p: real, win: real, won: Tree, lost: Tree): Tree {
    Trade(Arm(p, win, won, Arm(1.0 - p, -2.0, lost, Done)))
  }

  const FOURTH: Tree := Either(100.0 / 127.0, 0.54, Stop, Stop)
  const THIRD: Tree := Either(0.5, 2.0, FOURTH, Stop)
  const SECOND: Tree := Either(20.0 / 33.0, 1.3, Stop, THIRD)
  const TWO_CONTRACTS: Tree := Either(20.0 / 21.0, 0.1, Stop, SECOND)

  const BAR: real := 1.0116

  lemma EitherIsFair(p: real, win: real, won: Tree, lost: Tree)
    requires 0.0 <= p <= 1.0 && win >= 0.0 && p * win == (1.0 - p) * 2.0
    requires IsPlan(won) && IsPlan(lost) && NullWithin(won, 2.0) && NullWithin(lost, 2.0)
    ensures var t := Either(p, win, won, lost); IsPlan(t) && NullWithin(t, 2.0) && Mean(t.arms) == 0.0
  {
    var rest := Arm(1.0 - p, -2.0, lost, Done);
    assert Mass(rest) == 1.0 - p && ArePlans(rest) && ArmsWithin(rest, 2.0);
    assert Mean(rest) == (1.0 - p) * Return(-2.0) + Mean(Done);
    var all := Arm(p, win, won, rest);
    assert Mass(all) == 1.0 && ArePlans(all) && ArmsWithin(all, 2.0);
    assert Mean(all) == p * Return(win) + Mean(rest);
  }

  lemma TwoContractsIsFair()
    ensures IsPlan(TWO_CONTRACTS) && NullWithin(TWO_CONTRACTS, 2.0)
  {
    hide Either, IsPlan, NullWithin;
    StopIsFair();
    EitherIsFair(100.0 / 127.0, 0.54, Stop, Stop);
    EitherIsFair(0.5, 2.0, FOURTH, Stop);
    EitherIsFair(20.0 / 33.0, 1.3, Stop, THIRD);
    EitherIsFair(20.0 / 21.0, 0.1, Stop, SECOND);
  }

  lemma StopIsFair()
    ensures IsPlan(Stop) && NullWithin(Stop, 2.0)
  {
  }

  /** The three betting fractions after some returns. */
  predicate Holds(rs: seq<real>, a: real, b: real, d: real) {
    Growth(0.05, rs) == a && Growth(0.10, rs) == b && Growth(0.20, rs) == d
  }

  lemma Bet(rs: seq<real>, r: real, a: real, b: real, d: real)
    requires Holds(rs, a, b, d)
    ensures var c := Clamp(r); Holds(rs + [r], a + 0.05 * a * c, b + 0.10 * b * c, d + 0.20 * d * c)
  {
    hide Clamp, Growth;
    OneBet(0.05, rs, r);
    OneBet(0.10, rs, r);
    OneBet(0.20, rs, r);
  }

  /** Chance to reach the bar from a node of the two-armed kind that is below it. */
  lemma EitherReaches(p: real, win: real, won: Tree, lost: Tree, past: seq<real>)
    requires Wealth(past) < BAR
    ensures EverReaches(Wealth, Either(p, win, won, lost), past, BAR)
      == p * EverReaches(Wealth, won, past + [win], BAR) + (1.0 - p) * EverReaches(Wealth, lost, past + [-2.0], BAR)
  {
    hide Wealth;
    var rest := Arm(1.0 - p, -2.0, lost, Done);
    assert SomeArmReaches(Wealth, rest, past, BAR) == (1.0 - p) * EverReaches(Wealth, lost, past + [-2.0], BAR);
  }

  lemma AtStop(past: seq<real>)
    ensures EverReaches(Wealth, Stop, past, BAR) == if Wealth(past) >= BAR then 1.0 else 0.0
  {
    hide Wealth;
  }

  /** After two losses and a double win. */
  lemma FourthReaches(past: seq<real>)
    requires Holds(past, 0.99275, 0.972, 0.896)
    ensures EverReaches(Wealth, FOURTH, past, BAR) == 100.0 / 127.0
  {
    hide EverReaches, Growth;
    Bet(past, 0.54, 0.99275, 0.972, 0.896);
    Bet(past, -2.0, 0.99275, 0.972, 0.896);
    EitherReaches(100.0 / 127.0, 0.54, Stop, Stop, past);
    AtStop(past + [0.54]);
    AtStop(past + [-2.0]);
  }

  /** After two losses. */
  lemma ThirdReaches(past: seq<real>)
    requires Holds(past, 0.9025, 0.81, 0.64)
    ensures EverReaches(Wealth, THIRD, past, BAR) == 50.0 / 127.0
  {
    hide EverReaches, Growth;
    Bet(past, 2.0, 0.9025, 0.81, 0.64);
    Bet(past, -2.0, 0.9025, 0.81, 0.64);
    EitherReaches(0.5, 2.0, FOURTH, Stop, past);
    FourthReaches(past + [2.0]);
    AtStop(past + [-2.0]);
  }

  /** After one loss. */
  lemma SecondReaches(past: seq<real>)
    requires Holds(past, 0.95, 0.9, 0.8)
    ensures EverReaches(Wealth, SECOND, past, BAR) == 20.0 / 33.0 + 13.0 / 33.0 * (50.0 / 127.0)
  {
    hide EverReaches, Growth;
    Bet(past, 1.3, 0.95, 0.9, 0.8);
    Bet(past, -2.0, 0.95, 0.9, 0.8);
    EitherReaches(20.0 / 33.0, 1.3, Stop, THIRD, past);
    AtStop(past + [1.3]);
    ThirdReaches(past + [-2.0]);
  }

  /** Four fair trades of two contracts beat the bound. */
  lemma TwoContractsBeatBound()
    ensures EverReaches(Wealth, TWO_CONTRACTS, [], BAR) > 1.0 / BAR
  {
    assert Holds([], 1.0, 1.0, 1.0);
    hide EverReaches, Growth;
    Bet([], 0.1, 1.0, 1.0, 1.0);
    Bet([], -2.0, 1.0, 1.0, 1.0);
    EitherReaches(20.0 / 21.0, 0.1, Stop, SECOND, []);
    AtStop([] + [0.1]);
    SecondReaches([] + [-2.0]);
  }

  // ---------------------------------------------------------------- the exact condition

  ghost predicate BoundHolds(k: nat) {
    forall t, c :: IsPlan(t) && NullWithin(t, k as real) && c > 0.0 ==> EverReaches(Wealth, t, [], c) <= 1.0 / c
  }

  /** The 1/c bound holds on every plan of trades that lose at most `k` premiums exactly when `k` is
      at most one. */
  lemma BoundIffOneContract(k: nat)
    ensures BoundHolds(k) <==> k <= 1
  {
    hide EverReaches, NullWithin, IsPlan, Null;
    if k <= 1 {
      forall t, c | IsPlan(t) && NullWithin(t, k as real) && c > 0.0 ensures EverReaches(Wealth, t, [], c) <= 1.0 / c {
        WithinOne(t, k as real);
        Ville(t, c);
      }
    } else {
      TwoContractsIsFair();
      WithinMore(TWO_CONTRACTS, 2.0, k as real);
      TwoContractsBeatBound();
    }
  }
}
