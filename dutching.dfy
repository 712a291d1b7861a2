/**
 * The dutching calculator: a total stake is spread over the selected horses in
 * proportion to the inverse of their place odds, so that the potential return
 * is the same whichever selected horse places. Arithmetic is over exact reals.
 *
 * Every arithmetic step goes through one of the named quantities below
 * (`Inverse`, `Stake`, `Payout`, `Share`, `Scaled`, `CommonReturn`) and is proved once, in a small
 * lemma about reals; the lemmas about whole selections then only combine them.
 */
module Dutching {
  import opened Wrappers
  import OddsFetcher

  /** Every selected horse has odds in the map, and they are strictly positive. */
  predicate Priced(sel: seq<int>, odds: OddsFetcher.OddsMap) {
    forall h :: h in sel ==> h in odds && odds[h] > 0.0
  }

  /** What the caller guarantees: a non-empty selection of priced horses. */
  predicate ValidSelection(sel: seq<int>, odds: OddsFetcher.OddsMap) {
    sel != [] && Priced(sel, odds)
  }

  /** No horse is selected twice (a multiselect widget yields each option at most once). */
  predicate Distinct(sel: seq<int>) {
    forall i, j :: 0 <= i < j < |sel| ==> sel[i] != sel[j]
  }

  // ---------------------------------------------------------------------------
  // The quantities of the calculation
  // ---------------------------------------------------------------------------

  /** `1 / odds[h]`, the implied probability of decimal odds `o`. */
  function Inverse(o: real): (r: real)
    requires o > 0.0
    ensures r > 0.0
  {
    1.0 / o
  }

  /** `sum(1 / odds[h] for h in selected_horses)`, counting a repeated horse once per occurrence. */
  function InverseSum(sel: seq<int>, odds: OddsFetcher.OddsMap): (s: real)
    requires Priced(sel, odds)
    ensures s >= 0.0
    ensures sel != [] ==> s > 0.0
  {
    if sel == [] then 0.0
    else
      var h := sel[0];
      assert h in sel;
      Inverse(odds[h]) + InverseSum(sel[1..], odds)
  }

  /** One horse's stake, `total_stake / (odds[h] * inverse_sum)`. */
  function Stake(total: real, o: real, inverseSum: real): real
    requires o > 0.0 && inverseSum > 0.0
  {
    total / (o * inverseSum)
  }

  /** The potential return of a stake at decimal odds `o`, `stakes[h] * odds[h]`. */
  function Payout(stake: real, o: real): real {
    stake * o
  }

  /**
   * An amount `c` spread in proportion to the inverse odds `1 / o`. Named, like
   * `Scaled` below, so that the lemmas about whole selections see a function
   * symbol rather than a product of terms, which the solver handles poorly.
   */
  function Share(c: real, o: real): real
    requires o > 0.0
  {
    c * Inverse(o)
  }

  /** An amount `c` scaled by an inverse sum `s`; a named product, for the same reason as `Share`. */
  function Scaled(c: real, s: real): real {
    c * s
  }

  /** The return every selected horse pays, `total_stake / inverse_sum`. */
  function CommonReturn(total: real, inverseSum: real): real
    requires inverseSum > 0.0
  {
    total / inverseSum
  }

  // ---------------------------------------------------------------------------
  // Facts about reals, each proved once
  // ---------------------------------------------------------------------------

  /** A stake returns the common amount at its own horse's odds. */
  lemma PayoutOfStake(total: real, o: real, s: real)
    requires o > 0.0 && s > 0.0
    ensures Payout(Stake(total, o, s), o) == CommonReturn(total, s)
    ensures total >= 0.0 ==> Stake(total, o, s) >= 0.0
  {
    var x := total / (o * s);
    assert x * (o * s) == total;
    assert (x * o) * s == total;
  }

  /** A stake is the common return spread in proportion to the horse's inverse odds. */
  lemma StakeIsShare(total: real, o: real, s: real)
    requires o > 0.0 && s > 0.0
    ensures Stake(total, o, s) == Share(CommonReturn(total, s), o)
  {
    var x := total / (o * s);
    assert x * (o * s) == total;
    var q := total / s;
    assert q * s == total;
    assert (q * (1.0 / o)) * (o * s) == q * s;
  }

  /** An amount that returns `c` at odds `o` is `c` times the inverse odds. */
  lemma AmountFromPayout(x: real, o: real, c: real)
    requires o > 0.0 && Payout(x, o) == c
    ensures x == Share(c, o)
  {
    assert o * (1.0 / o) == 1.0;
    assert x == x * (o * (1.0 / o));
  }

  /** Adding one horse's share to `c` times the rest of an inverse sum. */
  lemma AddShare(c: real, o: real, rest: real)
    requires o > 0.0
    ensures Share(c, o) + Scaled(c, rest) == Scaled(c, Inverse(o) + rest)
  {
  }

  /** The common return spread over the whole inverse sum gives back the total. */
  lemma CommonReturnTimesInverseSum(total: real, s: real)
    requires s > 0.0
    ensures Scaled(CommonReturn(total, s), s) == total
  {
  }

  /** The only amount `c` with `c * s == total` is the common return. */
  lemma CommonReturnIsUnique(c: real, total: real, s: real)
    requires s > 0.0 && Scaled(c, s) == total
    ensures c == CommonReturn(total, s)
  {
    assert (total / s) * s == total;
  }

  /** A single horse: the inverse sum is its inverse odds, and it takes the whole total. */
  lemma StakeOfSingleHorse(total: real, o: real)
    requires o > 0.0
    ensures Stake(total, o, Inverse(o)) == total
    ensures Payout(total, o) == total * o
  {
    assert o * (1.0 / o) == 1.0;
  }

  lemma ZeroStakeIsZero(o: real, s: real)
    requires o > 0.0 && s > 0.0
    ensures Stake(0.0, o, s) == 0.0 && Payout(0.0, o) == 0.0
  {
  }

  /** The profit `c - total` with `c * s == total` is positive exactly when `s < 1`, zero exactly when `s == 1`. */
  lemma ProfitOverInverseSum(total: real, s: real)
    requires total > 0.0 && s > 0.0
    ensures CommonReturn(total, s) - total > 0.0 <==> s < 1.0
    ensures CommonReturn(total, s) - total == 0.0 <==> s == 1.0
  {
    var q := total / s;
    assert CommonReturn(total, s) == q;
    assert q * s == total;
    assert q > 0.0;
    assert q - total == q * (1.0 - s);
    if s > 1.0 {
      assert q * (s - 1.0) > 0.0;
      assert q - total < 0.0;
    } else if s < 1.0 {
      assert 1.0 - s > 0.0;
      assert q * (1.0 - s) > 0.0;
      assert q - total > 0.0;
    } else {
      assert q - total == 0.0;
    }
  }

  // ---------------------------------------------------------------------------
  // The calculator
  // ---------------------------------------------------------------------------

  /** The two dictionaries the calculator returns: stake per horse and potential return per horse. */
  datatype Allocation = Allocation(stakes: map<int, real>, payouts: map<int, real>)

  /**
   * `dutching_calculator`: stakes are `total / (odds[h] * inverseSum)` and returns
   * are `stakes[h] * odds[h]`, both keyed by exactly the selected horses; every
   * return is the same amount, `total / inverseSum`, and no stake is negative
   * when the total is not. An empty selection gives two empty dictionaries: the
   * comprehensions never divide by the zero inverse sum.
   */
  function DutchingCalculator(sel: seq<int>, odds: OddsFetcher.OddsMap, total: real): (a: Allocation)
    requires Priced(sel, odds)
    ensures forall h :: h in a.stakes <==> h in sel
    ensures forall h :: h in a.payouts <==> h in sel
    ensures forall h :: h in sel ==> a.payouts[h] == CommonReturn(total, InverseSum(sel, odds))
    ensures forall h, k :: h in sel && k in sel ==> a.payouts[h] == a.payouts[k]
    ensures total >= 0.0 ==> forall h :: h in sel ==> a.stakes[h] >= 0.0
  {
    var inverseSum := InverseSum(sel, odds);
    var stakes := map h | h in sel :: Stake(total, odds[h], inverseSum);
    var payouts := map h | h in sel :: Payout(stakes[h], odds[h]);
    assert forall h :: h in sel ==>
        payouts[h] == CommonReturn(total, inverseSum) && (total >= 0.0 ==> stakes[h] >= 0.0) by {
      forall h | h in sel
        ensures payouts[h] == CommonReturn(total, inverseSum) && (total >= 0.0 ==> stakes[h] >= 0.0)
      {
        PayoutOfStake(total, odds[h], inverseSum);
      }
    }
    Allocation(stakes, payouts)
  }

  /**
   * `list(profit.values())[0] - total_stake`: the first value of the returns
   * dictionary belongs to the first selected horse; because every return is
   * equal, any selected horse gives the same profit.
   */
  function ExpectedProfit(sel: seq<int>, odds: OddsFetcher.OddsMap, total: real): (p: real)
    requires ValidSelection(sel, odds)
    ensures forall h :: h in sel ==> p == DutchingCalculator(sel, odds, total).payouts[h] - total
    ensures p == CommonReturn(total, InverseSum(sel, odds)) - total
  {
    var first := sel[0];
    assert first in sel;
    DutchingCalculator(sel, odds, total).payouts[first] - total
  }

  // ---------------------------------------------------------------------------
  // The order of the selection
  // ---------------------------------------------------------------------------

  lemma {:induction false} InverseSumAppend(x: seq<int>, y: seq<int>, odds: OddsFetcher.OddsMap)
    requires Priced(x, odds) && Priced(y, odds)
    ensures Priced(x + y, odds)
    ensures InverseSum(x + y, odds) == InverseSum(x, odds) + InverseSum(y, odds)
    decreases |x|
  {
    if x == [] {
      assert x + y == y;
    } else {
      assert (x + y)[1..] == x[1..] + y;
      InverseSumAppend(x[1..], y, odds);
    }
  }

  lemma RestIsPermutation(a: seq<int>, b: seq<int>, j: nat)
    requires a != [] && j < |b| && b[j] == a[0] && multiset(a) == multiset(b)
    ensures multiset(a[1..]) == multiset(b[..j] + b[j + 1..])
  {
    assert a == [a[0]] + a[1..];
    assert b == b[..j] + [b[j]] + b[j + 1..];
    calc {
      multiset(a[1..]);
      multiset(a) - multiset{a[0]};
      multiset(b) - multiset{b[j]};
      (multiset(b[..j]) + multiset(b[j + 1..]) + multiset{b[j]}) - multiset{b[j]};
      multiset(b[..j] + b[j + 1..]);
    }
  }

  /** Taking the horse at position `j` out of the inverse sum. */
  lemma InverseSumSplit(b: seq<int>, j: nat, odds: OddsFetcher.OddsMap)
    requires Priced(b, odds) && j < |b|
    ensures Priced(b[..j], odds) && Priced(b[j + 1..], odds) && b[j] in odds && odds[b[j]] > 0.0
    ensures InverseSum(b, odds) == InverseSum(b[..j], odds) + Inverse(odds[b[j]]) + InverseSum(b[j + 1..], odds)
  {
    var h := b[j];
    assert h in b;
    forall x | x in b[..j] ensures x in b { }
    forall x | x in b[j + 1..] ensures x in b { }
    assert b == b[..j] + ([h] + b[j + 1..]);
    InverseSumAppend(b[..j], [h] + b[j + 1..], odds);
    assert ([h] + b[j + 1..])[1..] == b[j + 1..];
  }

  /** The inverse sum does not depend on the order in which the horses were selected. */
  lemma {:induction false} InverseSumPermutation(a: seq<int>, b: seq<int>, odds: OddsFetcher.OddsMap)
    requires Priced(a, odds) && multiset(a) == multiset(b)
    ensures Priced(b, odds)
    ensures InverseSum(a, odds) == InverseSum(b, odds)
    decreases |a|
  {
    forall h | h in b ensures h in odds && odds[h] > 0.0 {
      assert h in multiset(b);
      assert h in a;
    }
    if a == [] {
      assert |b| == |multiset(b)| == 0;
    } else {
      var h := a[0];
      assert h in multiset(b);
      var j :| 0 <= j < |b| && b[j] == h;
      var before, after := b[..j], b[j + 1..];
      RestIsPermutation(a, b, j);
      InverseSumPermutation(a[1..], before + after, odds);
      InverseSumSplit(b, j, odds);
      InverseSumAppend(before, after, odds);
    }
  }

  /**
   * Reordering the selection changes neither dictionary (as maps; Python keeps
   * insertion order, which only affects the order of display).
   */
  lemma SelectionOrderIrrelevant(a: seq<int>, b: seq<int>, odds: OddsFetcher.OddsMap, total: real)
    requires Priced(a, odds) && multiset(a) == multiset(b)
    ensures Priced(b, odds)
    ensures DutchingCalculator(a, odds, total) == DutchingCalculator(b, odds, total)
  {
    InverseSumPermutation(a, b, odds);
    forall h ensures h in a <==> h in b {
      assert h in a <==> h in multiset(a);
      assert h in b <==> h in multiset(b);
    }
  }

  /** The profit at line 72 is the same whichever selected horse happens to come first. */
  lemma ProfitIndependentOfFirstHorse(a: seq<int>, b: seq<int>, odds: OddsFetcher.OddsMap, total: real)
    requires ValidSelection(a, odds) && multiset(a) == multiset(b)
    ensures ValidSelection(b, odds)
    ensures ExpectedProfit(a, odds, total) == ExpectedProfit(b, odds, total)
  {
    InverseSumPermutation(a, b, odds);
    assert |b| == |multiset(b)| == |a|;
  }

  // ---------------------------------------------------------------------------
  // Stake conservation
  // ---------------------------------------------------------------------------

  /** Sum of `f` over the horses of `hs`, one term per occurrence. */
  function SumOver(hs: seq<int>, f: map<int, real>): real
    requires forall h :: h in hs ==> h in f
  {
    if hs == [] then 0.0
    else
      var h := hs[0];
      assert h in hs;
      f[h] + SumOver(hs[1..], f)
  }

  lemma NonEmptyMapHasKey(m: map<int, real>)
    requires |m| > 0
    ensures exists k :: k in m
  {
    if forall k :: k !in m.Keys {
      assert false;
    }
  }

  /** Sum of the values of a map, each key counted once (what the displayed table adds up to). */
  ghost function MapSum(m: map<int, real>): real
    decreases |m|
  {
    if |m| == 0 then 0.0
    else
      NonEmptyMapHasKey(m);
      var k :| k in m;
      m[k] + MapSum(m - {k})
  }

  lemma {:induction false} MapSumRemove(m: map<int, real>, k: int)
    requires k in m
    ensures MapSum(m) == m[k] + MapSum(m - {k})
    decreases |m|
  {
    var k' :| k' in m && MapSum(m) == m[k'] + MapSum(m - {k'});
    if k' != k {
      MapSumRemove(m - {k'}, k);
      MapSumRemove(m - {k}, k');
      assert m - {k'} - {k} == m - {k} - {k'};
    }
  }

  lemma {:induction false} SumOverAgree(hs: seq<int>, f: map<int, real>, g: map<int, real>)
    requires forall h :: h in hs ==> h in f && h in g && f[h] == g[h]
    ensures SumOver(hs, f) == SumOver(hs, g)
    decreases |hs|
  {
    if hs != [] {
      SumOverAgree(hs[1..], f, g);
    }
  }

  /** Over a list that names every key exactly once, the list sum is the map sum. */
  lemma {:induction false} MapSumOfDistinct(hs: seq<int>, m: map<int, real>)
    requires Distinct(hs)
    requires forall h :: h in m <==> h in hs
    ensures MapSum(m) == SumOver(hs, m)
    decreases |hs|
  {
    if hs == [] {
      assert m.Keys == {} by {
        forall h ensures h !in m.Keys { assert h !in hs; }
      }
    } else {
      var k := hs[0];
      assert k in hs;
      var rest := m - {k};
      MapSumRemove(m, k);
      forall h ensures h in rest <==> h in hs[1..] {
        if h in hs[1..] {
          var j :| 0 <= j < |hs[1..]| && hs[1..][j] == h;
          assert hs[j + 1] == h;
        }
      }
      MapSumOfDistinct(hs[1..], rest);
      SumOverAgree(hs[1..], rest, m);
    }
  }

  /** Amounts that are `c` times each horse's inverse odds add up to `c` times the inverse sum. */
  lemma {:induction false} SumOfShares(hs: seq<int>, odds: OddsFetcher.OddsMap, f: map<int, real>, c: real)
    requires Priced(hs, odds)
    requires forall h :: h in hs ==> h in f && f[h] == Share(c, odds[h])
    ensures SumOver(hs, f) == Scaled(c, InverseSum(hs, odds))
    decreases |hs|
  {
    if hs != [] {
      var h := hs[0];
      assert h in hs;
      SumOfShares(hs[1..], odds, f, c);
      AddShare(c, odds[h], InverseSum(hs[1..], odds));
    }
  }

  /** Each of the calculator's stakes is the common return times the horse's inverse odds. */
  lemma StakesAreShares(sel: seq<int>, odds: OddsFetcher.OddsMap, total: real)
    requires ValidSelection(sel, odds)
    ensures var a := DutchingCalculator(sel, odds, total);
            forall h :: h in sel ==>
              a.stakes[h] == Share(CommonReturn(total, InverseSum(sel, odds)), odds[h])
  {
    var a := DutchingCalculator(sel, odds, total);
    var s := InverseSum(sel, odds);
    forall h | h in sel ensures a.stakes[h] == Share(CommonReturn(total, s), odds[h]) {
      StakeIsShare(total, odds[h], s);
    }
  }

  /** Stakes that are shares of one amount `c`, one per distinct horse, add up to `c` times the inverse sum. */
  lemma EqualSharesSumTo(sel: seq<int>, odds: OddsFetcher.OddsMap, stakes: map<int, real>, c: real)
    requires Priced(sel, odds) && Distinct(sel)
    requires forall h :: h in stakes <==> h in sel
    requires forall h :: h in sel ==> stakes[h] == Share(c, odds[h])
    ensures MapSum(stakes) == Scaled(c, InverseSum(sel, odds))
  {
    MapSumOfDistinct(sel, stakes);
    SumOfShares(sel, odds, stakes, c);
  }

  /**
   * Stake conservation: over a selection without repeats, the stakes in the
   * returned dictionary add up to the total stake.
   */
  lemma StakesSumToTotal(sel: seq<int>, odds: OddsFetcher.OddsMap, total: real)
    requires ValidSelection(sel, odds) && Distinct(sel)
    ensures MapSum(DutchingCalculator(sel, odds, total).stakes) == total
  {
    var s := InverseSum(sel, odds);
    StakesAreShares(sel, odds, total);
    EqualSharesSumTo(sel, odds, DutchingCalculator(sel, odds, total).stakes, CommonReturn(total, s));
    CommonReturnTimesInverseSum(total, s);
  }

  /**
   * The calculator's stakes are the only allocation over the selection that
   * returns the same on every selected horse and uses exactly the total stake.
   */
  lemma EqualPayoutIsUnique(sel: seq<int>, odds: OddsFetcher.OddsMap, total: real, stakes: map<int, real>)
    requires ValidSelection(sel, odds) && Distinct(sel)
    requires forall h :: h in stakes <==> h in sel
    requires forall h, k :: h in sel && k in sel ==> Payout(stakes[h], odds[h]) == Payout(stakes[k], odds[k])
    requires MapSum(stakes) == total
    ensures stakes == DutchingCalculator(sel, odds, total).stakes
  {
    var first := sel[0];
    assert first in sel;
    var c := Payout(stakes[first], odds[first]);
    var s := InverseSum(sel, odds);
    forall h | h in sel ensures stakes[h] == Share(c, odds[h]) {
      AmountFromPayout(stakes[h], odds[h], c);
    }
    EqualSharesSumTo(sel, odds, stakes, c);
    CommonReturnIsUnique(c, total, s);
    var calculated := DutchingCalculator(sel, odds, total).stakes;
    StakesAreShares(sel, odds, total);
    assert forall h :: h in stakes <==> h in calculated;
    forall h | h in stakes ensures stakes[h] == calculated[h] { }
  }

  lemma MapSumOfSingleton(m: map<int, real>, k: int)
    requires m.Keys == {k}
    ensures MapSum(m) == m[k]
  {
    MapSumRemove(m, k);
    assert (m - {k}).Keys == {};
  }

  /** With a selection repeating a horse, the sum double-counts it and the stakes no longer add up to the total. */
  lemma RepeatedHorseLosesStake()
    ensures var a := DutchingCalculator([1, 1], map[1 := 2.0], 100.0);
            a.stakes == map[1 := 50.0] && MapSum(a.stakes) == 50.0
  {
    var odds := map[1 := 2.0];
    assert InverseSum([1, 1], odds) == 1.0 by {
      assert [1, 1][1..] == [1];
      assert [1][1..] == [];
      assert Inverse(2.0) == 0.5;
    }
    var a := DutchingCalculator([1, 1], odds, 100.0);
    assert a.stakes.Keys == {1};
    assert a.stakes[1] == 50.0 by {
      assert Stake(100.0, 2.0, 1.0) == 50.0;
    }
    MapSumOfSingleton(a.stakes, 1);
  }

  // ---------------------------------------------------------------------------
  // Edge cases, the profit, and a worked example
  // ---------------------------------------------------------------------------

  /** A single selected horse takes the whole stake and returns the stake times its odds. */
  lemma SingleHorse(h: int, odds: OddsFetcher.OddsMap, total: real)
    requires h in odds && odds[h] > 0.0
    ensures var a := DutchingCalculator([h], odds, total);
            a.stakes == map[h := total] && a.payouts == map[h := total * odds[h]]
  {
    var o := odds[h];
    assert [h][1..] == [];
    assert InverseSum([h], odds) == Inverse(o);
    StakeOfSingleHorse(total, o);
    var a := DutchingCalculator([h], odds, total);
    assert a.stakes[h] == total;
    assert a.payouts[h] == Payout(total, o);
    assert a.stakes.Keys == {h};
    assert a.payouts.Keys == {h};
  }

  /** A zero total stake gives zero stakes and zero returns. */
  lemma ZeroStake(sel: seq<int>, odds: OddsFetcher.OddsMap)
    requires Priced(sel, odds)
    ensures var a := DutchingCalculator(sel, odds, 0.0);
            forall h :: h in sel ==> a.stakes[h] == 0.0 && a.payouts[h] == 0.0
  {
    var a := DutchingCalculator(sel, odds, 0.0);
    var s := InverseSum(sel, odds);
    forall h | h in sel ensures a.stakes[h] == 0.0 && a.payouts[h] == 0.0 {
      ZeroStakeIsZero(odds[h], s);
    }
  }

  /**
   * For a positive stake the bet is profitable exactly when the inverse odds sum
   * to less than one, and breaks even exactly when they sum to one.
   */
  lemma ProfitSign(sel: seq<int>, odds: OddsFetcher.OddsMap, total: real)
    requires ValidSelection(sel, odds) && total > 0.0
    ensures ExpectedProfit(sel, odds, total) > 0.0 <==> InverseSum(sel, odds) < 1.0
    ensures ExpectedProfit(sel, odds, total) == 0.0 <==> InverseSum(sel, odds) == 1.0
  {
    ProfitOverInverseSum(total, InverseSum(sel, odds));
  }

  /** Two horses at 2.0 and 4.0 with a stake of 100: the amounts the display rounds to 66.67, 33.33 and 133.33. */
  lemma TwoHorseExample()
    ensures var odds := map[1 := 2.0, 2 := 4.0];
            var a := DutchingCalculator([1, 2], odds, 100.0);
            && InverseSum([1, 2], odds) == 0.75
            && a.stakes == map[1 := 200.0 / 3.0, 2 := 100.0 / 3.0]
            && a.payouts == map[1 := 400.0 / 3.0, 2 := 400.0 / 3.0]
            && ExpectedProfit([1, 2], odds, 100.0) == 100.0 / 3.0
  {
    var odds := map[1 := 2.0, 2 := 4.0];
    assert [1, 2][1..] == [2];
    assert [2][1..] == [];
    assert Inverse(2.0) == 0.5 && Inverse(4.0) == 0.25;
    assert InverseSum([1, 2], odds) == 0.75;
    var a := DutchingCalculator([1, 2], odds, 100.0);
    assert a.stakes[1] == Stake(100.0, 2.0, 0.75) == 200.0 / 3.0;
    assert a.stakes[2] == Stake(100.0, 4.0, 0.75) == 100.0 / 3.0;
    assert CommonReturn(100.0, 0.75) == 400.0 / 3.0;
    assert a.stakes.Keys == {1, 2};
    assert a.payouts.Keys == {1, 2};
  }

  /**
   * The page only offers horses from the fetched map: any non-empty selection of
   * its keys satisfies the calculator's requirements.
   */
  lemma FetchedSelectionIsValid(rs: seq<OddsFetcher.OddsRecord>, m: OddsFetcher.OddsMap, sel: seq<int>)
    requires OddsFetcher.Normalised(rs) == Ok(m)
    requires sel != [] && forall h :: h in sel ==> h in m
    ensures ValidSelection(sel, m)
  {
    OddsFetcher.NormalisedPositive(rs, m);
  }
}
