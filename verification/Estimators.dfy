/**
  The combinatorial estimators over repeated trials (moss/evaluation/stats.py).

  Given n trials of which c succeeded, both estimators speak about drawing k of the trials
  without replacement.  Here the drawing is counted out: the estimators are the exact
  fractions of k-element sets of trials that succeed entirely, or at least once.
  Floating-point rounding is not modelled; the quotients are over `real`.
*/
module Estimators {
  import opened Collections

  datatype Result = Estimate(value: real) | ValueError

  /** math.comb, by Pascal's rule. */
  function Choose(n: nat, k: nat): nat {
    if k == 0 then 1 else if n == 0 then 0 else Choose(n - 1, k - 1) + Choose(n - 1, k)
  }

  predicate ValidInputs(n: int, c: int, k: int) {
    !(n < 0 || !(0 <= c <= n) || !(1 <= k <= n))
  }

  function PassHatK(n: int, c: int, k: int): Result {
    if !ValidInputs(n, c, k) then ValueError
    else if c < k then Estimate(0.0)
    else
      ChoosePositive(n, k);
      Estimate(Choose(c, k) as real / Choose(n, k) as real)
  }

  function SuccessAtK(n: int, c: int, k: int): Result {
    if !ValidInputs(n, c, k) then ValueError
    else if n - c < k then Estimate(1.0)
    else
      ChoosePositive(n, k);
      Estimate(1.0 - Choose(n - c, k) as real / Choose(n, k) as real)
  }

  lemma {:induction false} ChoosePositive(n: nat, k: nat)
    requires k <= n
    ensures Choose(n, k) > 0
  {
    if k > 0 {
      ChoosePositive(n - 1, k - 1);
    }
  }

  lemma {:induction false} ChooseNone(n: nat, k: nat)
    requires n < k
    ensures Choose(n, k) == 0
  {
    if n > 0 {
      ChooseNone(n - 1, k - 1);
      ChooseNone(n - 1, k);
    }
  }

  // ---- Choose counts the k-element subsets ----

  /** Every way of drawing k of the trials in `pool`. */
  ghost function Draws(pool: set<nat>, k: nat): set<set<nat>> {
    set draw: set<nat> | draw <= pool && |draw| == k
  }

  /** The draws that contain `x`, built from the draws of one element fewer. */
  ghost function WithElement(draws: set<set<nat>>, x: nat): set<set<nat>> {
    set draw | draw in draws :: draw + {x}
  }

  lemma {:induction false} WithElementCounts(draws: set<set<nat>>, x: nat)
    requires forall draw <- draws :: x !in draw
    ensures |WithElement(draws, x)| == |draws|
    decreases |draws|
  {
    if draws != {} {
      var draw :| draw in draws;
      WithElementCounts(draws - {draw}, x);
      assert WithElement(draws, x) == WithElement(draws - {draw}, x) + {draw + {x}};
      forall other | other in draws - {draw}
        ensures other + {x} != draw + {x}
      {
        assert other == (other + {x}) - {x} && draw == (draw + {x}) - {x};
      }
    }
  }

  lemma {:induction false} DrawsSplit(pool: set<nat>, k: nat, x: nat)
    requires x in pool && k > 0
    ensures Draws(pool, k) == Draws(pool - {x}, k) + WithElement(Draws(pool - {x}, k - 1), x)
  {
    forall draw | draw in Draws(pool, k) && x in draw
      ensures draw in WithElement(Draws(pool - {x}, k - 1), x)
    {
      assert draw - {x} in Draws(pool - {x}, k - 1);
      assert draw == (draw - {x}) + {x};
    }
  }

  lemma NothingDrawn(pool: set<nat>)
    ensures |Draws(pool, 0)| == 1
  {
    assert Draws(pool, 0) == {{}};
  }

  lemma {:induction false} OneMoreTrial(pool: set<nat>, k: nat, x: nat)
    requires x in pool && k > 0
    ensures |Draws(pool, k)| == |Draws(pool - {x}, k)| + |Draws(pool - {x}, k - 1)|
  {
    var without, including := Draws(pool - {x}, k), WithElement(Draws(pool - {x}, k - 1), x);
    DrawsSplit(pool, k, x);
    WithElementCounts(Draws(pool - {x}, k - 1), x);
    assert without !! including;
  }

  lemma {:induction false} DrawsCount(pool: set<nat>, k: nat)
    ensures |Draws(pool, k)| == Choose(|pool|, k)
    decreases |pool|
  {
    if k == 0 {
      NothingDrawn(pool);
    } else if pool == {} {
      assert Draws(pool, k) == {};
    } else {
      hide Draws;
      var x :| x in pool;
      var rest := pool - {x};
      DrawsCount(rest, k);
      DrawsCount(rest, k - 1);
      OneMoreTrial(pool, k, x);
    }
  }

  // ---- The estimators are fractions of the draws ----

  /** Draws of k trials that all succeeded. */
  ghost function AllWin(pool: set<nat>, wins: set<nat>, k: nat): set<set<nat>> {
    set draw | draw in Draws(pool, k) && draw <= wins
  }

  /** Draws of k trials of which at least one succeeded. */
  ghost function SomeWin(pool: set<nat>, wins: set<nat>, k: nat): set<set<nat>> {
    set draw | draw in Draws(pool, k) && draw * wins != {}
  }

  lemma {:induction false} WinningDraws(pool: set<nat>, wins: set<nat>, k: nat)
    requires wins <= pool && 1 <= k <= |pool|
    ensures |pool| == |wins| + |pool - wins|
    ensures |Draws(pool, k)| == Choose(|pool|, k) > 0
    ensures |AllWin(pool, wins, k)| == Choose(|wins|, k)
    ensures |SomeWin(pool, wins, k)| == Choose(|pool|, k) - Choose(|pool - wins|, k)
    ensures |AllWin(pool, wins, k)| <= |SomeWin(pool, wins, k)| <= |Draws(pool, k)|
  {
    hide Choose;
    ChoosePositive(|pool|, k);
    DrawsCount(pool, k);
    DrawsCount(wins, k);
    assert AllWin(pool, wins, k) == Draws(wins, k);
    var losses := pool - wins;
    DrawsCount(losses, k);
    assert |pool| == |wins| + |losses| by { assert pool == wins + losses; }
    assert Draws(pool, k) == SomeWin(pool, wins, k) + Draws(losses, k);
    assert SomeWin(pool, wins, k) !! Draws(losses, k);
    forall draw | draw in AllWin(pool, wins, k)
      ensures draw in SomeWin(pool, wins, k)
    {
      assert draw * wins == draw;
    }
    SubsetCounts(AllWin(pool, wins, k), SomeWin(pool, wins, k));
    SubsetCounts(SomeWin(pool, wins, k), Draws(pool, k));
  }

  /** `part` of `whole`, as a fraction. */
  ghost function Share(part: nat, whole: nat): real
    requires whole > 0
  {
    part as real / whole as real
  }

  lemma TimesOrder(q: real, p: real, w: real)
    requires w > 0.0 && q < p
    ensures q * w < p * w
  {
    assert (p - q) * w > 0.0;
  }

  lemma CancelOrder(p: real, q: real, w: real)
    requires w > 0.0 && p * w <= q * w
    ensures p <= q
  {
    if p > q {
      TimesOrder(q, p, w);
    }
  }

  lemma DivideOrder(a: real, b: real, w: real)
    requires a <= b && w > 0.0
    ensures a / w <= b / w
  {
    CancelOrder(a / w, b / w, w);
  }

  lemma DivideRest(a: real, w: real)
    requires w > 0.0
    ensures (w - a) / w == 1.0 - a / w
  {
    var p, q := a / w, (w - a) / w;
    assert p * w == a && q * w == w - a;
    assert (1.0 - p) * w == w - p * w;
    CancelOrder(q, 1.0 - p, w);
    CancelOrder(1.0 - p, q, w);
  }

  lemma ShareOrder(a: nat, b: nat, whole: nat)
    requires a <= b <= whole && whole > 0
    ensures 0.0 <= Share(a, whole) <= Share(b, whole) <= 1.0
    ensures Share(0, whole) == 0.0 && Share(whole, whole) == 1.0
  {
    var w := whole as real;
    DivideOrder(0.0, a as real, w);
    DivideOrder(a as real, b as real, w);
    DivideOrder(b as real, w, w);
  }

  lemma ShareRest(a: nat, whole: nat)
    requires a <= whole && whole > 0
    ensures Share(whole - a, whole) == 1.0 - Share(a, whole)
  {
    DivideRest(a as real, whole as real);
  }

  /**
    For any trials, the estimators are the shares of the draws that succeed throughout, and
    of those that succeed at least once; so passing always is at most as likely as passing once.
  */
  lemma {:induction false} EstimatorsAreShares(pool: set<nat>, wins: set<nat>, k: nat)
    requires wins <= pool && 1 <= k <= |pool|
    ensures |Draws(pool, k)| > 0
    ensures PassHatK(|pool|, |wins|, k) == Estimate(Share(|AllWin(pool, wins, k)|, |Draws(pool, k)|))
    ensures SuccessAtK(|pool|, |wins|, k) == Estimate(Share(|SomeWin(pool, wins, k)|, |Draws(pool, k)|))
    ensures 0.0 <= PassHatK(|pool|, |wins|, k).value <= SuccessAtK(|pool|, |wins|, k).value <= 1.0
  {
    WinningDraws(pool, wins, k);
    var whole := Choose(|pool|, k);
    ShareOrder(|AllWin(pool, wins, k)|, |SomeWin(pool, wins, k)|, whole);
    ShareRest(Choose(|pool - wins|, k), whole);
    ShareOrder(0, whole, whole);
    if |wins| < k {
      ChooseNone(|wins|, k);
    }
    if |pool| - |wins| < k {
      ChooseNone(|pool| - |wins|, k);
    }
  }

  /** The first n trials, of which the first c succeeded: one instance for each valid input. */
  ghost function FirstTrials(n: nat): (trials: set<nat>)
    ensures |trials| == n && forall i :: i in trials <==> 0 <= i < n
  {
    if n == 0 then {} else FirstTrials(n - 1) + {n - 1}
  }

  lemma {:induction false} ChooseMonotone(n: nat, m: nat, k: nat)
    requires n <= m
    ensures Choose(n, k) <= Choose(m, k)
    decreases m
  {
    if n < m && k > 0 {
      ChooseMonotone(n, m - 1, k);
    }
  }

  /** More successes never lower either estimate. */
  lemma {:induction false} MonotoneInSuccesses(n: int, c: int, d: int, k: int)
    requires ValidInputs(n, c, k) && ValidInputs(n, d, k) && c <= d
    ensures PassHatK(n, c, k).value <= PassHatK(n, d, k).value
    ensures SuccessAtK(n, c, k).value <= SuccessAtK(n, d, k).value
  {
    hide Choose;
    ChooseMonotone(c, d, k);
    ChooseMonotone(d, n, k);
    ChooseMonotone(n - d, n - c, k);
    ChooseMonotone(n - c, n, k);
    ChoosePositive(n, k);
    ShareOrder(Choose(c, k), Choose(d, k), Choose(n, k));
    ShareOrder(Choose(n - d, k), Choose(n - c, k), Choose(n, k));
  }

  lemma {:induction false} ChooseOne(n: nat)
    ensures Choose(n, 1) == n
  {
    if n > 0 {
      ChooseOne(n - 1);
    }
  }

  /** Drawing one trial, both estimates are the plain success rate. */
  lemma {:induction false} AgreeAtOne(n: int, c: int)
    requires ValidInputs(n, c, 1)
    ensures PassHatK(n, c, 1) == SuccessAtK(n, c, 1) == Estimate(c as real / n as real)
  {
    ChooseOne(n);
    ChooseOne(c);
    ChooseOne(n - c);
    ShareRest(n - c, n);
    ShareOrder(0, n, n);
  }

  /** An estimate is returned exactly for 1 <= k <= n and 0 <= c <= n, and it is a probability. */
  lemma {:induction false} EstimateIff(n: int, c: int, k: int)
    ensures PassHatK(n, c, k).Estimate? <==> 0 <= c <= n && 1 <= k <= n
    ensures SuccessAtK(n, c, k).Estimate? <==> 0 <= c <= n && 1 <= k <= n
    ensures PassHatK(n, c, k).Estimate? ==> 0.0 <= PassHatK(n, c, k).value <= SuccessAtK(n, c, k).value <= 1.0
  {
    if ValidInputs(n, c, k) {
      var pool, wins := FirstTrials(n), FirstTrials(c);
      EstimatorsAreShares(pool, wins, k);
    }
  }
}
