/** The one-pass running-peak drawdown against its pairwise definition. */
module Drawdowns {
  import opened Realignment

  ghost predicate AllPositive(equities: seq<real>) {
    forall i :: 0 <= i < |equities| ==> equities[i] > 0.0
  }

  /** Change from session `i` to a later session `j`, as a fraction. */
  function Change(equities: seq<real>, i: nat, j: nat): real
    requires i <= j < |equities| && equities[i] != 0.0
  {
    equities[j] / equities[i] - 1.0
  }

  lemma {:induction false} PeakIsGreatest(equities: seq<real>) returns (k: nat)
    requires equities != [] && AllPositive(equities)
    ensures k < |equities| && Peak(equities) == equities[k]
    ensures forall i :: 0 <= i < |equities| ==> equities[i] <= Peak(equities)
  {
    var n := |equities| - 1;
    if n == 0 {
      assert Peak(equities[..0]) == 0.0;
      return 0;
    }
    k := PeakIsGreatest(equities[..n]);
    if Peak(equities[..n]) < equities[n] {
      k := n;
    }
  }

  lemma ProductGrows(a: real, b: real, k: real)
    requires a > b && k > 0.0
    ensures a * k > b * k
  {}

  lemma QuotientShrinks(x: real, small: real, large: real)
    requires x > 0.0 && 0.0 < small <= large
    ensures x / large <= x / small
  {
    var a, b := x / large, x / small;
    assert a * large == x && b * small == x;
    assert b * large >= b * small;
    if a > b {
      ProductGrows(a, b, large);
    }
  }

  lemma Cancel(x: real, y: real, k: real)
    requires k != 0.0 && x * k == y * k
    ensures x == y
  {}

  lemma LossBelowPeak(peak: real, equity: real)
    requires 0.0 < equity <= peak
    ensures (equity - peak) / peak == equity / peak - 1.0
    ensures -1.0 < equity / peak - 1.0 <= 0.0
  {
    var ratio, loss := equity / peak, (equity - peak) / peak;
    assert ratio * peak == equity && loss * peak == equity - peak;
    assert (ratio - 1.0) * peak == ratio * peak - peak;
    Cancel(loss, ratio - 1.0, peak);
  }

  /** Each day's drawdown is the worst change into that day, and lies in (-1, 0]. */
  lemma LastDrawdownIsWorstChange(equities: seq<real>, n: nat) returns (k: nat)
    requires n + 1 == |equities| && AllPositive(equities)
    ensures -1.0 < LastDrawdown(equities) <= 0.0
    ensures k <= n && LastDrawdown(equities) == Change(equities, k, n)
    ensures forall i :: 0 <= i <= n ==> LastDrawdown(equities) <= Change(equities, i, n)
  {
    k := PeakIsGreatest(equities);
    LossBelowPeak(Peak(equities), equities[n]);
    forall i | 0 <= i <= n
      ensures LastDrawdown(equities) <= Change(equities, i, n)
    {
      QuotientShrinks(equities[n], equities[i], Peak(equities));
    }
  }

  /**
   * For positive equities the running-peak maximum drawdown is the least change over all
   * pairs of sessions in order: a lower bound of all of them, and one of them.
   */
  lemma {:induction false} MaxDrawdownIsPairwiseMinimum(equities: seq<real>)
    requires AllPositive(equities)
    ensures forall i, j :: 0 <= i <= j < |equities| ==> MaxDrawdown(equities) <= Change(equities, i, j)
    ensures equities != [] ==>
              exists i, j :: 0 <= i <= j < |equities| && MaxDrawdown(equities) == Change(equities, i, j)
    ensures equities == [] ==> MaxDrawdown(equities) == 0.0
  {
    if equities != [] {
      var n := |equities| - 1;
      var init := equities[..n];
      MaxDrawdownIsPairwiseMinimum(init);
      var k := LastDrawdownIsWorstChange(equities, n);
      forall i, j | 0 <= i <= j < |equities|
        ensures MaxDrawdown(equities) <= Change(equities, i, j)
      {
        if j < n {
          assert Change(equities, i, j) == Change(init, i, j);
        }
      }
      if LastDrawdown(equities) < MaxDrawdown(init) || n == 0 {
        assert MaxDrawdown(equities) == Change(equities, k, n);
      } else {
        var i, j :| 0 <= i <= j < n && MaxDrawdown(init) == Change(init, i, j);
        assert MaxDrawdown(equities) == Change(equities, i, j);
      }
    }
  }

  /**
   * For equities of any sign, the drawdown is measured from the greatest equity so far, and
   * is zero while none was positive.
   */
  lemma {:induction false} DrawdownIsFromGreatest(equities: seq<real>, n: nat) returns (k: nat)
    requires n + 1 == |equities|
    ensures k <= n && forall i :: 0 <= i <= n ==> equities[i] <= equities[k]
    ensures Peak(equities) == if equities[k] > 0.0 then equities[k] else 0.0
    ensures LastDrawdown(equities)
         == if equities[k] > 0.0 then (equities[n] - equities[k]) / equities[k] else 0.0
  {
    k := n;
    if n == 0 {
      assert Peak(equities[..0]) == 0.0;
    } else {
      var before := DrawdownIsFromGreatest(equities[..n], n - 1);
      if equities[n] <= equities[before] {
        k := before;
      }
    }
    if equities[k] > 0.0 {
      var fall := (equities[n] - equities[k]) / equities[k];
      assert fall * equities[k] == equities[n] - equities[k];
      assert fall <= 0.0;
    }
  }

  /** Each reported day shows its equity and the worst change into it from any session so far. */
  lemma ReportedDrawdownIsWorstChange(budget: real, fills: seq<Fill>, observations: seq<Observation>, i: nat)
    requires i < |observations| && AllPositive(Equities(budget, fills, observations))
    ensures
      var e, day := Equities(budget, fills, observations), StateAt(budget, fills, observations, i);
      && day.equity == e[i] && -1.0 < day.drawdown <= 0.0
      && (forall k :: 0 <= k <= i ==> day.drawdown <= Change(e, k, i))
      && (exists k :: 0 <= k <= i && day.drawdown == Change(e, k, i))
  {
    var e := Equities(budget, fills, observations);
    var upTo := e[..i + 1];
    var k := LastDrawdownIsWorstChange(upTo, i);
    assert upTo[i] == e[i] && upTo[k] == e[k];
    assert Change(e, k, i) == Change(upTo, k, i);
    forall j | 0 <= j <= i
      ensures StateAt(budget, fills, observations, i).drawdown <= Change(e, j, i)
    {
      assert Change(e, j, i) == Change(upTo, j, i);
    }
  }
}
