/**
 * MACD and TRIX composed from an exponential moving average seeded by the simple average of
 * its first `period` values. Prices are validated, hence finite, and taken as reals.
 */
module Indicators {
  import opened Prelude

  // ----- the moving average primitive -----

  function Total(v: seq<real>, n: nat): real
    requires n <= |v|
  {
    if n == 0 then 0.0 else Total(v, n - 1) + v[n - 1]
  }

  /** The average at bar `i`, from the first bar with enough values on. */
  function EmaAt(v: seq<real>, period: nat, i: nat): real
    requires period >= 1 && period - 1 <= i < |v|
    decreases i
  {
    if i == period - 1 then Total(v, period) / period as real
    else
      var alpha := 2.0 / (period as real + 1.0);
      alpha * v[i] + (1.0 - alpha) * EmaAt(v, period, i - 1)
  }

  /** The padded series: nothing during the first `period - 1` bars. */
  function EmaSeries(v: seq<real>, period: nat): (s: seq<Option<real>>)
    requires period >= 1
    ensures |s| == |v|
  {
    seq(|v|, i requires 0 <= i < |v| => if i < period - 1 then None else Some(EmaAt(v, period, i)))
  }

  function Strip(s: seq<Option<real>>): seq<real> {
    if s == [] then []
    else
      var rest := Strip(s[1..]);
      if s[0].Some? then [s[0].value] + rest else rest
  }

  // ----- no look-ahead in the primitive -----

  lemma {:induction false} TotalIgnoresLater(v: seq<real>, w: seq<real>, n: nat)
    requires n <= |v|
    ensures Total(v + w, n) == Total(v, n)
  {
    if n > 0 {
      TotalIgnoresLater(v, w, n - 1);
    }
  }

  lemma {:induction false} EmaIgnoresLater(v: seq<real>, w: seq<real>, period: nat, i: nat)
    requires period >= 1 && period - 1 <= i < |v|
    ensures EmaAt(v + w, period, i) == EmaAt(v, period, i)
    decreases i
  {
    if i == period - 1 {
      TotalIgnoresLater(v, w, period);
    } else {
      EmaIgnoresLater(v, w, period, i - 1);
    }
  }

  // ----- stripping a warm-up -----

  /** A series whose values start at bar `warmup`, and which is padded before. */
  ghost predicate Padded(s: seq<Option<real>>, warmup: nat) {
    forall i :: 0 <= i < |s| ==> (s[i].Some? <==> i >= warmup)
  }

  lemma {:induction false} StripOfPadded(s: seq<Option<real>>, warmup: nat)
    requires Padded(s, warmup)
    ensures |Strip(s)| == if |s| > warmup then |s| - warmup else 0
    ensures forall k :: 0 <= k < |Strip(s)| ==> s[warmup + k] == Some(Strip(s)[k])
  {
    if s != [] {
      var w := if warmup == 0 then 0 else warmup - 1;
      assert forall i :: 0 <= i < |s[1..]| ==> s[1..][i] == s[i + 1];
      StripOfPadded(s[1..], w);
      if warmup == 0 {
        forall k | 0 <= k < |Strip(s)|
          ensures s[k] == Some(Strip(s)[k])
        {
          if k > 0 {
            assert s[1..][k - 1] == s[k];
          }
        }
      } else {
        forall k | 0 <= k < |Strip(s)|
          ensures s[warmup + k] == Some(Strip(s)[k])
        {
          assert s[1..][w + k] == s[warmup + k];
        }
      }
    }
  }

  /** The values of an average once its warm-up is stripped. */
  function EmaValues(v: seq<real>, period: nat): seq<real>
    requires period >= 1
  {
    if |v| < period then []
    else seq(|v| - period + 1, k requires 0 <= k < |v| - period + 1 => EmaAt(v, period, period - 1 + k))
  }

  lemma StripOfEma(v: seq<real>, period: nat)
    requires period >= 1
    ensures Strip(EmaSeries(v, period)) == EmaValues(v, period)
  {
    StripOfPadded(EmaSeries(v, period), period - 1);
  }

  /** Longer input only appends values. */
  lemma EmaValuesExtend(v: seq<real>, w: seq<real>, period: nat)
    requires period >= 1
    ensures EmaValues(v, period) <= EmaValues(v + w, period)
  {
    forall k | 0 <= k < |EmaValues(v, period)|
      ensures EmaValues(v, period)[k] == EmaValues(v + w, period)[k]
    {
      EmaIgnoresLater(v, w, period, period - 1 + k);
    }
  }

  // ----- MACD -----

  /** The line's values from bar `slow - 1` on. */
  function MacdValues(close: seq<real>, fast: nat, slow: nat): seq<real>
    requires 1 <= fast < slow
  {
    if |close| < slow then []
    else
      seq(|close| - slow + 1, k requires 0 <= k < |close| - slow + 1 =>
        EmaAt(close, fast, slow - 1 + k) - EmaAt(close, slow, slow - 1 + k))
  }

  /** Values placed so that the first stands at bar `start`. */
  function PlacedAt(values: seq<real>, start: nat, n: nat): seq<Option<real>> {
    seq(n, i requires 0 <= i < n => if start <= i < start + |values| then Some(values[i - start]) else None)
  }

  function MinusOption(a: Option<real>, b: Option<real>): Option<real> {
    if a.Some? && b.Some? then Some(a.value - b.value) else None
  }

  datatype MacdResult = MacdResult(line: seq<Option<real>>, signal: seq<Option<real>>, histogram: seq<Option<real>>)

  datatype InputError = InvalidPeriod | FastNotBelowSlow

  function MacdSpec(close: seq<real>, fast: nat, slow: nat, signal: nat): MacdResult
    requires 1 <= fast < slow && signal >= 1
  {
    var line := PlacedAt(MacdValues(close, fast, slow), slow - 1, |close|);
    var sig := PlacedAt(EmaValues(MacdValues(close, fast, slow), signal), slow + signal - 2, |close|);
    MacdResult(line, sig, seq(|close|, i requires 0 <= i < |close| => MinusOption(line[i], sig[i])))
  }

  /** The line as it is computed: bar by bar, where both averages exist. */
  function LineOf(close: seq<real>, fast: nat, slow: nat): seq<Option<real>>
    requires 1 <= fast < slow
  {
    var ef, es := EmaSeries(close, fast), EmaSeries(close, slow);
    seq(|close|, i requires 0 <= i < |close| => MinusOption(ef[i], es[i]))
  }

  lemma LineAt(close: seq<real>, fast: nat, slow: nat, i: nat)
    requires 1 <= fast < slow && i < |close|
    ensures LineOf(close, fast, slow)[i] == PlacedAt(MacdValues(close, fast, slow), slow - 1, |close|)[i]
    ensures LineOf(close, fast, slow)[i].Some? <==> i >= slow - 1
  {
    if i >= slow - 1 {
      assert MacdValues(close, fast, slow)[i - (slow - 1)] == EmaAt(close, fast, i) - EmaAt(close, slow, i);
    }
  }

  lemma LineStarts(close: seq<real>, fast: nat, slow: nat)
    requires 1 <= fast < slow
    ensures Padded(LineOf(close, fast, slow), slow - 1)
    ensures LineOf(close, fast, slow) == PlacedAt(MacdValues(close, fast, slow), slow - 1, |close|)
  {
    forall i | 0 <= i < |close|
      ensures LineOf(close, fast, slow)[i] == PlacedAt(MacdValues(close, fast, slow), slow - 1, |close|)[i]
      ensures LineOf(close, fast, slow)[i].Some? <==> i >= slow - 1
    {
      LineAt(close, fast, slow, i);
    }
  }

  lemma LineStripped(close: seq<real>, fast: nat, slow: nat)
    requires 1 <= fast < slow
    ensures Strip(LineOf(close, fast, slow)) == MacdValues(close, fast, slow)
  {
    LineStarts(close, fast, slow);
    var line, values := LineOf(close, fast, slow), MacdValues(close, fast, slow);
    StripOfPadded(line, slow - 1);
    forall k | 0 <= k < |values|
      ensures Strip(line)[k] == values[k]
    {
      assert line[slow - 1 + k] == Some(values[k]);
    }
  }

  /** Copies a padded series into bars `first` and following. */
  method Realign(padded: seq<Option<real>>, first: nat, n: nat) returns (s: seq<Option<real>>)
    requires first + |padded| <= n
    ensures |s| == n
    ensures forall i :: 0 <= i < n ==> s[i] == if first <= i < first + |padded| then padded[i - first] else None
  {
    s := seq(n, _ => None);
    for off := 0 to |padded|
      invariant |s| == n
      invariant forall i :: 0 <= i < n ==> s[i] == if first <= i < first + off then padded[i - first] else None
    {
      s := s[first + off := padded[off]];
    }
  }

  method FirstDefined(s: seq<Option<real>>) returns (first: Option<nat>)
    ensures first.None? ==> forall i :: 0 <= i < |s| ==> s[i].None?
    ensures first.Some? ==>
              && first.value < |s| && s[first.value].Some?
              && forall i :: 0 <= i < first.value ==> s[i].None?
  {
    for i := 0 to |s|
      invariant forall k :: 0 <= k < i ==> s[k].None?
    {
      if s[i].Some? {
        return Some(i);
      }
    }
    return None;
  }

  /** A padded average set down at bar `start` has its first value `signal - 1` bars later. */
  lemma PlacedAverage(values: seq<real>, signal: nat, start: nat, n: nat, s: seq<Option<real>>)
    requires signal >= 1 && start + |values| == n && |s| == n
    requires forall i :: 0 <= i < n ==> s[i] == if start <= i then EmaSeries(values, signal)[i - start] else None
    ensures s == PlacedAt(EmaValues(values, signal), start + signal - 1, n)
  {
    var placed := PlacedAt(EmaValues(values, signal), start + signal - 1, n);
    forall i | 0 <= i < n
      ensures s[i] == placed[i]
    {
      if i >= start + signal - 1 {
        assert EmaValues(values, signal)[i - (start + signal - 1)] == EmaAt(values, signal, i - start);
      }
    }
  }

  lemma NothingPlaced(signal: nat, start: nat, n: nat, s: seq<Option<real>>)
    requires signal >= 1 && |s| == n && forall i :: 0 <= i < n ==> s[i] == None
    ensures s == PlacedAt(EmaValues([], signal), start + signal - 1, n)
  {}

  /** A padded series first has a value where its warm-up ends. */
  lemma FirstOfPadded(line: seq<Option<real>>, start: nat, first: Option<nat>)
    requires Padded(line, start)
    requires first.None? ==> forall i :: 0 <= i < |line| ==> line[i].None?
    requires first.Some? ==>
               && first.value < |line| && line[first.value].Some?
               && forall i :: 0 <= i < first.value ==> line[i].None?
    ensures first == if start < |line| then Some(start) else None
  {
    if start < |line| {
      assert line[start].Some?;
    }
  }

  /** The signal of a line, placed where the line itself first has a value. */
  method AlignedSignal(line: seq<Option<real>>, signal: nat, ghost start: nat, ghost values: seq<real>)
    returns (s: seq<Option<real>>)
    requires signal >= 1 && Padded(line, start) && Strip(line) == values
    ensures s == PlacedAt(EmaValues(values, signal), start + signal - 1, |line|)
  {
    StripOfPadded(line, start);
    var first := FirstDefined(line);
    FirstOfPadded(line, start, first);
    if first.None? {
      s := seq(|line|, _ => None);
      NothingPlaced(signal, start, |line|, s);
    } else {
      s := Realign(EmaSeries(Strip(line), signal), first.value, |line|);
      PlacedAverage(values, signal, start, |line|, s);
    }
  }

  method Macd(close: seq<real>, fast: int, slow: int, signal: int) returns (r: Result<MacdResult, InputError>)
    ensures r == if fast < 1 || slow < 1 || signal < 1 then Raised(InvalidPeriod)
                 else if fast >= slow then Raised(FastNotBelowSlow)
                 else Ok(MacdSpec(close, fast, slow, signal))
  {
    if fast < 1 || slow < 1 || signal < 1 {
      return Raised(InvalidPeriod);
    }
    if fast >= slow {
      return Raised(FastNotBelowSlow);
    }
    LineStarts(close, fast, slow);
    LineStripped(close, fast, slow);
    var line := LineOf(close, fast, slow);
    var sig := AlignedSignal(line, signal, slow - 1, MacdValues(close, fast, slow));
    return Ok(MacdResult(line, sig, seq(|close|, i requires 0 <= i < |close| => MinusOption(line[i], sig[i]))));
  }

  // ----- TRIX -----

  /** Percent change, zero when the previous value is zero. */
  function PctChange(current: real, previous: real): real {
    if previous != 0.0 then (current - previous) / previous * 100.0 else 0.0
  }

  function TripleEma(close: seq<real>, period: nat): seq<real>
    requires period >= 1
  {
    EmaValues(EmaValues(EmaValues(close, period), period), period)
  }

  function Changes(v: seq<real>): seq<real> {
    if |v| == 0 then [] else seq(|v| - 1, k requires 0 <= k < |v| - 1 => PctChange(v[k + 1], v[k]))
  }

  datatype TrixResult = TrixResult(line: seq<Option<real>>, signal: seq<Option<real>>)

  function TrixSpec(close: seq<real>, period: nat, signal: nat): TrixResult
    requires period >= 1 && signal >= 1
  {
    var changes := Changes(TripleEma(close, period));
    TrixResult(PlacedAt(changes, 3 * (period - 1) + 1, |close|),
               PlacedAt(EmaValues(changes, signal), 3 * (period - 1) + signal, |close|))
  }

  lemma TripleEmaLength(close: seq<real>, period: nat)
    requires period >= 1
    ensures |TripleEma(close, period)| == if |close| > 3 * (period - 1) then |close| - 3 * (period - 1) else 0
  {
    var e1 := EmaValues(close, period);
    var e2 := EmaValues(e1, period);
    assert |e1| == if |close| > period - 1 then |close| - (period - 1) else 0;
    assert |e2| == if |e1| > period - 1 then |e1| - (period - 1) else 0;
  }

  /** Writes the values so that the last of them stands at the last bar. */
  method AlignToEnd(values: seq<real>, n: nat) returns (s: seq<Option<real>>)
    ensures |s| == n
    ensures |values| <= n ==> s == PlacedAt(values, n - |values|, n)
  {
    s := seq(n, _ => None);
    for off := 0 to |values|
      invariant |s| == n
      invariant |values| <= n ==> forall i :: 0 <= i < n ==>
                  s[i] == if n - |values| <= i < n - |values| + off then Some(values[i - (n - |values|)]) else None
    {
      var idx := n - |values| + off;
      if idx >= 0 {
        s := s[idx := Some(values[off])];
      }
    }
  }

  method Trix(close: seq<real>, period: int, signal: int) returns (r: Result<TrixResult, InputError>)
    ensures r == if period < 1 || signal < 1 then Raised(InvalidPeriod) else Ok(TrixSpec(close, period, signal))
  {
    if period < 1 || signal < 1 {
      return Raised(InvalidPeriod);
    }
    var n := |close|;
    var e1 := StrippedEma(close, period);
    var e2 := StrippedEma(e1, period);
    var e3 := StrippedEma(e2, period);
    var valid := Changes(e3);
    var sigValid := StrippedEma(valid, signal);
    TripleEmaLength(close, period);
    var t := AlignToEnd(valid, n);
    var s := AlignToEnd(sigValid, n);
    PlacedWhenEmpty(valid, n - |valid|, 3 * (period - 1) + 1, n);
    PlacedWhenEmpty(sigValid, n - |sigValid|, 3 * (period - 1) + signal, n);
    return Ok(TrixResult(t, s));
  }

  method StrippedEma(v: seq<real>, period: nat) returns (e: seq<real>)
    requires period >= 1
    ensures e == EmaValues(v, period)
  {
    StripOfEma(v, period);
    e := Strip(EmaSeries(v, period));
  }

  /** Where no values are placed, the position does not matter. */
  lemma PlacedWhenEmpty(values: seq<real>, a: nat, b: nat, n: nat)
    requires values == [] || a == b
    ensures PlacedAt(values, a, n) == PlacedAt(values, b, n)
  {}

  // ----- no look-ahead, and first appearance -----

  /** `later` agrees with `s` on every bar of `s`. */
  ghost predicate Extends(s: seq<Option<real>>, later: seq<Option<real>>) {
    |s| <= |later| && forall i :: 0 <= i < |s| ==> later[i] == s[i]
  }

  /** Values appear from bar `start` on, and not before. */
  ghost predicate AppearsAt(s: seq<Option<real>>, start: nat) {
    forall i :: 0 <= i < |s| ==> (s[i].Some? <==> i >= start)
  }

  lemma PlacedExtends(a: seq<real>, b: seq<real>, start: nat, m: nat, n: nat)
    requires a <= b && m <= n
    requires start + |a| == m || (start >= m && a == [])
    ensures Extends(PlacedAt(a, start, m), PlacedAt(b, start, n))
    ensures AppearsAt(PlacedAt(a, start, m), start)
  {}

  lemma MacdValuesExtend(close: seq<real>, more: seq<real>, fast: nat, slow: nat)
    requires 1 <= fast < slow
    ensures MacdValues(close, fast, slow) <= MacdValues(close + more, fast, slow)
  {
    forall k | 0 <= k < |MacdValues(close, fast, slow)|
      ensures MacdValues(close, fast, slow)[k] == MacdValues(close + more, fast, slow)[k]
    {
      EmaIgnoresLater(close, more, fast, slow - 1 + k);
      EmaIgnoresLater(close, more, slow, slow - 1 + k);
    }
  }

  lemma EmaOfPrefix(a: seq<real>, b: seq<real>, period: nat)
    requires period >= 1 && a <= b
    ensures EmaValues(a, period) <= EmaValues(b, period)
  {
    assert b == a + b[|a|..];
    EmaValuesExtend(a, b[|a|..], period);
  }

  /**
   * MACD never looks ahead, and its line, signal and histogram first appear at bars
   * `slow - 1`, `slow + signal - 2` and `slow + signal - 2`.
   */
  lemma MacdNeverLooksAhead(close: seq<real>, more: seq<real>, fast: nat, slow: nat, signal: nat)
    requires 1 <= fast < slow && signal >= 1
    ensures
      var now, later := MacdSpec(close, fast, slow, signal), MacdSpec(close + more, fast, slow, signal);
      && Extends(now.line, later.line) && Extends(now.signal, later.signal)
      && Extends(now.histogram, later.histogram)
      && AppearsAt(now.line, slow - 1) && AppearsAt(now.signal, slow + signal - 2)
      && AppearsAt(now.histogram, slow + signal - 2)
  {
    var a, b := MacdValues(close, fast, slow), MacdValues(close + more, fast, slow);
    MacdValuesExtend(close, more, fast, slow);
    EmaOfPrefix(a, b, signal);
    PlacedExtends(a, b, slow - 1, |close|, |close + more|);
    PlacedExtends(EmaValues(a, signal), EmaValues(b, signal), slow + signal - 2, |close|, |close + more|);
  }

  lemma TripleEmaExtends(close: seq<real>, more: seq<real>, period: nat)
    requires period >= 1
    ensures TripleEma(close, period) <= TripleEma(close + more, period)
  {
    var e1, f1 := EmaValues(close, period), EmaValues(close + more, period);
    EmaValuesExtend(close, more, period);
    EmaOfPrefix(e1, f1, period);
    EmaOfPrefix(EmaValues(e1, period), EmaValues(f1, period), period);
  }

  /**
   * TRIX never looks ahead, and its line and signal first appear at bars
   * `3 * (period - 1) + 1` and `3 * (period - 1) + signal`.
   */
  lemma TrixNeverLooksAhead(close: seq<real>, more: seq<real>, period: nat, signal: nat)
    requires period >= 1 && signal >= 1
    ensures
      var now, later := TrixSpec(close, period, signal), TrixSpec(close + more, period, signal);
      && Extends(now.line, later.line) && Extends(now.signal, later.signal)
      && AppearsAt(now.line, 3 * (period - 1) + 1) && AppearsAt(now.signal, 3 * (period - 1) + signal)
  {
    TripleEmaExtends(close, more, period);
    var a, b := Changes(TripleEma(close, period)), Changes(TripleEma(close + more, period));
    assert a <= b;
    EmaOfPrefix(a, b, signal);
    TripleEmaLength(close, period);
    PlacedExtends(a, b, 3 * (period - 1) + 1, |close|, |close + more|);
    PlacedExtends(EmaValues(a, signal), EmaValues(b, signal), 3 * (period - 1) + signal, |close|, |close + more|);
  }

  // ----- what the values are -----

  /** The sum of some values, from the first on. */
  function SumOf(v: seq<real>): real {
    if v == [] then 0.0 else v[0] + SumOf(v[1..])
  }

  lemma {:induction false} SumOfLast(v: seq<real>, last: real)
    ensures SumOf(v + [last]) == SumOf(v) + last
  {
    if v != [] {
      assert (v + [last])[1..] == v[1..] + [last];
      SumOfLast(v[1..], last);
    }
  }

  lemma {:induction false} TotalIsSum(v: seq<real>, n: nat)
    requires n <= |v|
    ensures Total(v, n) == SumOf(v[..n])
  {
    if n > 0 {
      TotalIsSum(v, n - 1);
      SumOfLast(v[..n - 1], v[n - 1]);
      assert v[..n] == v[..n - 1] + [v[n - 1]];
    }
  }

  /**
   * The average starts as the mean of the first `period` values; from then on a value weighs
   * twice against `period - 1` times the average before it.
   */
  lemma AverageIsExponential(v: seq<real>, period: nat, i: nat)
    requires period >= 1 && period - 1 <= i < |v|
    ensures i == period - 1 ==> EmaAt(v, period, i) * period as real == SumOf(v[..period])
    ensures i >= period ==>
              EmaAt(v, period, i) * (period as real + 1.0)
              == 2.0 * v[i] + (period as real - 1.0) * EmaAt(v, period, i - 1)
  {
    if i == period - 1 {
      TotalIsSum(v, period);
    } else {
      WeighedAverage(v[i], EmaAt(v, period, i - 1), period as real + 1.0);
    }
  }

  lemma WeighedAverage(value: real, average: real, n: real)
    requires n > 0.0
    ensures (2.0 / n * value + (1.0 - 2.0 / n) * average) * n == 2.0 * value + (n - 2.0) * average
  {
    var alpha := 2.0 / n;
    assert alpha * n == 2.0;
    assert (alpha * value) * n == (alpha * n) * value;
    assert ((1.0 - alpha) * average) * n == (n - alpha * n) * average;
  }

  /** `e` holds the averages of `v` from the first bar with enough values on. */
  ghost predicate AreAverages(e: seq<real>, v: seq<real>, period: nat)
    requires period >= 1
  {
    && |e| == (if |v| < period then 0 else |v| - period + 1)
    && forall k :: 0 <= k < |e| ==> e[k] == EmaAt(v, period, period - 1 + k)
  }

  lemma AveragesAre(e: seq<real>, v: seq<real>, period: nat)
    requires period >= 1 && AreAverages(e, v, period)
    ensures e == EmaValues(v, period)
  {}

  lemma LineValues(close: seq<real>, fast: nat, slow: nat, signal: nat, values: seq<real>)
    requires 1 <= fast < slow && signal >= 1
    requires |values| == (if |close| < slow then 0 else |close| - slow + 1)
    requires forall k :: 0 <= k < |values| ==>
               MacdSpec(close, fast, slow, signal).line[slow - 1 + k] == Some(values[k])
    ensures values == MacdValues(close, fast, slow)
  {
    var line := MacdSpec(close, fast, slow, signal).line;
    forall k | 0 <= k < |values|
      ensures values[k] == MacdValues(close, fast, slow)[k]
    {
      assert line[slow - 1 + k] == Some(MacdValues(close, fast, slow)[k]);
    }
  }

  lemma LineHas(close: seq<real>, fast: nat, slow: nat, signal: nat, i: nat)
    requires 1 <= fast < slow && signal >= 1 && slow - 1 <= i < |close|
    ensures MacdSpec(close, fast, slow, signal).line[i] == Some(EmaAt(close, fast, i) - EmaAt(close, slow, i))
  {
    PlacedHas(MacdValues(close, fast, slow), slow - 1, |close|, i);
  }

  lemma SignalHas(close: seq<real>, fast: nat, slow: nat, signal: nat, i: nat)
    requires 1 <= fast < slow && signal >= 1 && slow + signal - 2 <= i < |close|
    ensures
      var m := MacdSpec(close, fast, slow, signal);
      && m.line[i].Some?
      && m.signal[i] == Some(EmaAt(MacdValues(close, fast, slow), signal, i - (slow - 1)))
      && m.histogram[i] == Some(m.line[i].value - m.signal[i].value)
  {
    LineHas(close, fast, slow, signal, i);
    AverageHas(MacdValues(close, fast, slow), signal, slow - 1, |close|, i);
  }

  /**
   * The line is the fast average less the slow one, the signal the average of the line's own
   * values, the histogram the line less the signal.
   */
  lemma MacdIs(close: seq<real>, fast: nat, slow: nat, signal: nat, values: seq<real>, i: nat)
    requires 1 <= fast < slow && signal >= 1 && i < |close|
    requires |values| == (if |close| < slow then 0 else |close| - slow + 1)
    requires forall k :: 0 <= k < |values| ==>
               MacdSpec(close, fast, slow, signal).line[slow - 1 + k] == Some(values[k])
    ensures
      var m := MacdSpec(close, fast, slow, signal);
      && |m.line| == |m.signal| == |m.histogram| == |close|
      && (i >= slow - 1 ==> m.line[i] == Some(EmaAt(close, fast, i) - EmaAt(close, slow, i)))
      && (i >= slow + signal - 2 ==> m.signal[i] == Some(EmaAt(values, signal, i - (slow - 1))))
      && (i >= slow + signal - 2 ==> m.histogram[i] == Some(m.line[i].value - m.signal[i].value))
  {
    LineValues(close, fast, slow, signal, values);
    if i >= slow - 1 {
      LineHas(close, fast, slow, signal, i);
    }
    if i >= slow + signal - 2 {
      SignalHas(close, fast, slow, signal, i);
    }
  }

  /** The percent change between two values; none from zero. */
  ghost predicate IsChange(c: real, from: real, to: real) {
    if from == 0.0 then c == 0.0 else c * from == (to - from) * 100.0
  }

  lemma ChangeIs(from: real, to: real)
    ensures IsChange(PctChange(to, from), from, to)
  {
    if from != 0.0 {
      var ratio := (to - from) / from;
      assert ratio * from == to - from;
      assert ratio * 100.0 * from == ratio * from * 100.0;
    }
  }

  lemma ChangeIsUnique(c: real, d: real, from: real, to: real)
    requires IsChange(c, from, to) && IsChange(d, from, to)
    ensures c == d
  {
    if from != 0.0 {
      assert (c - d) * from == 0.0;
    }
  }

  lemma ChangesAre(changes: seq<real>, v: seq<real>)
    requires |changes| == (if v == [] then 0 else |v| - 1)
    requires forall k :: 0 <= k < |changes| ==> IsChange(changes[k], v[k], v[k + 1])
    ensures changes == Changes(v)
  {
    forall k | 0 <= k < |changes|
      ensures changes[k] == Changes(v)[k]
    {
      ChangeIs(v[k], v[k + 1]);
      ChangeIsUnique(changes[k], PctChange(v[k + 1], v[k]), v[k], v[k + 1]);
    }
  }

  lemma ChangesOfTriple(close: seq<real>, period: nat, e1: seq<real>, e2: seq<real>, e3: seq<real>, changes: seq<real>)
    requires period >= 1
    requires AreAverages(e1, close, period) && AreAverages(e2, e1, period) && AreAverages(e3, e2, period)
    requires |changes| == (if e3 == [] then 0 else |e3| - 1)
    requires forall k :: 0 <= k < |changes| ==> IsChange(changes[k], e3[k], e3[k + 1])
    ensures changes == Changes(TripleEma(close, period))
    ensures |changes| == if |close| < 3 * (period - 1) + 1 then 0 else |close| - (3 * (period - 1) + 1)
  {
    AveragesAre(e1, close, period);
    AveragesAre(e2, e1, period);
    AveragesAre(e3, e2, period);
    ChangesAre(changes, e3);
    TripleEmaLength(close, period);
  }

  lemma PlacedHas(values: seq<real>, start: nat, n: nat, i: nat)
    requires start <= i < n && start + |values| == n
    ensures PlacedAt(values, start, n)[i] == Some(values[i - start])
  {}

  lemma AverageHas(values: seq<real>, period: nat, start: nat, n: nat, i: nat)
    requires period >= 1 && start + |values| == n && start + period - 1 <= i < n
    ensures PlacedAt(EmaValues(values, period), start + period - 1, n)[i] == Some(EmaAt(values, period, i - start))
  {
    assert EmaValues(values, period)[i - (start + period - 1)] == EmaAt(values, period, i - start);
  }

  lemma TrixLineHas(close: seq<real>, period: nat, signal: nat, changes: seq<real>, start: nat, i: nat)
    requires period >= 1 && signal >= 1 && changes == Changes(TripleEma(close, period))
    requires start == 3 * (period - 1) + 1 && start <= i < |close| && start + |changes| == |close|
    ensures TrixSpec(close, period, signal).line[i] == Some(changes[i - start])
  {
    PlacedHas(changes, start, |close|, i);
  }

  lemma SignalIsPlaced(close: seq<real>, period: nat, signal: nat, changes: seq<real>, first: nat)
    requires period >= 1 && signal >= 1 && changes == Changes(TripleEma(close, period))
    requires first == 3 * (period - 1) + signal
    ensures TrixSpec(close, period, signal).signal == PlacedAt(EmaValues(changes, signal), first, |close|)
  {}

  lemma PlacedAverageHas(s: seq<Option<real>>, values: seq<real>, period: nat, start: nat, i: nat)
    requires period >= 1 && start + |values| == |s| && start + period - 1 <= i < |s|
    requires s == PlacedAt(EmaValues(values, period), start + period - 1, |s|)
    ensures s[i] == Some(EmaAt(values, period, i - start))
  {
    AverageHas(values, period, start, |s|, i);
  }

  lemma TrixSignalHas(close: seq<real>, period: nat, signal: nat, changes: seq<real>, start: nat, i: nat)
    requires period >= 1 && signal >= 1 && changes == Changes(TripleEma(close, period))
    requires start == 3 * (period - 1) + 1 && start + signal - 1 <= i < |close| && start + |changes| == |close|
    ensures TrixSpec(close, period, signal).signal[i] == Some(EmaAt(changes, signal, i - start))
  {
    SignalIsPlaced(close, period, signal, changes, start + signal - 1);
    PlacedAverageHas(TrixSpec(close, period, signal).signal, changes, signal, start, i);
  }

  /**
   * The line is the percent change of the threefold average, none where the value before is
   * zero; the signal is the average of those changes.
   */
  lemma TrixIs(close: seq<real>, period: nat, signal: nat, e1: seq<real>, e2: seq<real>, e3: seq<real>,
               changes: seq<real>, i: nat)
    requires period >= 1 && signal >= 1 && i < |close|
    requires AreAverages(e1, close, period) && AreAverages(e2, e1, period) && AreAverages(e3, e2, period)
    requires |changes| == (if e3 == [] then 0 else |e3| - 1)
    requires forall k :: 0 <= k < |changes| ==> IsChange(changes[k], e3[k], e3[k + 1])
    ensures
      var t, start := TrixSpec(close, period, signal), 3 * (period - 1) + 1;
      && |t.line| == |t.signal| == |close|
      && |changes| == (if |close| < start then 0 else |close| - start)
      && (i >= start ==> t.line[i] == Some(changes[i - start]))
      && (i >= start + signal - 1 ==> t.signal[i] == Some(EmaAt(changes, signal, i - start)))
  {
    ChangesOfTriple(close, period, e1, e2, e3, changes);
    var start := 3 * (period - 1) + 1;
    if i >= start {
      TrixLineHas(close, period, signal, changes, start, i);
    }
    if i >= start + signal - 1 {
      TrixSignalHas(close, period, signal, changes, start, i);
    }
  }

  /** The value at the last bar is the change of the triple average that this bar brings. */
  lemma LastTrix(earlier: seq<real>, last: real, period: nat, signal: nat)
    requires period >= 1 && signal >= 1 && 3 * (period - 1) + 1 <= |earlier|
    ensures
      var here, before := TripleEma(earlier + [last], period), TripleEma(earlier, period);
      && |here| >= 1 && |before| >= 1
      && TrixSpec(earlier + [last], period, signal).line[|earlier|]
         == Some(PctChange(here[|here| - 1], before[|before| - 1]))
  {
    TripleEmaLength(earlier + [last], period);
    TripleEmaLength(earlier, period);
    TripleEmaExtends(earlier, [last], period);
  }

  /**
   * Each TRIX value stands at the last bar it used: it is the change of the triple average
   * between the two averages that end at that bar and at the bar before.
   */
  lemma TrixStandsAtItsLastBar(close: seq<real>, period: nat, signal: nat, i: nat)
    requires period >= 1 && signal >= 1 && 3 * (period - 1) + 1 <= i < |close|
    ensures |TripleEma(close[..i + 1], period)| >= 1 && |TripleEma(close[..i], period)| >= 1
    ensures TrixSpec(close, period, signal).line[i].Some?
    ensures
      var here, before := TripleEma(close[..i + 1], period), TripleEma(close[..i], period);
      IsChange(TrixSpec(close, period, signal).line[i].value, before[|before| - 1], here[|here| - 1])
  {
    var here, before := TripleEma(close[..i + 1], period), TripleEma(close[..i], period);
    var upTo := close[..i] + [close[i]];
    assert close[..i + 1] == upTo;
    assert close == upTo + close[i + 1..];
    LastTrix(close[..i], close[i], period, signal);
    TrixNeverLooksAhead(upTo, close[i + 1..], period, signal);
    ChangeIs(before[|before| - 1], here[|here| - 1]);
  }
}
