/** Statistics and projection helpers (core/utils.py). */
module Utils {
  import opened Floats

  /** Python's `abs` on floats. */
  function Abs(x: real): real
  {
    if x < 0.0 then -x else x
  }

  /** `clamp(value, min_val, max_val) = max(min_val, min(max_val, value))`. */
  function Clamp(v: real, lo: real, hi: real): (r: real)
    ensures lo <= r
    ensures lo <= hi ==> r <= hi
    ensures lo <= v <= hi ==> r == v
    ensures v <= lo ==> r == lo
    ensures lo <= hi <= v ==> r == hi
  {
    var m := if v < hi then v else hi;
    if m > lo then m else lo
  }

  // ---------------------------------------------------------------------------
  // Maximum drawdown
  // ---------------------------------------------------------------------------

  /** The running peak after reading values[..i+1]: the largest finite entry so far,
      or None while no finite entry has been seen (the source's `float('-inf')`). */
  function PeakThrough(values: seq<Num>, i: nat): (pk: Option<real>)
    requires i < |values|
    ensures values[i].Finite? ==> pk.Some? && values[i].value <= pk.value
  {
    var prev := if i == 0 then None else PeakThrough(values, i - 1);
    if values[i].NonFinite? then prev
    else if prev.None? || values[i].value > prev.value then Some(values[i].value)
    else prev
  }

  /** The running peak is the maximum of the finite entries read so far: it is unset exactly
      while every entry has been non-finite, every finite entry is at most the peak, and the
      peak is one of them. */
  lemma {:induction false} PeakIsRunningMax(values: seq<Num>, i: nat)
    requires i < |values|
    ensures PeakThrough(values, i).None? <==> forall j :: 0 <= j <= i ==> values[j].NonFinite?
    ensures PeakThrough(values, i).Some? ==>
              (forall j :: 0 <= j <= i && values[j].Finite? ==> values[j].value <= PeakThrough(values, i).value) &&
              exists j :: 0 <= j <= i && values[j] == Finite(PeakThrough(values, i).value)
  {
    if i > 0 {
      PeakIsRunningMax(values, i - 1);
    }
  }

  /** The drawdown of a value against a peak, or 0 while the peak is not positive. */
  function Drawdown(v: real, pk: real): real
  {
    if pk > 0.0 then v / pk - 1.0 else 0.0
  }

  /** Drawdown of a finite entry against the running peak. */
  function DrawdownAt(values: seq<Num>, i: nat): real
    requires i < |values| && values[i].Finite?
  {
    Drawdown(values[i].value, PeakThrough(values, i).value)
  }

  /** One finite entry read by `max_drawdown`: the peak moves up to it if it is higher, and
      the entry's drawdown is taken against the new peak. */
  method ReadEntry(peak: Option<real>, v: real) returns (peak': Option<real>, dd: real)
    ensures peak' == if peak.None? || v > peak.value then Some(v) else peak
    ensures dd == Drawdown(v, peak'.value)
  {
    peak' := peak;
    if peak.None? || v > peak.value {
      peak' := Some(v);
    }
    dd := if peak'.value > 0.0 then v / peak'.value - 1.0 else 0.0;
  }

  /** dd is the maximum drawdown of values: the most negative drawdown over the finite
      entries, or 0 when no drawdown is negative.  None and non-finite entries are skipped. */
  ghost predicate IsMaxDrawdown(values: seq<Num>, dd: real)
  {
    && dd <= 0.0
    && (forall i :: 0 <= i < |values| && values[i].Finite? ==> dd <= DrawdownAt(values, i))
    && (dd == 0.0 || exists i :: 0 <= i < |values| && values[i].Finite? && dd == DrawdownAt(values, i))
  }

  /** `max_drawdown`: one pass keeping the running peak and the worst drawdown seen. */
  method MaxDrawdown(values: seq<Num>) returns (maxDd: real)
    ensures IsMaxDrawdown(values, maxDd)
  {
    var peak: Option<real> := None;
    maxDd := 0.0;
    ghost var worst := 0;
    for i := 0 to |values|
      invariant peak == if i == 0 then None else PeakThrough(values, i - 1)
      invariant maxDd <= 0.0
      invariant forall j :: 0 <= j < i && values[j].Finite? ==> maxDd <= DrawdownAt(values, j)
      invariant maxDd != 0.0 ==> worst < i && values[worst].Finite? && maxDd == DrawdownAt(values, worst)
    {
      var v := values[i];
      if v.Finite? {
        var dd;
        peak, dd := ReadEntry(peak, v.value);
        assert peak == PeakThrough(values, i);
        assert dd == DrawdownAt(values, i);
        if dd < maxDd {
          maxDd := dd;
          worst := i;
        }
      }
    }
  }

  /** At most one value is the maximum drawdown of a series. */
  lemma MaxDrawdownUnique(values: seq<Num>, d1: real, d2: real)
    requires IsMaxDrawdown(values, d1) && IsMaxDrawdown(values, d2)
    ensures d1 == d2
  {
  }

  /** The running peak of a finite, non-decreasing series is its latest entry. */
  lemma {:induction false} PeakOfRising(values: seq<Num>, i: nat)
    requires i < |values|
    requires forall j :: 0 <= j < |values| ==> values[j].Finite?
    requires forall j, k :: 0 <= j <= k < |values| ==> values[j].value <= values[k].value
    ensures PeakThrough(values, i) == Some(values[i].value)
  {
    if i > 0 {
      PeakOfRising(values, i - 1);
    }
  }

  /** In a positive non-decreasing series every entry is its own running peak, so its drawdown is 0. */
  lemma DrawdownOfRisingAt(values: seq<Num>, i: nat)
    requires i < |values|
    requires forall j :: 0 <= j < |values| ==> values[j].Finite? && values[j].value > 0.0
    requires forall j, k :: 0 <= j <= k < |values| ==> values[j].value <= values[k].value
    ensures DrawdownAt(values, i) == 0.0
  {
    PeakOfRising(values, i);
    var v := values[i].value;
    DivMul(v, v);
    ScaledEq(v / v, 1.0, v);
  }

  /** A positive non-decreasing equity curve has no drawdown. */
  lemma RisingCurveHasNoDrawdown(values: seq<Num>)
    requires forall j :: 0 <= j < |values| ==> values[j].Finite? && values[j].value > 0.0
    requires forall j, k :: 0 <= j <= k < |values| ==> values[j].value <= values[k].value
    ensures IsMaxDrawdown(values, 0.0)
  {
    forall i | 0 <= i < |values| && values[i].Finite?
      ensures DrawdownAt(values, i) == 0.0
    {
      DrawdownOfRisingAt(values, i);
    }
  }

  /** [1, 2, 1] falls by half from its peak. */
  lemma DrawdownHalfway()
    ensures forall d :: IsMaxDrawdown([Finite(1.0), Finite(2.0), Finite(1.0)], d) <==> d == -0.5
  {
    var vs := [Finite(1.0), Finite(2.0), Finite(1.0)];
    assert PeakThrough(vs, 0) == Some(1.0);
    assert PeakThrough(vs, 1) == Some(2.0);
    assert PeakThrough(vs, 2) == Some(2.0);
    assert DrawdownAt(vs, 2) == -0.5;
    assert IsMaxDrawdown(vs, -0.5);
    forall d | IsMaxDrawdown(vs, d)
      ensures d == -0.5
    {
      MaxDrawdownUnique(vs, d, -0.5);
    }
  }

  /** [1, 1.5, 1.2, 1.8, 0.9]: the worst drawdown is the last, measured from the later peak 1.8. */
  lemma DrawdownWorstOfSeveral()
    ensures forall d :: IsMaxDrawdown([Finite(1.0), Finite(1.5), Finite(1.2), Finite(1.8), Finite(0.9)], d)
                        <==> d == 0.9 / 1.8 - 1.0
  {
    var vs := [Finite(1.0), Finite(1.5), Finite(1.2), Finite(1.8), Finite(0.9)];
    assert PeakThrough(vs, 0) == Some(1.0);
    assert PeakThrough(vs, 1) == Some(1.5);
    assert PeakThrough(vs, 2) == Some(1.5);
    assert PeakThrough(vs, 3) == Some(1.8);
    assert PeakThrough(vs, 4) == Some(1.8);
    assert IsMaxDrawdown(vs, 0.9 / 1.8 - 1.0);
    forall d | IsMaxDrawdown(vs, d)
      ensures d == 0.9 / 1.8 - 1.0
    {
      MaxDrawdownUnique(vs, d, 0.9 / 1.8 - 1.0);
    }
  }

  // ---------------------------------------------------------------------------
  // Mean and sample variance (Welford)
  // ---------------------------------------------------------------------------

  /** The finite entries of values, in order: the ones `mean_std` does not skip. */
  function Finites(values: seq<Num>): (fs: seq<real>)
    ensures |fs| <= |values|
  {
    if values == [] then []
    else
      var init := Finites(values[..|values| - 1]);
      match values[|values| - 1]
      case Finite(v) => init + [v]
      case NonFinite => init
  }

  function Sum(xs: seq<real>): real
  {
    if xs == [] then 0.0 else Sum(xs[..|xs| - 1]) + xs[|xs| - 1]
  }

  function SumSq(xs: seq<real>): real
  {
    if xs == [] then 0.0 else SumSq(xs[..|xs| - 1]) + xs[|xs| - 1] * xs[|xs| - 1]
  }

  lemma SquareNonNegative(y: real)
    ensures y * y >= 0.0
  {
    if y < 0.0 {
      assert y * y == (-y) * (-y);
    }
  }

  /** Sum of squared deviations of xs from m. */
  function SqDev(xs: seq<real>, m: real): real
  {
    if xs == [] then 0.0
    else
      var y := xs[|xs| - 1] - m;
      SqDev(xs[..|xs| - 1], m) + y * y
  }

  lemma {:induction false} SqDevNonNegative(xs: seq<real>, m: real)
    ensures SqDev(xs, m) >= 0.0
  {
    if xs != [] {
      SqDevNonNegative(xs[..|xs| - 1], m);
      SquareNonNegative(xs[|xs| - 1] - m);
    }
  }

  /** Arithmetic mean of the finite entries, 0 when there are none. */
  function Mean(values: seq<Num>): real
  {
    var fs := Finites(values);
    if |fs| == 0 then 0.0 else Sum(fs) / |fs| as real
  }

  /** Sum of squared deviations of the finite entries from their mean (Welford's M2). */
  function M2(values: seq<Num>): real
  {
    SqDev(Finites(values), Mean(values))
  }

  /** Sample variance (divisor n - 1) of the finite entries, 0 with fewer than two of them. */
  function SampleVariance(values: seq<Num>): (v: real)
    ensures v >= 0.0
  {
    var n := |Finites(values)|;
    if n > 1 then
      SqDevNonNegative(Finites(values), Mean(values));
      M2(values) / (n - 1) as real
    else 0.0
  }

  /** Sum of squared deviations, expanded: sum(x^2) - 2 m sum(x) + n m^2. */
  lemma {:induction false} SqDevExpand(xs: seq<real>, m: real)
    ensures SqDev(xs, m) == SumSq(xs) - 2.0 * m * Sum(xs) + (|xs| as real) * m * m
  {
    if xs != [] {
      var init, x := xs[..|xs| - 1], xs[|xs| - 1];
      SqDevExpand(init, m);
      var d, q, s, k := SqDev(xs, m), SumSq(xs), Sum(xs), |xs| as real;
      assert d == SqDev(init, m) + (x - m) * (x - m);
      assert q == SumSq(init) + x * x;
      assert s == Sum(init) + x;
      assert k == |init| as real + 1.0;
      ExpandSquare(SqDev(init, m), SumSq(init), Sum(init), |init| as real, x, m, d, q, s, k);
    }
  }

  /** The arithmetic of one step of SqDevExpand. */
  lemma ExpandSquare(d: real, q: real, s: real, k: real, x: real, m: real, d': real, q': real, s': real, k': real)
    requires d == q - 2.0 * m * s + k * m * m
    requires d' == d + (x - m) * (x - m) && q' == q + x * x && s' == s + x && k' == k + 1.0
    ensures d' == q' - 2.0 * m * s' + k' * m * m
  {
    assert (x - m) * (x - m) == x * x - 2.0 * m * x + m * m;
    assert 2.0 * m * (s + x) == 2.0 * m * s + 2.0 * m * x;
    assert (k + 1.0) * m * m == k * m * m + m * m;
  }

  /** With m the mean S/k, the expanded sum of squared deviations is Q - S^2/k. */
  lemma SqDevAtMean(d: real, q: real, s: real, k: real, m: real)
    requires k > 0.0 && m == s / k
    requires d == q - 2.0 * m * s + k * m * m
    ensures d == q - s * s / k
  {
    DivMul(s, k);
    assert s == m * k;
    assert 2.0 * m * s == 2.0 * m * m * k;
    DivMul(s * s, k);
    assert (m * m * k) * k == s * s;
    ScaledEq(s * s / k, m * m * k, k);
  }

  lemma DivMul(a: real, b: real)
    requires b != 0.0
    ensures (a / b) * b == a
  {
  }

  lemma ScaledEq(x: real, y: real, b: real)
    requires b != 0.0 && x * b == y * b
    ensures x == y
  {
    assert (x - y) * b == 0.0;
  }

  /** mean' = mean + (v - mean)/n' satisfies mean' n' = mean n + v. */
  lemma WelfordMeanTimes(n: real, m: real, v: real, n': real, mean': real)
    requires n' == n + 1.0 && n' != 0.0 && mean' == m + (v - m) / n'
    ensures mean' * n' == m * n + v
  {
    DivMul(v - m, n');
    assert mean' * n' == m * n' + ((v - m) / n') * n';
  }

  /** The deviation of v from the new mean. */
  lemma WelfordDeviation(n: real, m: real, v: real, n': real, mean': real)
    requires n' == n + 1.0 && mean' * n' == m * n + v
    ensures (v - mean') * n' == n * (v - m)
  {
  }

  lemma WelfordIdentity(n: real, m: real, v: real)
    ensures (m * n + v) * (m * n + v) + n * (v - m) * (v - m) == (n + 1.0) * (m * m * n + v * v)
  {
  }

  lemma WelfordM2Times(n: real, m: real, v: real, q: real, n': real, mean': real, m2': real)
    requires n' == n + 1.0 && (v - mean') * n' == n * (v - m)
    requires m2' == (q - m * m * n) + (v - m) * (v - mean')
    ensures m2' * n' == (q + v * v) * n' - (m * n + v) * (m * n + v)
  {
    WelfordIdentity(n, m, v);
    assert (v - m) * (v - mean') * n' == n * (v - m) * (v - m);
  }


  /** One Welford update: from mean = S/n and M2 = Q - S^2/n over n samples, adding v
      with delta = v - mean, mean' = mean + delta/(n+1) and M2' = M2 + delta (v - mean')
      gives the same two identities over the n + 1 samples. */
  lemma WelfordStep(n: real, s: real, q: real, mean: real, m2: real, v: real,
                    n': real, s': real, q': real, mean': real, m2': real)
    requires n >= 1.0 && mean == s / n && m2 == q - s * s / n
    requires n' == n + 1.0 && s' == s + v && q' == q + v * v
    requires mean' == mean + (v - mean) / n' && m2' == m2 + (v - mean) * (v - mean')
    ensures mean' == s' / n' && m2' == q' - s' * s' / n'
  {
    var m := mean;
    DivMul(s, n);
    assert s == m * n;
    assert s * s / n == m * m * n by {
      DivMul(s * s, n);
      assert (m * m * n) * n == s * s;
      ScaledEq(s * s / n, m * m * n, n);
    }
    WelfordMeanTimes(n, m, v, n', mean');
    DivMul(s', n');
    ScaledEq(mean', s' / n', n');
    WelfordDeviation(n, m, v, n', mean');
    WelfordM2Times(n, m, v, q, n', mean', m2');
    DivMul(s' * s', n');
    assert (q' - s' * s' / n') * n' == q' * n' - s' * s';
    ScaledEq(m2', q' - s' * s' / n', n');
  }

  /** At the mean S/n, the sum of squared deviations is Q - S^2/n (the sums are passed
      in as d, q, s, k to keep the arithmetic apart from the recursive definitions). */
  lemma SqDevAtSampleMean(fs: seq<real>, m: real, d: real, q: real, s: real, k: real)
    requires d == SqDev(fs, m) && q == SumSq(fs) && s == Sum(fs) && k == |fs| as real
    requires k > 0.0 && m == s / k
    ensures d == q - s * s / k
  {
    SqDevExpand(fs, m);
    SqDevAtMean(d, q, s, k, m);
  }

  /** Appending v adds v to the sum and v^2 to the sum of squares. */
  lemma SumsOfAppend(fs: seq<real>, v: real)
    ensures Sum(fs + [v]) == Sum(fs) + v && SumSq(fs + [v]) == SumSq(fs) + v * v
  {
    assert (fs + [v])[..|fs|] == fs;
  }

  /** Reading one more sample v: Welford's update of the mean and of M2 yields the mean of
      the extended sample and its sum of squared deviations from that mean. */
  lemma WelfordUpdate(fs: seq<real>, v: real, mean: real, m2: real, n': nat, mean': real, m2': real)
    requires |fs| == 0 ==> mean == 0.0 && m2 == 0.0
    requires |fs| > 0 ==> mean == Sum(fs) / |fs| as real && m2 == SqDev(fs, mean)
    requires n' == |fs| + 1
    requires mean' == mean + (v - mean) / n' as real
    requires m2' == m2 + (v - mean) * (v - mean')
    ensures mean' == Sum(fs + [v]) / (|fs| + 1) as real
    ensures m2' == SqDev(fs + [v], mean')
  {
    SumsOfAppend(fs, v);
    if |fs| == 0 {
      assert fs + [v] == [v];
      assert [v][..0] == [];
    } else {
      WelfordUpdateSums(fs, v, mean, m2, mean', m2', Sum(fs), SumSq(fs), |fs| as real,
                        Sum(fs + [v]), SumSq(fs + [v]), SqDev(fs + [v], mean'));
    }
  }

  /** The n > 0 case of WelfordUpdate, with the sums named by parameters. */
  lemma WelfordUpdateSums(fs: seq<real>, v: real, mean: real, m2: real, mean': real, m2': real,
                          s: real, q: real, n: real, s': real, q': real, d': real)
    requires s == Sum(fs) && q == SumSq(fs) && n == |fs| as real && n >= 1.0
    requires s' == s + v && q' == q + v * v
    requires d' == SqDev(fs + [v], mean')
    requires mean == s / n && m2 == SqDev(fs, mean)
    requires mean' == mean + (v - mean) / (n + 1.0)
    requires m2' == m2 + (v - mean) * (v - mean')
    ensures mean' == s' / (n + 1.0)
    ensures m2' == d'
  {
    SqDevAtSampleMean(fs, mean, m2, q, s, n);
    WelfordStep(n, s, q, mean, m2, v, n + 1.0, s', q', mean', m2');
    SumsOfAppend(fs, v);
    SqDevAtSampleMean(fs + [v], mean', d', q', s', n + 1.0);
  }

  /** One sample of the `mean_std` loop: n counts it, delta = v - mean,
      mean moves by delta/n and M2 grows by delta (v - mean'). */
  method WelfordAdd(ghost fs: seq<real>, n: nat, mean: real, m2: real, v: real)
    returns (n': nat, mean': real, m2': real)
    requires n == |fs|
    requires n == 0 ==> mean == 0.0 && m2 == 0.0
    requires n > 0 ==> mean == Sum(fs) / n as real && m2 == SqDev(fs, mean)
    ensures n' == |fs + [v]|
    ensures mean' == Sum(fs + [v]) / n' as real
    ensures m2' == SqDev(fs + [v], mean')
  {
    n' := n + 1;
    var delta := v - mean;
    mean' := mean + delta / n' as real;
    m2' := m2 + delta * (v - mean');
    WelfordUpdate(fs, v, mean, m2, n', mean', m2');
  }

  /** `mean_std`: Welford's one-pass mean and M2 over the finite entries.  Returns the
      count, the mean and the sample variance M2/(n-1), floored at 0 as the source does
      before taking its square root. */
  method MeanStd(values: seq<Num>) returns (n: nat, mean: real, variance: real)
    ensures n == |Finites(values)|
    ensures mean == Mean(values)
    ensures variance == SampleVariance(values)
    ensures n < 2 ==> variance == 0.0
  {
    n := 0;
    mean := 0.0;
    var m2 := 0.0;
    for i := 0 to |values|
      invariant n == |Finites(values[..i])|
      invariant n == 0 ==> mean == 0.0 && m2 == 0.0
      invariant n > 0 ==> mean == Sum(Finites(values[..i])) / n as real
      invariant n > 0 ==> m2 == SqDev(Finites(values[..i]), mean)
    {
      assert values[..i + 1] == values[..i] + [values[i]];
      assert (values[..i] + [values[i]])[..i] == values[..i];
      var v := values[i];
      if v.Finite? {
        assert Finites(values[..i + 1]) == Finites(values[..i]) + [v.value];
        n, mean, m2 := WelfordAdd(Finites(values[..i]), n, mean, m2, v.value);
      }
    }
    assert values[..|values|] == values;
    variance := if n > 1 then m2 / (n - 1) as real else 0.0;
    variance := if 0.0 > variance then 0.0 else variance;
  }

  /** When every entry is finite, Finites keeps them all. */
  lemma {:induction false} FinitesOfAllFinite(values: seq<Num>)
    requires forall i :: 0 <= i < |values| ==> values[i].Finite?
    ensures Finites(values) == seq(|values|, i requires 0 <= i < |values| => values[i].value)
  {
    if values != [] {
      FinitesOfAllFinite(values[..|values| - 1]);
    }
  }

  /** [1, 2, 3, 4, 5]: five samples, mean 3, sample variance 2.5 (std sqrt(2.5)). */
  lemma MeanStdOfOneToFive()
    ensures var xs := [Finite(1.0), Finite(2.0), Finite(3.0), Finite(4.0), Finite(5.0)];
            |Finites(xs)| == 5 && Mean(xs) == 3.0 && SampleVariance(xs) == 2.5
  {
    var xs := [Finite(1.0), Finite(2.0), Finite(3.0), Finite(4.0), Finite(5.0)];
    var fs := [1.0, 2.0, 3.0, 4.0, 5.0];
    FinitesOfAllFinite(xs);
    assert Finites(xs) == fs;
    assert fs[..1] == [1.0] && fs[..2] == [1.0, 2.0] && fs[..3] == [1.0, 2.0, 3.0] && fs[..4] == [1.0, 2.0, 3.0, 4.0];
    assert fs[..2][..1] == fs[..1] && fs[..3][..2] == fs[..2] && fs[..4][..3] == fs[..3];
    assert Sum(fs[..1]) == 1.0;
    assert Sum(fs[..2]) == 3.0;
    assert Sum(fs[..3]) == 6.0;
    assert Sum(fs[..4]) == 10.0;
    assert Sum(fs) == 15.0;
    assert SqDev(fs[..1], 3.0) == 4.0;
    assert SqDev(fs[..2], 3.0) == 5.0;
    assert SqDev(fs[..3], 3.0) == 5.0;
    assert SqDev(fs[..4], 3.0) == 6.0;
    assert SqDev(fs, 3.0) == 10.0;
  }

  /** A sample whose entries all equal c sums to n c and has no spread around c. */
  lemma {:induction false} ConstantSums(fs: seq<real>, c: real)
    requires forall i :: 0 <= i < |fs| ==> fs[i] == c
    ensures Sum(fs) == |fs| as real * c && SqDev(fs, c) == 0.0
  {
    if fs != [] {
      ConstantSums(fs[..|fs| - 1], c);
      assert fs[|fs| - 1] == c;
    }
  }

  /** A constant sample has its value as mean and no spread. */
  lemma MeanStdOfConstant(xs: seq<Num>, c: real)
    requires |xs| > 0 && forall i :: 0 <= i < |xs| ==> xs[i] == Finite(c)
    ensures |Finites(xs)| == |xs| && Mean(xs) == c && SampleVariance(xs) == 0.0
  {
    FinitesOfAllFinite(xs);
    var fs := Finites(xs);
    ConstantSums(fs, c);
    var k := |fs| as real;
    DivMul(k * c, k);
    ScaledEq(k * c / k, c, k);
  }

  /** Non-finite entries do not count: they change neither n, nor the mean, nor the variance. */
  lemma {:induction false} FinitesSkipNonFinite(values: seq<Num>, k: nat)
    requires k <= |values|
    ensures Finites(values[..k] + [NonFinite] + values[k..]) == Finites(values)
    decreases |values| - k
  {
    var withBad := values[..k] + [NonFinite] + values[k..];
    if k == |values| {
      assert withBad[..|withBad| - 1] == values;
      assert values[..k] == values;
    } else {
      var init := values[..|values| - 1];
      assert withBad[..|withBad| - 1] == init[..k] + [NonFinite] + init[k..];
      assert withBad[|withBad| - 1] == values[|values| - 1];
      FinitesSkipNonFinite(init, k);
    }
  }

  // ---------------------------------------------------------------------------
  // Projection of a channel ratio to a price
  // ---------------------------------------------------------------------------

  /** Position of price inside the channel [trough, peak], in percent (0 at trough, 100 at peak). */
  function ChannelPosition(price: real, trough: real, peak: real): real
    requires trough < peak
  {
    (price - trough) / (peak - trough) * 100.0
  }

  /** `price_for_ratio_pct`: the price at ratioPct percent of the channel, or None when the
      channel width peak - trough is not finite or not positive. */
  function PriceForRatio(ratioPct: real, trough: Num, peak: Num): (price: Option<real>)
    ensures price.None? <==> (trough.NonFinite? || peak.NonFinite? || peak.value - trough.value <= 0.0)
    ensures price.Some? ==> ChannelPosition(price.value, trough.value, peak.value) == ratioPct
  {
    if trough.NonFinite? || peak.NonFinite? then None
    else
      var width := peak.value - trough.value;
      if width <= 0.0 then None
      else Some(trough.value + (ratioPct / 100.0) * width)
  }

  /** Ratio 0 projects to the trough and ratio 100 to the peak. */
  lemma PriceAtChannelEdges(trough: real, peak: real)
    requires trough < peak
    ensures PriceForRatio(0.0, Finite(trough), Finite(peak)) == Some(trough)
    ensures PriceForRatio(100.0, Finite(trough), Finite(peak)) == Some(peak)
  {
  }

  /** A higher ratio projects to a strictly higher price. */
  lemma PriceForRatioIncreasing(r1: real, r2: real, trough: real, peak: real)
    requires trough < peak && r1 < r2
    ensures PriceForRatio(r1, Finite(trough), Finite(peak)).value < PriceForRatio(r2, Finite(trough), Finite(peak)).value
  {
    var w := peak - trough;
    assert (r2 / 100.0) * w - (r1 / 100.0) * w == ((r2 - r1) / 100.0) * w;
  }

  /** Ratio 46 in a channel from 20000 to 70000 sits at 43000. */
  lemma PriceForRatioExample()
    ensures PriceForRatio(46.0, Finite(20000.0), Finite(70000.0)) == Some(43000.0)
  {
  }
}
