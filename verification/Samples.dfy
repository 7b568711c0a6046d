/** Sample values as listeners see them: a real number, or NaN for a sample that
    is overwritten, not yet collected, or computed from such a sample. */
module Samples {

  datatype Sample = NaN | Num(value: real)

  /** Addition and division propagate NaN; 0.0 / 0 is NaN. */
  function Add(a: Sample, b: Sample): Sample {
    if a.Num? && b.Num? then Num(a.value + b.value) else NaN
  }

  function Over(total: Sample, count: nat): Sample {
    if total.Num? && count > 0 then Num(total.value / count as real) else NaN
  }

  /** Comparison with a level: NaN is never above. */
  predicate Above(x: Sample, level: real) {
    x.Num? && x.value > level
  }

  function Sum(s: seq<Sample>): Sample {
    if s == [] then Num(0.0) else Add(Sum(s[..|s| - 1]), s[|s| - 1])
  }

  function Mean(s: seq<Sample>): Sample {
    Over(Sum(s), |s|)
  }

  lemma SumSnoc(s: seq<Sample>, x: Sample)
    ensures Sum(s + [x]) == Add(Sum(s), x)
  {
    assert (s + [x])[..|s|] == s;
  }

  lemma {:induction false} SumIsNaN(s: seq<Sample>)
    ensures Sum(s).NaN? <==> NaN in s
  {
    if s != [] {
      SumIsNaN(s[..|s| - 1]);
      assert s == s[..|s| - 1] + [s[|s| - 1]];
    }
  }

  /** A mean is NaN exactly when there is nothing to average or some sample is
      missing: one unavailable sample poisons its whole window. */
  lemma MeanIsNaN(s: seq<Sample>)
    ensures Mean(s).NaN? <==> s == [] || NaN in s
  {
    SumIsNaN(s);
  }

  // ---- what a mean is ----

  /** Every sample of the window is there. */
  predicate Measured(s: seq<Sample>) {
    forall i :: 0 <= i < |s| ==> s[i].Num?
  }

  /** The values of a complete window added up, first to last. */
  function Total(s: seq<Sample>): real
    requires Measured(s)
  {
    if s == [] then 0.0 else s[0].value + Total(s[1..])
  }

  lemma TotalOne(x: real)
    ensures Total([Num(x)]) == x
  {
  }

  /** The totals of adjacent windows add up. */
  lemma {:induction false} TotalJoin(a: seq<Sample>, b: seq<Sample>)
    requires Measured(a) && Measured(b)
    ensures Measured(a + b) && Total(a + b) == Total(a) + Total(b)
    decreases |a|
  {
    if a == [] {
      assert a + b == b;
    } else {
      TotalJoin(a[1..], b);
      assert (a + b)[1..] == a[1..] + b;
    }
  }

  lemma {:induction false} SumIsTotal(s: seq<Sample>)
    requires Measured(s)
    ensures Sum(s) == Num(Total(s))
  {
    if s != [] {
      var pre, last := s[..|s| - 1], s[|s| - 1];
      SumIsTotal(pre);
      TotalJoin(pre, [last]);
      assert s == pre + [last];
    }
  }

  lemma {:induction false} TotalBounds(s: seq<Sample>, low: real, high: real)
    requires Measured(s) && forall i :: 0 <= i < |s| ==> low <= s[i].value <= high
    ensures |s| as real * low <= Total(s) <= |s| as real * high
    decreases |s|
  {
    if s != [] {
      TotalBounds(s[1..], low, high);
      Unfold(|s|, low);
      Unfold(|s|, high);
    }
  }

  lemma Unfold(n: nat, x: real)
    requires n > 0
    ensures n as real * x == x + (n - 1) as real * x
  {
    assert n as real == (n - 1) as real + 1.0;
  }

  /** x is the average of the window: missing exactly when a sample is, or when there is
      none; otherwise x times the number of samples is their total. */
  ghost predicate Averages(s: seq<Sample>, x: Sample) {
    && (x.Num? <==> s != [] && Measured(s))
    && (x.Num? ==> x.value * |s| as real == Total(s))
  }

  lemma MeanAverages(s: seq<Sample>)
    ensures Averages(s, Mean(s))
  {
    MeanIsNaN(s);
    if s != [] && Measured(s) {
      assert NaN !in s;
      SumIsTotal(s);
    }
  }

  /** An average lies between any bounds of the samples; so a constant window has that
      constant as its average. */
  lemma AverageBetween(s: seq<Sample>, x: Sample, low: real, high: real)
    requires Averages(s, x) && x.Num?
    requires forall i :: 0 <= i < |s| ==> low <= s[i].value <= high
    ensures low <= x.value <= high
  {
    TotalBounds(s, low, high);
    Scaled(|s|, low, x.value);
    Scaled(|s|, x.value, high);
  }

  lemma Scaled(n: nat, a: real, b: real)
    requires n > 0 && n as real * a <= n as real * b
    ensures a <= b
  {
  }
}
