/** Output waveform sources (src/source.rs).

    Samples and times are whole numbers; values and phases of the periodic waves
    are reals. The unit sine is a parameter `sinTurns` (x |-> sin(2 pi x)). */
module Sources {
  import opened Common

  datatype Wave = Sine | Triangle | Square

  datatype Point = Point(t: int, v: real)

  datatype SourceKind =
    | Constant(value: real)
    | Periodic(wave: Wave, offset: real, amplitude: real, period: real, phase: real, relPhase: bool)
    | AdvSquare(high: real, low: real, highSamples: nat, lowSamples: nat, sqPhase: int, sqRelPhase: bool)
    | Arb(arbPhase: int, startTime: int, values: seq<Point>, index: nat, repeatCount: int)

  // ---- remainders of reals ----

  function Trunc(q: real): int {
    if q >= 0.0 then q.Floor else -((-q).Floor)
  }

  /** The length of k periods. */
  function Turns(p: real, k: int): real {
    p * k as real
  }

  /** The remainder with the sign of the dividend. */
  function Fmod(x: real, p: real): real
    requires p != 0.0
  {
    x - Turns(p, Trunc(x / p))
  }

  /** The never-negative remainder. */
  function RemEuclid(x: real, p: real): real
    requires p > 0.0
  {
    x - Turns(p, (x / p).Floor)
  }

  /** Rounding half away from zero, for values that are not negative. */
  function Round(x: real): (n: int)
    requires x >= 0.0
    ensures n >= 0 && n as real - 0.5 <= x < n as real + 0.5
  {
    (x + 0.5).Floor
  }

  function Ceil(x: real): int {
    -((-x).Floor)
  }

  lemma ScaleUp(k: real, x: real, y: real)
    requires k > 0.0
    ensures x < y <==> k * x < k * y
    ensures x <= y <==> k * x <= k * y
  {
  }

  lemma TurnsDiffer(p: real, n: int, m: int)
    requires p > 0.0
    ensures Turns(p, n) - Turns(p, m) == p * (n - m) as real
    ensures n > m ==> Turns(p, n) - Turns(p, m) >= p
    ensures n <= m ==> Turns(p, n) <= Turns(p, m)
  {
    TurnsSum(p, n - m, m);
    TurnsCompare(p, 0.0, n - m);
    TurnsCompare(p, 1.0, n - m);
    if n > m {
      ScaleUp(p, 1.0, (n - m) as real);
    }
  }

  lemma TurnsSum(p: real, n: int, m: int)
    ensures Turns(p, n + m) == Turns(p, n) + Turns(p, m)
    ensures Turns(p, -n) == -Turns(p, n)
  {
    assert (n + m) as real == n as real + m as real;
    assert (-n) as real == -(n as real);
  }

  lemma RemEuclidRange(x: real, p: real)
    requires p > 0.0
    ensures 0.0 <= RemEuclid(x, p) < p
  {
    var q := x / p;
    Bracket(p, q, q.Floor);
    assert p * q == x;
  }

  /** k <= q < k + 1 turns, measured in samples. */
  lemma Bracket(p: real, q: real, k: int)
    requires p > 0.0 && k as real <= q < k as real + 1.0
    ensures Turns(p, k) <= p * q < Turns(p, k) + p
  {
    TurnsCompare(p, q, k);
    TurnsCompare(p, q, k + 1);
    TurnsSum(p, k, 1);
  }

  lemma TurnsCompare(p: real, q: real, k: int)
    requires p > 0.0
    ensures k as real <= q <==> Turns(p, k) <= p * q
  {
    ScaleUp(p, k as real, q);
  }

  lemma FmodRange(x: real, p: real)
    requires p > 0.0
    ensures -p < Fmod(x, p) < p
    ensures x >= 0.0 ==> 0.0 <= Fmod(x, p)
    ensures x <= 0.0 ==> Fmod(x, p) <= 0.0
  {
    var q := x / p;
    assert p * q == x;
    ScaleUp(p, 0.0, q);
    if q >= 0.0 {
      Bracket(p, q, q.Floor);
    } else {
      Bracket(p, -q, (-q).Floor);
      TurnsSum(p, (-q).Floor, 0);
    }
  }

  // ---- well-formed sources ----

  predicate InOrder(values: seq<Point>) {
    forall i, j :: 0 <= i <= j < |values| ==> values[i].t <= values[j].t
  }

  predicate ArbShape(values: seq<Point>, repeatCount: int) {
    && |values| > 0 && values[0].t == 0 && InOrder(values)
    && (values[|values| - 1].t == 0 ==> repeatCount == 1)
    && repeatCount != 0
  }

  function ArbPeriod(values: seq<Point>): int
    requires |values| > 0
  {
    values[|values| - 1].t
  }

  /** What the constructors establish, plus positive periods, which they do not check. */
  predicate WellFormed(k: SourceKind) {
    match k
    case Constant(_) => true
    case Periodic(_, _, _, period, _, _) => period > 0.0
    case AdvSquare(_, _, h, l, _, _) => h + l > 0
    case Arb(_, _, values, index, rc) => ArbShape(values, rc) && index < |values|
  }

  function MakeAdvSquare(high: real, low: real, highSamples: nat, lowSamples: nat, phase: int,
                         relPhase: bool): (r: Result<SourceKind>)
    ensures r.Ok? <==> highSamples > 0 || lowSamples > 0
    ensures r.Ok? ==>
              && WellFormed(r.value) && r.value.AdvSquare? && r.value.high == high && r.value.low == low
              && r.value.highSamples == highSamples && r.value.lowSamples == lowSamples && r.value.sqPhase == phase
              && r.value.sqRelPhase == relPhase
    ensures r.Err? ==> r.message == "Square wave must have nonzero period."
  {
    if highSamples + lowSamples == 0 then Err("Square wave must have nonzero period.")
    else Ok(AdvSquare(high, low, highSamples, lowSamples, phase, relPhase))
  }

  /** Validation of an arbitrary waveform: accepted exactly when there is a point,
      the first is at time zero, times never decrease, and a repeated wave has a
      nonzero period. A repeat count of zero means one pass. */
  method MakeArb(phase: int, values: seq<Point>, repeat: int) returns (r: Result<SourceKind>)
    ensures r.Ok? <==> (|values| > 0 && values[0].t == 0 && InOrder(values)
                        && (values[|values| - 1].t == 0 ==> repeat == 0 || repeat == 1))
    ensures r.Ok? ==> WellFormed(r.value)
                      && r.value == Arb(phase, 0, values, 0, if repeat == 0 then 1 else repeat)
    ensures r.Err? ==>
              r.message == if |values| == 0 then "Arb wave must have at least one point."
                           else if values[0].t != 0 then "Arb wave first point must have t=0."
                           else if !InOrder(values) then "Arb wave points must be in time order."
                           else "Arb wave with repeat must have nonzero period."
  {
    var repeatCount := if repeat == 0 then 1 else repeat;
    if |values| == 0 { return Err("Arb wave must have at least one point."); }
    if values[0].t != 0 { return Err("Arb wave first point must have t=0."); }
    var lastT := 0;
    for i := 0 to |values|
      invariant lastT == if i == 0 then 0 else values[i - 1].t
      invariant InOrder(values[..i])
    {
      if values[i].t < lastT {
        assert i > 0 && values[i].t < values[i - 1].t;
        return Err("Arb wave points must be in time order.");
      }
      lastT := values[i].t;
      assert forall j :: 0 <= j < i ==> values[..i][j].t <= values[..i][i - 1].t;
    }
    assert values[..|values|] == values;
    if ArbPeriod(values) == 0 && repeatCount != 1 {
      return Err("Arb wave with repeat must have nonzero period.");
    }
    return Ok(Arb(phase, 0, values, 0, repeatCount));
  }

  // ---- periodic waves ----

  function PeriodicValue(k: SourceKind, sample: nat, sinTurns: real -> real): real
    requires k.Periodic? && k.period > 0.0
  {
    var s := sample as real;
    match k.wave
    case Sine => sinTurns((s + k.phase) / k.period) * k.amplitude + k.offset
    case Triangle => TriangleShape(s + k.phase, k.period) * k.amplitude + k.offset
    case Square =>
      if Fmod(s + k.phase, k.period) < k.period / 2.0 then k.offset + k.amplitude else k.offset - k.amplitude
  }

  function Abs(x: real): real { if x < 0.0 then -x else x }

  /** The unit triangle, aligned with the sine: 0 at 0, 1 at a quarter period. */
  function TriangleShape(x: real, period: real): real
    requires period > 0.0
  {
    Abs(RemEuclid(x - period / 4.0, period) / period * 2.0 - 1.0) * 2.0 - 1.0
  }

  /** The triangle stays within offset +- amplitude at every sample and phase. */
  lemma TriangleInRange(k: SourceKind, sample: nat, sinTurns: real -> real)
    requires k.Periodic? && k.wave.Triangle? && k.period > 0.0
    ensures Abs(PeriodicValue(k, sample, sinTurns) - k.offset) <= Abs(k.amplitude)
  {
    var p := k.period;
    var m := RemEuclid(sample as real + k.phase - p / 4.0, p);
    RemEuclidRange(sample as real + k.phase - p / 4.0, p);
    FractionRange(m, p);
    var t := TriangleShape(sample as real + k.phase, p);
    assert -1.0 <= t <= 1.0;
    ShrinkBy(t, k.amplitude);
  }

  lemma FractionRange(m: real, p: real)
    requires 0.0 <= m < p
    ensures 0.0 <= m / p < 1.0
  {
    var f := m / p;
    assert p * f == m;
    ScaleUp(p, 0.0, f);
    ScaleUp(p, f, 1.0);
  }

  lemma NonNegative(x: real, y: real)
    requires x >= 0.0 && y >= 0.0
    ensures x * y >= 0.0
  {
  }

  lemma ShrinkBy(t: real, a: real)
    requires -1.0 <= t <= 1.0
    ensures Abs(t * a) <= Abs(a)
  {
    assert Abs(t * a) == Abs(t) * Abs(a);
    NonNegative(1.0 - Abs(t), Abs(a));
  }

  // ---- the advanced square wave ----

  function SquarePeriod(k: SourceKind): int
    requires k.AdvSquare?
  {
    k.highSamples + k.lowSamples
  }

  /** Position within the cycle of an advanced square wave; low samples come first. */
  function SquarePosition(k: SourceKind, sample: int): int
    requires k.AdvSquare? && WellFormed(k)
  {
    Residue(sample, k.sqPhase, SquarePeriod(k))
  }

  predicate IsHigh(k: SourceKind, sample: int)
    requires k.AdvSquare? && WellFormed(k)
  {
    !(SquarePosition(k, sample) < k.lowSamples)
  }

  /** A low-to-high transition of the waveform at `sample`. */
  predicate Rising(k: SourceKind, sample: int)
    requires k.AdvSquare? && WellFormed(k)
  {
    IsHigh(k, sample) && !IsHigh(k, sample - 1)
  }

  function SquareValue(k: SourceKind, sample: nat): real
    requires k.AdvSquare? && WellFormed(k)
  {
    if SquarePosition(k, sample) < k.lowSamples then k.low else k.high
  }

  lemma RisingPosition(k: SourceKind, n: int)
    requires k.AdvSquare? && WellFormed(k)
    ensures Rising(k, n) <==> k.lowSamples > 0 && k.highSamples > 0 && SquarePosition(k, n) == k.lowSamples
  {
    var per := SquarePeriod(k);
    var x := n + k.sqPhase;
    if x % per == 0 {
      assert (x / per - 1) * per == x / per * per - per;
      DivModUnique(x - 1, per, x / per - 1, per - 1);
    } else {
      DivModUnique(x - 1, per, x / per, x % per - 1);
    }
  }

  // ---- first sample at phase zero ----

  /** Position of sample n in a cycle of `per` samples shifted by `shift`. */
  function Residue(n: int, shift: int, per: int): int
    requires per > 0
  {
    (n + shift) % per
  }

  /** The next sample with the residue of `target`, as the source computes it. */
  function FirstAtResidue(s: int, shift: int, target: int, per: int): int
    requires per > 0
  {
    s + (per + target - Residue(s, shift, per)) % per
  }

  lemma FirstAtResidueLeast(s: int, shift: int, target: int, per: int)
    requires per > 0
    ensures var z := FirstAtResidue(s, shift, target, per);
            s <= z < s + per && Residue(z, shift, per) == target % per
            && forall n :: s <= n < z ==> Residue(n, shift, per) != target % per
  {
    var z := FirstAtResidue(s, shift, target, per);
    FirstAtResidueHits(s, shift, target, per);
    forall n | s <= n < z
      ensures Residue(n, shift, per) != target % per
    {
      SlotsDiffer(n + shift, z + shift, per);
    }
  }

  lemma FirstAtResidueHits(s: int, shift: int, target: int, per: int)
    requires per > 0
    ensures var z := FirstAtResidue(s, shift, target, per);
            s <= z < s + per && Residue(z, shift, per) == target % per
  {
    var q := (s + shift) / per;
    var y := per + target - Residue(s, shift, per);
    var k := 1 + q - y / per;
    assert k * per == per + q * per - y / per * per;
    assert s + y % per + shift == target + k * per;
    ModShift(target, k, per);
  }

  /** First (possibly fractional) sample at or after `sample` where the waveform is
      at phase zero; None stands for the non-finite result of a zero period. */
  function PhaseZeroAfter(k: SourceKind, sample: nat): Option<real>
    requires k.AdvSquare? || k.Arb? ==> WellFormed(k)
  {
    var s := sample as real;
    match k
    case Constant(_) => Some(s)
    case Periodic(wave, _, _, period, phase, _) =>
      if period == 0.0 then None
      else if wave.Square? then
        Some(s + Ceil(period - Fmod(s + phase, period)) as real)
      else
        Some(s + Fmod(period - Fmod(s + phase, period), period))
    case AdvSquare(_, _, _, low, phase, _) =>
      Some(FirstAtResidue(sample, phase, low, SquarePeriod(k)) as real)
    case Arb(phase, _, values, _, _) =>
      var per := ArbPeriod(values);
      if per == 0 then Some(s)
      else
        assert per > 0 by { assert values[0].t <= values[|values| - 1].t; }
        Some(FirstAtResidue(sample, -phase, 0, per) as real)
  }

  /** The trigger engine relies on this: a phase zero never lies in the past. */
  lemma PhaseZeroNotBefore(k: SourceKind, sample: nat)
    requires WellFormed(k)
    ensures PhaseZeroAfter(k, sample).Some? && PhaseZeroAfter(k, sample).value >= sample as real
  {
    match k
    case Constant(_) =>
    case Periodic(wave, _, _, period, phase, _) =>
      var m := Fmod(sample as real + phase, period);
      FmodRange(sample as real + phase, period);
      FmodRange(period - m, period);
    case AdvSquare(_, _, _, low, phase, _) =>
      FirstAtResidueLeast(sample, phase, low, SquarePeriod(k));
    case Arb(phase, _, values, _, _) =>
      var per := ArbPeriod(values);
      if per != 0 {
        assert values[0].t <= values[|values| - 1].t;
        FirstAtResidueLeast(sample, -phase, 0, per);
      }
  }

  /** For an advanced square wave with two real segments, phase zero is the first
      rising edge at or after the sample; with an empty segment no edge exists. */
  lemma SquarePhaseZeroIsFirstRise(k: SourceKind, sample: nat)
    requires k.AdvSquare? && WellFormed(k)
    ensures PhaseZeroAfter(k, sample) == Some(SquareZero(k, sample) as real) && SquareZero(k, sample) >= sample
    ensures k.highSamples > 0 && k.lowSamples > 0 ==>
              Rising(k, SquareZero(k, sample)) && forall n :: sample <= n < SquareZero(k, sample) ==> !Rising(k, n)
    ensures !(k.highSamples > 0 && k.lowSamples > 0) ==> forall n :: !Rising(k, n)
  {
    FirstAtResidueLeast(sample, k.sqPhase, k.lowSamples, SquarePeriod(k));
    forall n: int
      ensures Rising(k, n) <==> k.lowSamples > 0 && k.highSamples > 0 && SquarePosition(k, n) == k.lowSamples
    {
      RisingPosition(k, n);
    }
    if k.highSamples > 0 {
      DivModUnique(k.lowSamples, SquarePeriod(k), 0, k.lowSamples);
    }
  }

  function SquareZero(k: SourceKind, sample: nat): int
    requires k.AdvSquare? && WellFormed(k)
  {
    FirstAtResidue(sample, k.sqPhase, k.lowSamples, SquarePeriod(k))
  }

  ghost predicate WholeTurns(x: real, period: real) {
    exists k: int :: x == Turns(period, k)
  }

  /** For a sine or triangle, phase zero is the least real >= sample that completes
      a whole number of periods. */
  lemma SlidingPhaseZeroLeast(k: SourceKind, sample: nat, y: real)
    requires k.Periodic? && !k.wave.Square? && k.period > 0.0
    ensures WholeTurns(PhaseZeroAfter(k, sample).value + k.phase, k.period)
    ensures sample as real <= y < PhaseZeroAfter(k, sample).value ==> !WholeTurns(y + k.phase, k.period)
  {
    var s, p := sample as real, k.period;
    var x := s + k.phase;
    var m := Fmod(x, p);
    FmodRange(x, p);
    FmodRange(p - m, p);
    var z := s + Fmod(p - m, p);
    var n := SlidingTurns(x, p);
    assert z + k.phase == Turns(p, n);
    if s <= y < z && WholeTurns(y + k.phase, p) {
      var n' :| y + k.phase == Turns(p, n');
      TurnsDiffer(p, n, n');
    }
  }

  /** A periodic square jumps, so its phase zero is a whole sample: the first one at or
      after the next period boundary b. That boundary lies strictly after the queried
      sample, even when the sample is one itself, and none lies between them unless the
      phase puts the sample before time zero and off a boundary; then one does. */
  lemma SquareWavePhaseZero(k: SourceKind, sample: nat, y: real) returns (b: real, n: int)
    requires k.Periodic? && k.wave.Square? && k.period > 0.0
    ensures WholeTurns(b + k.phase, k.period) && sample as real < b
    ensures PhaseZeroAfter(k, sample) == Some(n as real) && n as real - 1.0 < b <= n as real
    ensures sample as real + k.phase >= 0.0 || WholeTurns(sample as real + k.phase, k.period) ==>
              sample as real < y < b ==> !WholeTurns(y + k.phase, k.period)
    ensures sample as real + k.phase < 0.0 && !WholeTurns(sample as real + k.phase, k.period) ==>
              sample as real < b - k.period && WholeTurns(b - k.period + k.phase, k.period)
  {
    var s, p := sample as real, k.period;
    var rest := p - Fmod(s + k.phase, p);
    FmodRange(s + k.phase, p);
    CeilBounds(rest);
    b, n := s + rest, sample + Ceil(rest);
    NextBoundary(s + k.phase, p, y + k.phase);
    assert b + k.phase == s + k.phase + rest;
    assert b - p + k.phase == s + k.phase - Fmod(s + k.phase, p);
  }

  lemma CeilBounds(x: real)
    ensures x <= Ceil(x) as real < x + 1.0
  {
  }

  lemma NextBoundary(x: real, p: real, y: real)
    requires p > 0.0
    ensures WholeTurns(x + (p - Fmod(x, p)), p)
    ensures (x >= 0.0 || WholeTurns(x, p)) && x < y < x + (p - Fmod(x, p)) ==> !WholeTurns(y, p)
    ensures x < 0.0 && !WholeTurns(x, p) ==> Fmod(x, p) < 0.0
    ensures WholeTurns(x - Fmod(x, p), p)
  {
    var m, t := Fmod(x, p), Trunc(x / p);
    FmodRange(x, p);
    hide Fmod;
    TurnsSum(p, t, 1);
    assert m == x - Turns(p, t) by { FmodIs(x, p); }
    assert x + (p - m) == Turns(p, t + 1);
    assert x - m == Turns(p, t);
    if x < 0.0 && WholeTurns(x, p) {
      var n :| x == Turns(p, n);
      TurnsDiffer(p, t, n);
      TurnsDiffer(p, n, t);
    }
    if (x >= 0.0 || WholeTurns(x, p)) && x < y < x + (p - m) && WholeTurns(y, p) {
      var n :| y == Turns(p, n);
      TurnsDiffer(p, n, t);
      TurnsDiffer(p, t + 1, n);
    }
  }

  lemma FmodIs(x: real, p: real)
    requires p != 0.0
    ensures Fmod(x, p) == x - Turns(p, Trunc(x / p))
  {
  }

  lemma SlidingTurns(x: real, p: real) returns (n: int)
    requires p > 0.0
    ensures x + Fmod(p - Fmod(x, p), p) == Turns(p, n)
  {
    var t, u := Trunc(x / p), Trunc((p - Fmod(x, p)) / p);
    n := t + 1 - u;
    TurnsSum(p, t + 1, -u);
    TurnsSum(p, u, 0);
    TurnsSum(p, t, 1);
  }

  // ---- reference meaning of an arbitrary waveform ----

  /** The last point at or before time r. */
  function SegmentAt(values: seq<Point>, r: int): (i: nat)
    requires |values| > 0 && values[0].t == 0 && InOrder(values) && r >= 0
    ensures i < |values| && values[i].t <= r
    ensures forall j :: i < j < |values| ==> r < values[j].t
  {
    if |values| == 1 || values[|values| - 1].t <= r then |values| - 1
    else SegmentAt(values[..|values| - 1], r)
  }

  /** Piecewise-linear interpolation, holding the last value. */
  function Interpolate(values: seq<Point>, r: int): real
    requires |values| > 0 && values[0].t == 0 && InOrder(values) && r >= 0
  {
    var i := SegmentAt(values, r);
    if i == |values| - 1 then values[i].v else Between(values[i], values[i + 1], r)
  }

  /** Trapezoidal interpolation between two points. */
  function Between(a: Point, b: Point, r: int): real
    requires a.t < b.t
  {
    var p := (r - a.t) as real / (b.t - a.t) as real;
    (1.0 - p) * a.v + p * b.v
  }

  /** Passes before the last value is held; None for an endless repeat. */
  function Passes(repeatCount: int): Option<nat> {
    if repeatCount == -1 then None else if repeatCount > 1 then Some(repeatCount) else Some(1)
  }

  /** Time within the current pass at relative time `rel`. */
  function PassTime(values: seq<Point>, repeatCount: int, rel: int): (r: int)
    requires ArbShape(values, repeatCount) && rel >= 0
    ensures r >= 0
  {
    var per := ArbPeriod(values);
    assert per >= 0 by { assert values[0].t <= values[|values| - 1].t; }
    if per == 0 then rel
    else match Passes(repeatCount)
      case None => rel % per
      case Some(n) =>
        var k := Min(rel / per, n - 1);
        assert k * per <= rel by { Monotone(k, rel / per, per); }
        rel - k * per
  }

  /** The waveform as a function of the sample number alone. */
  function ArbValue(values: seq<Point>, start: int, repeatCount: int, sample: int): real
    requires ArbShape(values, repeatCount)
  {
    Interpolate(values, PassTime(values, repeatCount, Max(0, sample - start)))
  }

  /** Interpolation needs no search once a bracketing segment is known. */
  lemma SegmentIs(values: seq<Point>, r: int, i: nat)
    requires |values| > 0 && values[0].t == 0 && InOrder(values) && r >= 0
    requires i < |values| && values[i].t <= r && (i + 1 < |values| ==> r < values[i + 1].t)
    ensures SegmentAt(values, r) == i
  {
    var j := SegmentAt(values, r);
  }

  /** Where the walker stands: `k` passes done, looking at point `index`. */
  ghost predicate Walk(values: seq<Point>, start0: int, repeat0: int, startTime: int, index: nat, repeatCount: int,
                       k: nat) {
    && ArbShape(values, repeat0) && index < |values|
    && startTime == start0 + k * ArbPeriod(values)
    && (match Passes(repeat0)
        case None => repeatCount == -1
        case Some(n) => k < n && repeatCount == if n == 1 then repeat0 else n - k)
  }

  /** Stopping inside a segment, or at the last point with no pass left, means the
      walker's time is the reference time within the pass. */
  lemma PassTimeIs(values: seq<Point>, repeat0: int, rel: int, k: nat)
    requires ArbShape(values, repeat0) && rel >= k * ArbPeriod(values)
    requires match Passes(repeat0)
             case None => rel - k * ArbPeriod(values) < ArbPeriod(values)
             case Some(n) => k < n && (rel - k * ArbPeriod(values) < ArbPeriod(values) || k == n - 1)
    ensures PassTime(values, repeat0, rel) == rel - k * ArbPeriod(values)
  {
    var per := ArbPeriod(values);
    assert values[0].t <= values[|values| - 1].t;
    if per > 0 {
      if rel - k * per < per {
        DivModUnique(rel, per, k, rel - k * per);
      } else if rel / per < k {
        assert (rel / per + 1) * per == rel / per * per + per;
        Monotone(rel / per + 1, k, per);
      }
    }
  }

  ghost predicate SameTurn(a: real, b: real) {
    WholeTurns(a - b, 1.0)
  }

  /** A walk that can neither advance nor wrap has reached the reference segment. */
  lemma WalkEnds(values: seq<Point>, start0: int, repeat0: int, startTime: int, index: nat, repeatCount: int, k: nat,
                 query: int)
    requires Walk(values, start0, repeat0, startTime, index, repeatCount, k)
    requires k > 0 ==> startTime <= query
    requires values[index].t <= Max(0, query - startTime)
    requires if index + 1 < |values| then Max(0, query - startTime) < values[index + 1].t
             else !(repeatCount > 1 || repeatCount == -1)
    ensures ArbValue(values, start0, repeat0, query) ==
            if index + 1 == |values| then values[index].v
            else Between(values[index], values[index + 1], Max(0, query - startTime))
  {
    var per := ArbPeriod(values);
    assert values[0].t <= values[|values| - 1].t;
    if index + 1 < |values| {
      assert values[index + 1].t <= values[|values| - 1].t;
    }
    if k > 0 {
      Monotone(0, k, per);
    }
    PassTimeIs(values, repeat0, Max(0, query - start0), k);
    SegmentIs(values, Max(0, query - startTime), index);
  }

  /** At the last point of a pass that is to be repeated, the walk wraps. */
  lemma WalkWraps(values: seq<Point>, start0: int, repeat0: int, startTime: int, index: nat, repeatCount: int, k: nat)
    requires Walk(values, start0, repeat0, startTime, index, repeatCount, k)
    requires index + 1 == |values| && (repeatCount > 1 || repeatCount == -1)
    ensures ArbPeriod(values) > 0
    ensures Walk(values, start0, repeat0, startTime + ArbPeriod(values), 0,
                 if repeatCount > 0 then repeatCount - 1 else repeatCount, k + 1)
  {
    assert values[0].t <= values[|values| - 1].t;
    Distribute3(k, ArbPeriod(values));
  }

  lemma Distribute3(k: int, p: int)
    ensures (k + 1) * p == k * p + p
  {
  }

  /** The walking loop: move to the next point when its time is reached, start over
      from the first after the last while passes remain. */
  method WalkFrom(values: seq<Point>, ghost start0: int, ghost repeat0: int,
                  startTime0: int, index0: nat, repeatCount0: int, ghost k0: nat, query: nat)
    returns (startTime: int, index: nat, repeatCount: int, ghost k: nat, v: real)
    requires Walk(values, start0, repeat0, startTime0, index0, repeatCount0, k0)
    requires values[index0].t <= Max(0, query - startTime0) && (k0 > 0 ==> startTime0 <= query)
    ensures Walk(values, start0, repeat0, startTime, index, repeatCount, k)
    ensures values[index].t <= Max(0, query - startTime) && (k > 0 ==> startTime <= query)
    ensures v == ArbValue(values, start0, repeat0, query)
  {
    startTime, index, repeatCount, k := startTime0, index0, repeatCount0, k0;
    var sample := if query < startTime then 0 else query - startTime;
    while true
      invariant Walk(values, start0, repeat0, startTime, index, repeatCount, k)
      invariant sample == Max(0, query - startTime) && values[index].t <= sample
      invariant k > 0 ==> startTime <= query
      decreases sample, |values| - index
    {
      var t1, v1 := values[index].t, values[index].v;
      var next := index + 1;
      if next >= |values| {
        if repeatCount > 1 || repeatCount == -1 {
          WalkWraps(values, start0, repeat0, startTime, index, repeatCount, k);
          repeatCount := if repeatCount > 0 then repeatCount - 1 else repeatCount;
          index := 0;
          startTime := startTime + t1;
          sample := sample - t1;
          k := k + 1;
          continue;
        }
        WalkEnds(values, start0, repeat0, startTime, index, repeatCount, k, query);
        v := v1;
        return;
      }
      if sample >= values[next].t {
        index := next;
        continue;
      }
      WalkEnds(values, start0, repeat0, startTime, index, repeatCount, k, query);
      if sample < t1 {
        assert false;
      }
      v := Between(values[index], values[next], sample);
      return;
    }
  }

  lemma SameTurnIntro(a: real, b: real, n: int)
    requires a == b + n as real
    ensures SameTurn(a, b)
  {
    assert a - b == Turns(1.0, n);
  }

  /** The start lies in the same whole period of samples as `sample`, as far into it as the
      phase lies into its own. */
  predicate StartsPass(values: seq<Point>, phase: int, sample: nat, start: int)
    requires |values| > 0
  {
    var per := ArbPeriod(values);
    per > 0 && start / per == sample / per && start % per == phase % per
  }

  lemma SamePeriod(sample: nat, phase: int, per: int)
    requires per > 0
    ensures var start := sample - sample % per + phase % per;
            start / per == sample / per && start % per == phase % per
  {
    DivModUnique(sample - sample % per + phase % per, per, sample / per, phase % per);
  }

  /** A configured output: the waveform and when it took effect. */
  class OutputSource {
    var mode: nat
    var startSample: nat
    var effective: bool
    var kind: SourceKind

    /** the waveform an arb walker stands for, and how far it has walked */
    ghost var start0: int
    ghost var repeat0: int
    ghost var passesDone: nat
    ghost var lastQuery: int

    ghost predicate Valid()
      reads this
    {
      && WellFormed(kind)
      && (kind.Arb? ==>
            && Walk(kind.values, start0, repeat0, kind.startTime, kind.index, kind.repeatCount, passesDone)
            && kind.values[kind.index].t <= Max(0, lastQuery - kind.startTime)
            && (passesDone > 0 ==> kind.startTime <= lastQuery))
    }

    /** Not yet evaluated: what every constructor returns. */
    ghost predicate Fresh()
      reads this
    {
      Valid() && (kind.Arb? ==> passesDone == 0 && kind.index == 0)
    }

    /** An endless arbitrary waveform begins its passes at the samples congruent to its
        phase: what initialization establishes and evaluation keeps. */
    ghost predicate Aligned()
      reads this
    {
      Valid() && (kind.Arb? && kind.repeatCount == -1 ==>
                    ArbPeriod(kind.values) > 0 && Residue(start0, -kind.arbPhase, ArbPeriod(kind.values)) == 0)
    }

    constructor (mode: nat, kind: SourceKind)
      requires WellFormed(kind) && (kind.Arb? ==> kind.index == 0)
      ensures Fresh() && this.mode == mode && this.kind == kind && !effective && startSample == 0 && lastQuery == 0
    {
      this.mode, this.kind, startSample, effective := mode, kind, 0, false;
      start0 := if kind.Arb? then kind.startTime else 0;
      repeat0 := if kind.Arb? then kind.repeatCount else 0;
      passesDone, lastQuery := 0, 0;
    }

    /** The waveform as a function of the sample number alone. */
    ghost function ValueAt(sample: nat, sinTurns: real -> real): real
      requires Valid()
      reads this
    {
      match kind
      case Constant(v) => v
      case Periodic(_, _, _, _, _, _) => PeriodicValue(kind, sample, sinTurns)
      case AdvSquare(_, _, _, _, _, _) => SquareValue(kind, sample)
      case Arb(_, _, values, _, _) => ArbValue(values, start0, repeat0, sample)
    }

    /** Evaluate at `sample`. Queries must not go back in time; then every result is
        the reference waveform, which evaluation never changes. */
    method GetValue(sample: nat, sinTurns: real -> real) returns (v: real)
      requires Valid() && lastQuery <= sample
      modifies this`kind, this`passesDone, this`lastQuery
      ensures Valid() && lastQuery == sample && (old(Aligned()) ==> Aligned())
      ensures v == old(ValueAt(sample, sinTurns))
      ensures old(kind).Constant? ==> v == old(kind).value
      ensures old(kind).AdvSquare? ==>
                v == if (sample + old(kind).sqPhase) % (old(kind).highSamples + old(kind).lowSamples)
                        < old(kind).lowSamples then old(kind).low else old(kind).high
      ensures forall n: nat, f: real -> real :: ValueAt(n, f) == old(ValueAt(n, f))
      ensures kind == if old(kind).Arb? && kind.Arb?
                      then old(kind).(startTime := kind.startTime, index := kind.index, repeatCount := kind.repeatCount)
                      else old(kind)
    {
      match kind
      case Constant(value) =>
        v := value;
        lastQuery := sample;
      case Periodic(_, _, _, _, _, _) =>
        v := PeriodicValue(kind, sample, sinTurns);
        lastQuery := sample;
      case AdvSquare(_, _, _, _, _, _) =>
        v := SquareValue(kind, sample);
        lastQuery := sample;
      case Arb(_, _, _, _, _) =>
        v := WalkTo(sample);
    }

    /** The forward walk over the points of an arbitrary waveform. */
    method WalkTo(query: nat) returns (v: real)
      requires Valid() && kind.Arb? && lastQuery <= query
      modifies this`kind, this`passesDone, this`lastQuery
      ensures Valid() && kind.Arb? && lastQuery == query && (kind.repeatCount == -1 <==> old(kind).repeatCount == -1)
      ensures kind == old(kind).(startTime := kind.startTime, index := kind.index, repeatCount := kind.repeatCount)
      ensures v == ArbValue(kind.values, start0, repeat0, query)
    {
      var startTime, index, repeatCount;
      ghost var k;
      startTime, index, repeatCount, k, v :=
        WalkFrom(kind.values, start0, repeat0, kind.startTime, kind.index, kind.repeatCount, passesDone, query);
      kind := kind.(startTime := startTime, index := index, repeatCount := repeatCount);
      passesDone, lastQuery := k, query;
    }

    /** Phase adjustment when this source replaces `prev` at output sample `sample`. */
    method Initialize(sample: nat, prev: OutputSource?)
      requires Fresh() && prev != this && (prev != null ==> prev.Valid())
      modifies this`kind, this`start0
      ensures Fresh() && Aligned()
      ensures old(kind).Constant? ==> kind == old(kind)
      ensures old(kind).Periodic? ==>
                kind.Periodic? && kind == old(kind).(phase := kind.phase) && -kind.period < kind.phase < kind.period
                && if kind.relPhase && prev != null && prev.kind.Periodic?
                   then SameTurn((sample as real + kind.phase) / kind.period,
                                 old(kind).phase / kind.period + (sample as real + prev.kind.phase) / prev.kind.period)
                   else SameTurn(kind.phase / kind.period, old(kind).phase / kind.period)
      ensures old(kind).AdvSquare? ==>
                kind.AdvSquare? && kind == old(kind).(sqPhase := kind.sqPhase) && 0 <= kind.sqPhase < SquarePeriod(kind)
                && if kind.sqRelPhase && prev != null && prev.kind.AdvSquare?
                   then SquarePosition(kind, sample)
                        == (old(kind).sqPhase + CarriedPosition(prev.kind, SquarePeriod(kind), sample))
                           % SquarePeriod(kind)
                   else SquarePosition(kind, sample) == SquarePosition(old(kind), sample)
      ensures old(kind).Arb? ==>
                kind.Arb? && kind == old(kind).(startTime := start0, arbPhase := kind.arbPhase)
                && repeat0 == kind.repeatCount
                && (if old(kind).arbPhase < 0 then kind.arbPhase == sample && start0 == sample
                    else kind.arbPhase == old(kind).arbPhase
                         && if kind.repeatCount == 1 then start0 == kind.arbPhase
                            else StartsPass(kind.values, kind.arbPhase, sample, start0))
    {
      match kind
      case Constant(_) =>
      case Periodic(_, _, _, _, _, _) => InitializePeriodic(sample, prev);
      case AdvSquare(_, _, _, _, _, _) => InitializeSquare(sample, prev);
      case Arb(_, _, _, _, _) => InitializeArb(sample);
    }

    method InitializePeriodic(sample: nat, prev: OutputSource?)
      requires Fresh() && kind.Periodic? && prev != this && (prev != null ==> prev.Valid())
      modifies this`kind
      ensures Fresh() && kind.Periodic?
      ensures kind == old(kind).(phase := kind.phase) && -kind.period < kind.phase < kind.period
      ensures if kind.relPhase && prev != null && prev.kind.Periodic?
              then SameTurn((sample as real + kind.phase) / kind.period,
                            old(kind).phase / kind.period + (sample as real + prev.kind.phase) / prev.kind.period)
              else SameTurn(kind.phase / kind.period, old(kind).phase / kind.period)
    {
      var phase := HandOverPhase(kind, sample, if prev == null then None else Some(prev.kind));
      kind := kind.(phase := phase);
    }

    static method HandOverPhase(kind: SourceKind, sample: nat, prev: Option<SourceKind>) returns (phase: real)
      requires kind.Periodic? && WellFormed(kind) && (prev.Some? ==> WellFormed(prev.value))
      ensures -kind.period < phase < kind.period
      ensures if kind.relPhase && prev.Some? && prev.value.Periodic?
              then SameTurn((sample as real + phase) / kind.period,
                            kind.phase / kind.period + (sample as real + prev.value.phase) / prev.value.period)
              else SameTurn(phase / kind.period, kind.phase / kind.period)
    {
      phase := kind.phase;
      if kind.relPhase && prev.Some? && prev.value.Periodic? {
        phase := CarriedPhase(sample as real, phase, kind.period, prev.value.phase, prev.value.period);
        CarryTurns(sample as real, kind.phase, kind.period, prev.value.phase, prev.value.period);
      } else {
        WrapTurns(phase, kind.period);
      }
      FmodRange(phase, kind.period);
      phase := Fmod(phase, kind.period);
    }

    method InitializeSquare(sample: nat, prev: OutputSource?)
      requires Fresh() && kind.AdvSquare? && prev != this && (prev != null ==> prev.Valid())
      modifies this`kind
      ensures Fresh() && kind.AdvSquare?
      ensures kind == old(kind).(sqPhase := kind.sqPhase) && 0 <= kind.sqPhase < SquarePeriod(kind)
      ensures if kind.sqRelPhase && prev != null && prev.kind.AdvSquare?
              then SquarePosition(kind, sample)
                   == (old(kind).sqPhase + CarriedPosition(prev.kind, SquarePeriod(kind), sample)) % SquarePeriod(kind)
              else SquarePosition(kind, sample) == SquarePosition(old(kind), sample)
    {
      var period, phase := SquarePeriod(kind), kind.sqPhase;
      if kind.sqRelPhase && prev != null && prev.kind.AdvSquare? {
        SquareHandOver(sample, phase, CarriedPosition(prev.kind, period, sample), period);
        phase := phase + CarriedPosition(prev.kind, period, sample) - sample % period;
      } else {
        SquareKept(sample, phase, period);
      }
      kind := kind.(sqPhase := phase % period);
    }

    method InitializeArb(sample: nat)
      requires Fresh() && kind.Arb?
      modifies this`kind, this`start0
      ensures Fresh() && Aligned() && kind.Arb?
      ensures kind == old(kind).(startTime := start0, arbPhase := kind.arbPhase)
      ensures if old(kind).arbPhase < 0 then kind.arbPhase == sample && start0 == sample
              else kind.arbPhase == old(kind).arbPhase
                   && if kind.repeatCount == 1 then start0 == kind.arbPhase
                      else StartsPass(kind.values, kind.arbPhase, sample, start0)
    {
      var phase := kind.arbPhase;
      if phase < 0 {
        kind := kind.(startTime := sample, arbPhase := sample);
      } else if kind.repeatCount != 1 {
        var per := ArbPeriod(kind.values);
        assert per > 0 by { assert kind.values[0].t <= kind.values[|kind.values| - 1].t; }
        var start := sample - sample % per + phase % per;
        AlignedStart(sample, phase, per);
        SamePeriod(sample, phase, per);
        kind := kind.(startTime := start);
      } else {
        kind := kind.(startTime := phase);
      }
      start0 := kind.startTime;
    }
  }

  lemma Distribute2(a: int, b: int, n: int)
    ensures (a - b) * n == a * n - b * n
  {
  }

  lemma AlignedStart(sample: nat, phase: int, per: int)
    requires per > 0 && phase >= 0
    ensures Residue(sample - sample % per + phase % per, -phase, per) == 0
  {
    var a, b := sample / per, phase / per;
    Distribute2(a, b, per);
    assert sample - sample % per == a * per && phase % per - phase == -(b * per);
    ModShift(0, a - b, per);
  }

  lemma SquareKept(sample: nat, phase: int, period: int)
    requires period > 0
    ensures Residue(sample, phase % period, period) == Residue(sample, phase, period)
  {
    var q := phase / period;
    assert sample + phase == sample + phase % period + q * period;
    ModShift(sample + phase % period, q, period);
  }

  /** The previous square wave's position scaled to a new period, rounded to samples. */
  function CarriedPosition(prev: SourceKind, period: int, sample: nat): (r: int)
    requires prev.AdvSquare? && WellFormed(prev) && period > 0
  {
    var f := SquarePosition(prev, sample) as real / SquarePeriod(prev) as real;
    NonNegative(f, period as real);
    Round(f * period as real)
  }

  /** The carried position keeps the phase fraction to within half a sample, and
      exactly when the periods are equal. */
  lemma CarriedPositionKeepsFraction(prev: SourceKind, period: int, sample: nat)
    requires prev.AdvSquare? && WellFormed(prev) && period > 0
    ensures var exact := SquarePosition(prev, sample) as real / SquarePeriod(prev) as real * period as real;
            exact - 0.5 <= CarriedPosition(prev, period, sample) as real <= exact + 0.5
    ensures period == SquarePeriod(prev) ==> CarriedPosition(prev, period, sample) == SquarePosition(prev, sample)
  {
    var pos, per := SquarePosition(prev, sample) as real, SquarePeriod(prev) as real;
    NonNegative(pos / per, period as real);
    if period == SquarePeriod(prev) {
      assert pos / per * per == pos;
    }
  }

  /** Choosing phase' = phase + position - sample % period puts `sample` at
      phase + position. */
  lemma SquareHandOver(sample: nat, phase: int, position: int, period: int)
    requires period > 0
    ensures Residue(sample, (phase + position - sample % period) % period, period) == (phase + position) % period
  {
    var raw := phase + position - sample % period;
    var a, b := sample / period, raw / period;
    Distribute2(a, b, period);
    assert sample - sample % period == a * period && raw % period == raw - b * period;
    ModShift(phase + position, a - b, period);
  }

  lemma WrapTurns(phase: real, period: real)
    requires period > 0.0
    ensures SameTurn(Fmod(phase, period) / period, phase / period)
  {
    var t := Trunc(phase / period);
    DivideTurns(phase, period, t);
    SameTurnIntro(Fmod(phase, period) / period, phase / period, -t);
  }

  lemma DivideTurns(x: real, period: real, t: int)
    requires period > 0.0
    ensures (x - Turns(period, t)) / period == x / period - t as real
  {
    var q := x / period;
    assert q * period == x;
    assert (q - t as real) * period == x - Turns(period, t);
  }

  /** The phase given to a periodic source that continues a previous one. */
  function CarriedPhase(s: real, phase: real, period: real, prevPhase: real, prevPeriod: real): real
    requires period > 0.0 && prevPeriod > 0.0
  {
    phase + Fmod(s + prevPhase, prevPeriod) / prevPeriod * period - s
  }

  lemma CarryTurns(s: real, phase: real, period: real, prevPhase: real, prevPeriod: real)
    requires period > 0.0 && prevPeriod > 0.0
    ensures SameTurn((s + Fmod(CarriedPhase(s, phase, period, prevPhase, prevPeriod), period)) / period,
                     phase / period + (s + prevPhase) / prevPeriod)
  {
    var x := s + prevPhase;
    var t := Trunc(x / prevPeriod);
    var g := Fmod(x, prevPeriod) / prevPeriod;
    DivideTurns(x, prevPeriod, t);
    var y := phase + g * period;
    assert CarriedPhase(s, phase, period, prevPhase, prevPeriod) == y - s;
    var u := AlignTurns(s, y, period);
    SplitFraction(phase, g, period);
    var a, b := (s + Fmod(y - s, period)) / period, phase / period + x / prevPeriod;
    assert a == phase / period + g - u as real;
    assert g == x / prevPeriod - t as real;
    SameTurnIntro(a, b, -t - u);
  }

  lemma AlignTurns(s: real, y: real, period: real) returns (u: int)
    requires period > 0.0
    ensures (s + Fmod(y - s, period)) / period == y / period - u as real
  {
    u := Trunc((y - s) / period);
    DivideTurns(y, period, u);
  }

  lemma SplitFraction(a: real, g: real, period: real)
    requires period > 0.0
    ensures (a + g * period) / period == a / period + g
  {
    var q := a / period;
    assert q * period == a;
    assert (q + g) * period == a + g * period;
  }

  /** For an endless arbitrary waveform aligned to its phase, phase zero is the first
      sample at or after `sample` congruent to the phase, and from the start time on the
      waveform is at the beginning of a pass exactly there. */
  lemma PhaseZeroStartsPass(k: SourceKind, sample: nat, n: int)
    requires k.Arb? && WellFormed(k) && k.repeatCount == -1
    requires Residue(k.startTime, -k.arbPhase, ArbPeriod(k.values)) == 0
    ensures var z := FirstAtResidue(sample, -k.arbPhase, 0, ArbPeriod(k.values));
            PhaseZeroAfter(k, sample) == Some(z as real) && z >= sample
            && (n >= k.startTime && sample <= n < z ==> PassTime(k.values, -1, n - k.startTime) != 0)
            && (z >= k.startTime ==> PassTime(k.values, -1, z - k.startTime) == 0)
  {
    var per := ArbPeriod(k.values);
    assert k.values[0].t <= k.values[|k.values| - 1].t;
    FirstAtResidueLeast(sample, -k.arbPhase, 0, per);
    PassStart(k, FirstAtResidue(sample, -k.arbPhase, 0, per));
    PassStart(k, n);
  }

  lemma PassStart(k: SourceKind, n: int)
    requires k.Arb? && WellFormed(k) && k.repeatCount == -1 && ArbPeriod(k.values) > 0
    requires Residue(k.startTime, -k.arbPhase, ArbPeriod(k.values)) == 0
    ensures n >= k.startTime ==>
              (PassTime(k.values, -1, n - k.startTime) == 0 <==> Residue(n, -k.arbPhase, ArbPeriod(k.values)) == 0)
  {
    ModEqual(n - k.arbPhase, k.startTime - k.arbPhase, ArbPeriod(k.values));
  }

  /** After initialization, however often it has been evaluated since, an endless arbitrary
      waveform is at phase zero at the first sample at or after `sample` at which a pass
      of its values begins: there it has the value of the beginning of a pass. */
  lemma ArbPhaseZeroIsPassStart(s: OutputSource, sample: nat, n: nat, sinTurns: real -> real) returns (z: nat)
    requires s.Aligned() && s.kind.Arb? && s.kind.repeatCount == -1
    ensures PhaseZeroAfter(s.kind, sample) == Some(z as real) && z >= sample
    ensures s.start0 <= n && sample <= n < z ==> PassTime(s.kind.values, s.repeat0, n - s.start0) != 0
    ensures s.start0 <= z ==>
              && PassTime(s.kind.values, s.repeat0, z - s.start0) == 0
              && s.ValueAt(z, sinTurns) == Interpolate(s.kind.values, 0)
  {
    var k := s.kind.(startTime := s.start0);
    FirstAtResidueLeast(sample, -k.arbPhase, 0, ArbPeriod(k.values));
    PhaseZeroStartsPass(k, sample, n);
    z := FirstAtResidue(sample, -k.arbPhase, 0, ArbPeriod(k.values));
  }

  // ---- the waveforms in their own terms ----

  /** For an advanced square wave with two segments of different values, phase zero is the
      first sample at or after the query at which the value turns from low to high. */
  lemma SquareZeroTurnsHigh(s: OutputSource, sample: nat, f: real -> real) returns (z: nat)
    requires s.Valid() && s.kind.AdvSquare? && s.kind.low != s.kind.high
    requires s.kind.highSamples > 0 && s.kind.lowSamples > 0
    ensures PhaseZeroAfter(s.kind, sample) == Some(z as real) && z >= sample
    ensures s.ValueAt(z, f) == s.kind.high && (z > 0 ==> s.ValueAt(z - 1, f) == s.kind.low)
    ensures forall n: nat :: sample <= n < z && n > 0 ==>
              !(s.ValueAt(n, f) == s.kind.high && s.ValueAt(n - 1, f) == s.kind.low)
  {
    SquarePhaseZeroIsFirstRise(s.kind, sample);
    z := SquareZero(s.kind, sample);
    forall n: nat | sample <= n < z && n > 0
      ensures !(s.ValueAt(n, f) == s.kind.high && s.ValueAt(n - 1, f) == s.kind.low)
    {
      assert !Rising(s.kind, n);
    }
  }

  /** Up to its start an arbitrary waveform has the value it starts with. */
  lemma HeldBeforeStart(s: OutputSource, n: nat, f: real -> real)
    requires s.Valid() && s.kind.Arb? && n <= s.start0
    ensures s.ValueAt(n, f) == Interpolate(s.kind.values, 0)
  {
    assert s.kind.values[0].t <= s.kind.values[|s.kind.values| - 1].t;
    var per := ArbPeriod(s.kind.values);
    if per > 0 {
      DivModUnique(0, per, 0, 0);
    }
  }

  /** An arbitrary waveform on the straight line between its points, and its last value
      from the last point on. */
  lemma InterpolateExact(values: seq<Point>, r: int, i: nat)
    requires |values| > 0 && values[0].t == 0 && InOrder(values) && i < |values| && 0 <= values[i].t <= r
    ensures i == |values| - 1 ==> Interpolate(values, r) == values[i].v
    ensures i + 1 < |values| && r < values[i + 1].t ==>
              var a, b := values[i], values[i + 1];
              && Interpolate(values, r) * (b.t - a.t) as real == (b.t - r) as real * a.v + (r - a.t) as real * b.v
              && (r == a.t ==> Interpolate(values, r) == a.v)
              && (a.v <= Interpolate(values, r) <= b.v || b.v <= Interpolate(values, r) <= a.v)
  {
    if i == |values| - 1 {
      SegmentIs(values, r, i);
    } else if r < values[i + 1].t {
      SegmentIs(values, r, i);
      OnLine(values[i], values[i + 1], r);
    }
  }

  lemma OnLine(a: Point, b: Point, r: int)
    requires a.t <= r < b.t
    ensures Between(a, b, r) * (b.t - a.t) as real == (b.t - r) as real * a.v + (r - a.t) as real * b.v
    ensures r == a.t ==> Between(a, b, r) == a.v
    ensures a.v <= Between(a, b, r) <= b.v || b.v <= Between(a, b, r) <= a.v
  {
    var d, p := (b.t - a.t) as real, (r - a.t) as real / (b.t - a.t) as real;
    assert p * d == (r - a.t) as real;
    assert (1.0 - p) * d == d - p * d;
    assert ((1.0 - p) * a.v + p * b.v) * d == (1.0 - p) * d * a.v + p * d * b.v;
    ScaleUp(d, 0.0, p);
    ScaleUp(d, p, 1.0);
    Mixed(p, a.v, b.v);
  }

  lemma Mixed(p: real, x: real, y: real)
    requires 0.0 <= p <= 1.0
    ensures x <= (1.0 - p) * x + p * y <= y || y <= (1.0 - p) * x + p * y <= x
  {
    assert (1.0 - p) * x + p * y == x + p * (y - x);
    if x <= y {
      NonNegative(p, y - x);
      NonNegative(1.0 - p, y - x);
    } else {
      NonNegative(p, x - y);
      NonNegative(1.0 - p, x - y);
    }
  }

  /** A periodic wave `rem` into its period: the sine of the turns made, a triangle that
      rises from 0 to its amplitude in a quarter, a square that is high in the first half. */
  lemma PeriodicExact(k: SourceKind, sample: nat, turns: int, rem: real, t: real, sinTurns: real -> real)
    requires k.Periodic? && k.period > 0.0 && 0.0 <= rem < k.period
    requires sample as real + k.phase == Turns(k.period, turns) + rem
    ensures var v := PeriodicValue(k, sample, sinTurns);
            var p := k.period;
            match k.wave
            case Sine => t * p == sample as real + k.phase ==> v == k.offset + k.amplitude * sinTurns(t)
            case Triangle =>
              (v - k.offset) * p
              == k.amplitude * if rem <= p / 4.0 then 4.0 * rem
                               else if rem <= 3.0 * p / 4.0 then 2.0 * p - 4.0 * rem
                               else 4.0 * rem - 4.0 * p
            case Square =>
              v == if turns < 0 || rem < p / 2.0 then k.offset + k.amplitude else k.offset - k.amplitude
  {
    var x, p := sample as real + k.phase, k.period;
    match k.wave
    case Sine =>
      if t * p == x {
        SameQuotient(t, x, p);
      }
    case Triangle =>
      TriangleExact(x, p, turns, rem);
      TriangleScaled(TriangleShape(x, p), k.amplitude, p);
    case Square =>
      WholeAndRest(x, p, turns, rem);
      if turns < 0 {
        TurnsCompare(p, -1.0, turns);
        FmodRange(x, p);
      }
  }

  lemma SameQuotient(t: real, x: real, p: real)
    requires p > 0.0 && t * p == x
    ensures t == x / p
  {
  }

  lemma TriangleScaled(t: real, a: real, p: real)
    ensures (t * a) * p == a * (t * p)
  {
  }

  lemma WholeAndRest(x: real, p: real, turns: int, rem: real)
    requires p > 0.0 && 0.0 <= rem < p && x == Turns(p, turns) + rem
    ensures (x / p).Floor == turns && RemEuclid(x, p) == rem
    ensures turns >= 0 ==> Fmod(x, p) == rem
  {
    var q := x / p;
    assert p * q == x;
    TurnsSum(p, turns, 1);
    TurnsCompare(p, q, turns);
    TurnsCompare(p, q, turns + 1);
    if turns >= 0 {
      ScaleUp(p, 0.0, turns as real);
      ScaleUp(p, 0.0, q);
    }
  }

  lemma TriangleExact(x: real, p: real, turns: int, rem: real)
    requires p > 0.0 && 0.0 <= rem < p && x == Turns(p, turns) + rem
    ensures TriangleShape(x, p) * p ==
            if rem <= p / 4.0 then 4.0 * rem else if rem <= 3.0 * p / 4.0 then 2.0 * p - 4.0 * rem
            else 4.0 * rem - 4.0 * p
  {
    var y := x - p / 4.0;
    var m := if rem >= p / 4.0 then rem - p / 4.0 else rem + 3.0 * p / 4.0;
    TurnsSum(p, turns - 1, 1);
    hide Turns, RemEuclid, TriangleShape;
    assert Turns(p, 1) == p by { OneTurn(p); }
    WholeAndRest(y, p, if rem >= p / 4.0 then turns else turns - 1, m);
    ShapeIs(x, p, m);
    ShapeTimes(m, p);
  }

  lemma OneTurn(p: real)
    ensures Turns(p, 1) == p
  {
  }

  lemma ShapeIs(x: real, p: real, m: real)
    requires p > 0.0 && RemEuclid(x - p / 4.0, p) == m
    ensures TriangleShape(x, p) == Abs(m / p * 2.0 - 1.0) * 2.0 - 1.0
  {
  }

  lemma ShapeTimes(m: real, p: real)
    requires p > 0.0
    ensures (Abs(m / p * 2.0 - 1.0) * 2.0 - 1.0) * p == if 2.0 * m < p then p - 4.0 * m else 4.0 * m - 3.0 * p
  {
    var f := m / p;
    assert f * p == m;
    ScaleUp(p, f, 0.5);
    if f < 0.5 {
      assert Abs(f * 2.0 - 1.0) * 2.0 - 1.0 == 1.0 - 4.0 * f;
      Expand(1.0, -4.0, f, p);
    } else {
      assert Abs(f * 2.0 - 1.0) * 2.0 - 1.0 == -3.0 + 4.0 * f;
      Expand(-3.0, 4.0, f, p);
    }
  }

  lemma Expand(a: real, b: real, f: real, p: real)
    ensures (a + b * f) * p == a * p + b * (f * p)
  {
  }
}
