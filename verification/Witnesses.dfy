/** Device states used as witnesses: what a listener sees of a device whose streams all
    have the same history, and what one pass of the delivery loop does there. */
module Witnesses {
  import opened Common
  import opened Samples
  import opened Sources
  import opened RingBuffer
  import opened ListenerModel
  import opened Packetisation
  import opened Sweeps

  function StreamBound(streams: seq<(nat, nat)>): (b: nat)
    ensures forall x :: 0 <= x < |streams| ==> streams[x].0 < b && streams[x].1 < b
  {
    if streams == [] then 1
    else
      Max(StreamBound(streams[..|streams| - 1]),
          Max(streams[|streams| - 1].0, streams[|streams| - 1].1) + 1)
  }

  /** Large enough to index every stream and channel that cfg names. */
  function Bound(cfg: Config): (b: nat)
    ensures forall x :: 0 <= x < |cfg.streams| ==> cfg.streams[x].0 < b && cfg.streams[x].1 < b
    ensures cfg.trigger.InStream? ==> cfg.trigger.channel < b && cfg.trigger.stream < b
    ensures cfg.trigger.OutSource? ==> cfg.trigger.outChannel < b
  {
    Max(StreamBound(cfg.streams),
      match cfg.trigger
      case NoTrigger => 0
      case InStream(c, s, _) => Max(c, s) + 1
      case OutSource(c) => c + 1)
  }

  /** The history h for every stream. */
  function EveryStream(cfg: Config, h: seq<Sample>): (hist: seq<seq<seq<Sample>>>)
    ensures |hist| == Bound(cfg) && forall c :: 0 <= c < |hist| ==> |hist[c]| == Bound(cfg)
    ensures forall c, s :: 0 <= c < |hist| && 0 <= s < |hist[c]| ==> hist[c][s] == h
    ensures Histories(cfg, hist, |h|)
  {
    seq(Bound(cfg), _ => seq(Bound(cfg), _ => h))
  }

  /** A continuous capture of the history h into a ring of caps, `captureI` samples in
      and the output just as far, with the same source on every channel. */
  ghost function Shown(cfg: Config, h: seq<Sample>, caps: nat, captureI: nat, source: Option<SourceKind>): (v: View)
    requires captureI <= |h| && (source.Some? ==> WellFormed(source.value))
    ensures InRange(cfg, v) && v.captureI == v.captureO == captureI
    ensures cfg.trigger.InStream? ==>
              v.streams[cfg.trigger.channel][cfg.trigger.stream] == Seen(h, caps, captureI)
    ensures cfg.trigger.OutSource? ==> v.sources[cfg.trigger.outChannel] == source
  {
    ViewOf(EveryStream(cfg, h), |h|, caps, captureI).(sources := seq(Bound(cfg), _ => source))
  }

  /** The same in a ring large enough to keep everything. */
  ghost function Uniform(cfg: Config, h: seq<Sample>, source: Option<SourceKind>): (v: View)
    requires source.Some? ==> WellFormed(source.value)
    ensures InRange(cfg, v) && v.captureI == v.captureO == |h|
    ensures cfg.trigger.InStream? ==> v.streams[cfg.trigger.channel][cfg.trigger.stream] == h
    ensures cfg.trigger.OutSource? ==> v.sources[cfg.trigger.outChannel] == source
  {
    assert Seen(h, |h| + 1, |h|) == h;
    Shown(cfg, h, |h| + 1, |h|, source)
  }

  function Flat(level: real, n: nat): (h: seq<Sample>)
    ensures |h| == n && forall i :: 0 <= i < n ==> h[i] == Num(level)
  {
    seq(n, _ => Num(level))
  }

  /** A square wave that rises at z, and then only high + z samples later. */
  function SquareAt(z: nat, high: nat): (k: SourceKind)
    requires high > 0
    ensures WellFormed(k)
  {
    AdvSquare(1.0, 0.0, high, z, 0, false)
  }

  lemma SquareZeros(z: nat, high: nat, s: nat)
    requires high > 0 && s < z + high
    ensures PhaseZeroAfter(SquareAt(z, high), s) == Some((if s <= z then z else z + (z + high)) as real)
  {
    var per := z + high;
    DivModUnique(s, per, 0, s);
    if s <= z {
      DivModUnique(per + z - s, per, 1, z - s);
    } else {
      DivModUnique(per + z - s, per, 0, per + z - s);
    }
    assert SquarePeriod(SquareAt(z, high)) == per;
  }

  /** Samples below the level up to a, at a, and from b on above it. */
  function TwoEdges(level: real, a: nat, b: nat, n: nat): (r: seq<Sample>)
    ensures |r| == n
    ensures forall i :: 0 <= i < n ==> r[i] == if i == a || i >= b then Num(level + 1.0) else Num(level)
  {
    seq(n, i => if i == a || i >= b then Num(level + 1.0) else Num(level))
  }

  lemma FirstEdgeIs(samples: seq<Sample>, level: real, i: nat, e: nat)
    requires i <= e && Edge(samples, level, e) && forall j :: i <= j < e ==> !Edge(samples, level, j)
    ensures FirstEdge(samples, level, i) == Some(e)
  {
    FirstEdgeExact(samples, level, i);
  }

  /** With a sweep and a boundary chunk collected past the cursor, a full sweep goes out. */
  lemma FullSweep(cfg: Config, captureI: nat, st: State)
    requires Repeating(cfg) && st.outIndex == 0 && captureI > st.index + cfg.count * cfg.decimate + cfg.decimate
    ensures Available(cfg, captureI, st) == cfg.count
  {
    var n := (captureI - st.index) / cfg.decimate;
    assert (n + 1) * cfg.decimate == n * cfg.decimate + cfg.decimate;
    if n < cfg.count {
      Monotone(n + 1, cfg.count, cfg.decimate);
    }
    Monotone(0, cfg.count, cfg.decimate);
  }

  /** An in-stream sweep from an armed cursor: trigger at e, deliver, re-arm. */
  lemma EdgePass(cfg: Config, v: View, st: State, e: nat)
    requires Repeating(cfg) && cfg.trigger.InStream? && InRange(cfg, v) && StateOk(cfg, st) && !st.triggered
    requires FirstEdge(v.streams[cfg.trigger.channel][cfg.trigger.stream], cfg.trigger.level, st.index + 1) == Some(e)
    requires e + cfg.offset >= 0 && e + cfg.offset + cfg.count * cfg.decimate + cfg.holdoff >= 0
    requires v.captureI > e + cfg.offset + cfg.count * cfg.decimate + cfg.decimate
    ensures Fits(cfg, v, st)
    ensures var pass := OnePass(cfg, v, OPEN, st);
            var index := e + cfg.offset + cfg.count * cfg.decimate + cfg.holdoff;
            && pass.Rearm? && pass.frame.idx == 0
            && pass.frame.sampleIndex == e + cfg.offset && pass.frame.nchunks == cfg.count
            && pass.st == State(index, 0, false, index + cfg.force, 0.0)
  {
    FullSweep(cfg, v.captureI, st.(index := e + cfg.offset));
  }

  /** An out-source sweep at a phase zero z that the output has reached. */
  lemma ZeroPass(cfg: Config, v: View, st: State, z: nat)
    requires Repeating(cfg) && cfg.trigger.OutSource? && InRange(cfg, v) && StateOk(cfg, st) && !st.triggered
    requires v.sources[cfg.trigger.outChannel].Some?
    requires PhaseZeroAfter(v.sources[cfg.trigger.outChannel].value, st.index) == Some(z as real) && z <= v.captureO
    requires z + cfg.offset >= 0 && z + cfg.offset + cfg.count * cfg.decimate + cfg.holdoff >= 0
    requires v.captureI > z + cfg.offset + cfg.count * cfg.decimate + cfg.decimate
    ensures Fits(cfg, v, st)
    ensures var pass := OnePass(cfg, v, OPEN, st);
            var index := z + cfg.offset + cfg.count * cfg.decimate + cfg.holdoff;
            && pass.Rearm? && pass.frame.idx == 0 && pass.frame.sampleIndex == z + cfg.offset
            && pass.frame.nchunks == cfg.count && pass.st == State(index, 0, false, index + cfg.force, 0.0)
  {
    hide PhaseZeroAfter, Chunks;
    assert Round(z as real) == z;
    FullSweep(cfg, v.captureI, st.(index := z + cfg.offset));
  }

  /** A forced out-source sweep, the next phase zero z not having been reached. */
  lemma ForcedPass(cfg: Config, v: View, st: State, z: nat)
    requires Repeating(cfg) && cfg.trigger.OutSource? && cfg.force != 0 && InRange(cfg, v)
    requires StateOk(cfg, st) && !st.triggered && v.sources[cfg.trigger.outChannel].Some?
    requires PhaseZeroAfter(v.sources[cfg.trigger.outChannel].value, st.index) == Some(z as real) && z > v.captureO
    requires st.forceIndex + cfg.count * cfg.decimate + cfg.holdoff >= 0
    requires v.captureI > st.forceIndex + cfg.count * cfg.decimate + cfg.decimate
    ensures Fits(cfg, v, st)
    ensures var pass := OnePass(cfg, v, OPEN, st);
            var index := st.forceIndex + cfg.count * cfg.decimate + cfg.holdoff;
            && pass.Rearm? && pass.frame.idx == 0 && pass.frame.sampleIndex == st.forceIndex
            && pass.frame.nchunks == cfg.count && pass.st == State(index, 0, false, index + cfg.force, 0.0)
  {
    hide PhaseZeroAfter, Chunks;
    assert Round(z as real) == z;
    Monotone(0, cfg.count, cfg.decimate);
    FullSweep(cfg, v.captureI, st.(index := st.forceIndex));
  }
}
