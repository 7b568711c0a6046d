/** What an untriggered, unlimited listener delivers does not depend on how the
    samples were split into packets (src/listener.rs, src/streaming.rs). */
module Packetisation {
  import opened Common
  import opened Samples
  import opened RingBuffer
  import opened ListenerModel

  predicate Unlimited(cfg: Config) {
    ValidConfig(cfg) && cfg.trigger.NoTrigger? && cfg.count <= 0 && !cfg.sink.Rest?
  }

  /** Per-stream histories of equal length that contain every stream of cfg. */
  ghost predicate Histories(cfg: Config, hist: seq<seq<seq<Sample>>>, length: nat) {
    && (forall c, s :: 0 <= c < |hist| && 0 <= s < |hist[c]| ==> |hist[c][s]| == length)
    && (forall x :: 0 <= x < |cfg.streams| ==> cfg.streams[x].0 < |hist| && cfg.streams[x].1 < |hist[cfg.streams[x].0]|)
  }

  /** What a reader sees of a continuous capture when `captureI` samples are in and the
      output is just as far. */
  ghost function ViewOf(hist: seq<seq<seq<Sample>>>, length: nat, caps: nat, captureI: nat): (v: View)
    requires forall c, s :: 0 <= c < |hist| && 0 <= s < |hist[c]| ==> |hist[c][s]| == length
    requires captureI <= length
    ensures v.Valid() && v.captureI == v.captureO == captureI && v.sources == []
    ensures forall c, s :: v.Has(c, s) <==> 0 <= c < |hist| && 0 <= s < |hist[c]|
    ensures forall c, s :: v.Has(c, s) ==> v.streams[c][s] == Seen(hist[c][s], caps, captureI)
  {
    View(captureI, captureI,
      seq(|hist|, c requires 0 <= c < |hist| =>
        seq(|hist[c]|, s requires 0 <= s < |hist[c]| => Seen(hist[c][s], caps, captureI))),
      [])
  }

  /** One call on an untriggered, unlimited listener. */
  lemma UnlimitedCall(cfg: Config, v: View, st: State)
    requires Unlimited(cfg) && InRange(cfg, v)
    ensures Callable(cfg, v, st)
    ensures var n := Available(cfg, v.captureI, st);
            Handle(cfg, v, OPEN, st) ==
            if n == 0 then (st, [], true)
            else (st.(index := ChunkStart(cfg, st.index, n), outIndex := st.outIndex + n),
                  [MakeFrame(cfg, v, st, n)], true)
  {
  }

  /** Calls at the given numbers of collected samples, one after another. */
  ghost function Run(cfg: Config, hist: seq<seq<seq<Sample>>>, length: nat, caps: nat, st: State,
                     cuts: seq<nat>): (r: (State, seq<Frame>))
    requires Unlimited(cfg) && Histories(cfg, hist, length)
    requires forall i :: 0 <= i < |cuts| ==> cuts[i] <= length
    decreases |cuts|
  {
    if cuts == [] then (st, [])
    else
      var (before, sent) := Run(cfg, hist, length, caps, st, cuts[..|cuts| - 1]);
      var v := ViewOf(hist, length, caps, cuts[|cuts| - 1]);
      UnlimitedCall(cfg, v, before);
      var (after, more, _) := Handle(cfg, v, OPEN, before);
      (after, sent + more)
  }

  /** One more call appended to a run. */
  lemma RunSnoc(cfg: Config, hist: seq<seq<seq<Sample>>>, length: nat, caps: nat, st: State, cuts: seq<nat>, c: nat)
    requires Unlimited(cfg) && Histories(cfg, hist, length) && c <= length
    requires forall i :: 0 <= i < |cuts| ==> cuts[i] <= length
    ensures var (before, sent) := Run(cfg, hist, length, caps, st, cuts);
            var v := ViewOf(hist, length, caps, c);
            && InRange(cfg, v) && Callable(cfg, v, before)
            && var (after, more, _) := Handle(cfg, v, OPEN, before);
               Run(cfg, hist, length, caps, st, cuts + [c]) == (after, sent + more)
  {
    assert (cuts + [c])[..|cuts|] == cuts;
    UnlimitedCall(cfg, ViewOf(hist, length, caps, c), Run(cfg, hist, length, caps, st, cuts).0);
  }

  /** Stream x of a sequence of frames, joined. */
  function Joined(fs: seq<Frame>, x: nat): seq<Sample> {
    if fs == [] then []
    else Joined(fs[..|fs| - 1], x) + if x < |fs[|fs| - 1].data| then fs[|fs| - 1].data[x] else []
  }

  /** The mean of the k-th window of d samples of a history. */
  function WindowMean(h: seq<Sample>, start: nat, d: nat, k: nat): Sample {
    var p := start + k * d;
    if 0 <= p && p + d <= |h| then Mean(h[p..p + d]) else NaN
  }

  /** What such a mean is: the average of the d samples from start + k * d on, and so
      between any bounds of them. */
  lemma WindowMeanAverages(h: seq<Sample>, start: nat, d: nat, k: nat, low: real, high: real)
    requires start + k * d + d <= |h|
    ensures var p := start + k * d;
            && 0 <= p && Averages(h[p..p + d], WindowMean(h, start, d, k))
            && (WindowMean(h, start, d, k).Num?
                && (forall i :: p <= i < p + d ==> h[i].Num? && low <= h[i].value <= high) ==>
                  low <= WindowMean(h, start, d, k).value <= high)
  {
    hide Averages, Mean;
    Monotone(0, k, d);
    var p := start + k * d;
    var w := h[p..p + d];
    MeanAverages(w);
    if Mean(w).Num? {
      AveragePresent(w, Mean(w));
    }
    if Mean(w).Num? && forall i :: p <= i < p + d ==> h[i].Num? && low <= h[i].value <= high {
      assert forall i :: 0 <= i < |w| ==> w[i] == h[p + i];
      AverageBetween(w, Mean(w), low, high);
    }
  }

  lemma AveragePresent(w: seq<Sample>, x: Sample)
    requires Averages(w, x) && x.Num?
    ensures Measured(w)
  {
  }

  /** The ideal output: means of n consecutive windows of the whole history. */
  function Ideal(h: seq<Sample>, start: nat, d: nat, n: nat): (r: seq<Sample>)
    ensures |r| == n && forall k :: 0 <= k < n ==> r[k] == WindowMean(h, start, d, k)
  {
    seq(n, k requires 0 <= k < n => WindowMean(h, start, d, k))
  }

  /** Packets of at most `packet` samples arrive in order, the first call finds the
      start of the listener still readable, and a window plus a packet fits the ring. */
  predicate Steady(cfg: Config, caps: nat, start: nat, packet: nat, cuts: seq<nat>) {
    && cfg.decimate + packet < caps
    && |cuts| > 0 && (cuts[0] > caps ==> start > cuts[0] - caps)
    && (forall i :: 0 <= i < |cuts| - 1 ==> InStep(cuts, i, packet))
  }

  /** The cursor and the output after c samples are in. */
  ghost predicate Delivered(cfg: Config, hist: seq<seq<seq<Sample>>>, length: nat, start: nat, c: nat, st: State,
                            fs: seq<Frame>)
    requires Histories(cfg, hist, length)
  {
    && st.index == ChunkStart(cfg, start, st.outIndex)
    && c <= st.index + cfg.decimate
    && (st.outIndex > 0 ==> st.index <= c)
    && (forall x :: 0 <= x < |cfg.streams| ==>
          Joined(fs, x) == Ideal(hist[cfg.streams[x].0][cfg.streams[x].1], start, cfg.decimate, st.outIndex))
  }

  /** One call extends the delivered prefix, provided the window still to be read
      has not been overwritten. */
  lemma CallExtends(cfg: Config, hist: seq<seq<seq<Sample>>>, length: nat, caps: nat, start: nat, c: nat, c': nat,
                    st: State, fs: seq<Frame>)
    requires Unlimited(cfg) && Histories(cfg, hist, length) && c <= c' <= length
    requires st.index == ChunkStart(cfg, start, st.outIndex) && (st.outIndex > 0 ==> st.index <= c)
    requires forall x :: 0 <= x < |cfg.streams| ==>
               Joined(fs, x) == Ideal(hist[cfg.streams[x].0][cfg.streams[x].1], start, cfg.decimate, st.outIndex)
    requires caps > 0 && (c' > caps ==> st.index > c' - caps)
    ensures var v := ViewOf(hist, length, caps, c');
            Callable(cfg, v, st) && var (st', more, _) := Handle(cfg, v, OPEN, st);
            Delivered(cfg, hist, length, start, c', st', fs + more)
  {
    hide Ideal, Joined, Seen, Handle, Callable;
    var v := ViewOf(hist, length, caps, c');
    UnlimitedCall(cfg, v, st);
    var n := Available(cfg, c', st);
    DivideChunks(c' - st.index, cfg.decimate);
    ChunkSum(cfg, start, st.outIndex, n);
    if n == 0 {
      assert fs + [] == fs;
    } else {
      var f := MakeFrame(cfg, v, st, n);
      forall x | 0 <= x < |cfg.streams|
        ensures Joined(fs + [f], x)
             == Ideal(hist[cfg.streams[x].0][cfg.streams[x].1], start, cfg.decimate, st.outIndex + n)
      {
        ChunksAreWindows(cfg, hist, length, caps, start, c', st.outIndex, n, x);
        JoinedSnoc(fs, f, x);
        IdealSplit(hist[cfg.streams[x].0][cfg.streams[x].1], start, cfg.decimate, st.outIndex, n);
      }
    }
  }

  lemma IdealSplit(h: seq<Sample>, start: nat, d: nat, out: nat, n: nat)
    ensures Ideal(h, start, d, out + n) == Ideal(h, start, d, out) + Ideal(h, start, d, out + n)[out..]
  {
  }

  lemma JoinedSnoc(fs: seq<Frame>, f: Frame, x: nat)
    requires x < |f.data|
    ensures Joined(fs + [f], x) == Joined(fs, x) + f.data[x]
  {
    assert (fs + [f])[..|fs|] == fs;
  }

  /** Chunks read from a cursor that has delivered `out` chunks are the next ideal means. */
  lemma ChunksAreWindows(cfg: Config, hist: seq<seq<seq<Sample>>>, length: nat, caps: nat, start: nat, c: nat,
                         out: nat, n: nat, x: nat)
    requires Unlimited(cfg) && Histories(cfg, hist, length) && c <= length && x < |cfg.streams|
    requires ChunkStart(cfg, start, out + n) <= c && caps > 0 && (c > caps ==> ChunkStart(cfg, start, out) > c - caps)
    ensures var v := ViewOf(hist, length, caps, c);
            var h := hist[cfg.streams[x].0][cfg.streams[x].1];
            StreamChunks(cfg, v, x, ChunkStart(cfg, start, out), n) == Ideal(h, start, cfg.decimate, out + n)[out..]
  {
    var v := ViewOf(hist, length, caps, c);
    var h := hist[cfg.streams[x].0][cfg.streams[x].1];
    hide Seen, ChunkStart, Unlimited;
    var index := ChunkStart(cfg, start, out);
    forall k | 0 <= k < n
      ensures StreamChunks(cfg, v, x, index, n)[k] == WindowMean(h, start, cfg.decimate, out + k)
    {
      NextWindow(cfg, start, out, k, n);
      ReadableWindow(h, caps, c, ChunkStart(cfg, index, k), cfg.decimate);
    }
  }

  /** Where chunk k of n lies, counted from the cursor and from the start. */
  lemma NextWindow(cfg: Config, start: nat, out: nat, k: nat, n: nat)
    requires k < n
    ensures var p := ChunkStart(cfg, ChunkStart(cfg, start, out), k);
            p == start + (out + k) * cfg.decimate && p + cfg.decimate <= ChunkStart(cfg, start, out + n)
            && p >= ChunkStart(cfg, start, out)
  {
    ChunkSum(cfg, start, out, k);
    ChunkSum(cfg, start, out + k, 1);
    Monotone(out + k + 1, out + n, cfg.decimate);
  }

  lemma DivideChunks(a: int, d: nat)
    requires d > 0
    ensures a / d * d <= a < a / d * d + d
  {
  }

  lemma ChunkSum(cfg: Config, start: nat, a: nat, b: nat)
    ensures ChunkStart(cfg, start, a + b) == ChunkStart(cfg, ChunkStart(cfg, start, a), b)
  {
    assert (a + b) * cfg.decimate == a * cfg.decimate + b * cfg.decimate;
  }

  /** A window past the overwritten samples shows the history itself. */
  lemma ReadableWindow(h: seq<Sample>, caps: nat, c: nat, p: nat, d: nat)
    requires c <= |h| && caps > 0 && p + d <= c && (c > caps ==> p > c - caps)
    ensures Seen(h, caps, c)[p..p + d] == h[p..p + d]
  {
  }

  /** The invariant of a steady run. */
  lemma {:induction false} RunDelivers(cfg: Config, hist: seq<seq<seq<Sample>>>, length: nat, caps: nat, start: nat,
                                       packet: nat, cuts: seq<nat>)
    requires Unlimited(cfg) && Histories(cfg, hist, length) && Steady(cfg, caps, start, packet, cuts)
    requires forall i :: 0 <= i < |cuts| ==> cuts[i] <= length
    ensures var (st, fs) := Run(cfg, hist, length, caps, State(start, 0, false, 0, 0.0), cuts);
            Delivered(cfg, hist, length, start, cuts[|cuts| - 1], st, fs)
  {
    var st0 := State(start, 0, false, 0, 0.0);
    var last := |cuts| - 1;
    var (st, fs) := Run(cfg, hist, length, caps, st0, cuts[..last]);
    if last == 0 {
      CallExtends(cfg, hist, length, caps, start, cuts[0], cuts[0], st0, []);
    } else {
      forall i | 0 <= i < last - 1
        ensures InStep(cuts[..last], i, packet)
      {
        assert InStep(cuts, i, packet);
      }
      RunDelivers(cfg, hist, length, caps, start, packet, cuts[..last]);
      assert InStep(cuts, last - 1, packet);
      CallExtends(cfg, hist, length, caps, start, cuts[last - 1], cuts[last], st, fs);
    }
  }

  /** How many chunks are out once c samples are in: every complete one, except that
      a last chunk ending exactly at c may still be withheld. */
  predicate DeliveredCount(d: nat, start: nat, c: nat, out: nat)
    requires d > 0
  {
    if c < start then out == 0
    else out == (c - start) / d || (out + 1 == (c - start) / d && (c - start) % d == 0)
  }

  /** Main theorem. After any steady run each stream's joined output is exactly the
      ideal means of the history up to the delivered count - nothing overwritten,
      lost or repeated - and calling again without new data sends nothing. */
  lemma DeliveryIsIdealPrefix(cfg: Config, hist: seq<seq<seq<Sample>>>, length: nat, caps: nat, start: nat,
                              packet: nat, cuts: seq<nat>)
    requires Unlimited(cfg) && Histories(cfg, hist, length) && Steady(cfg, caps, start, packet, cuts)
    requires forall i :: 0 <= i < |cuts| ==> cuts[i] <= length
    ensures var (st, fs) := Run(cfg, hist, length, caps, State(start, 0, false, 0, 0.0), cuts);
            var c := cuts[|cuts| - 1];
            && DeliveredCount(cfg.decimate, start, c, st.outIndex)
            && c <= st.index + cfg.decimate
            && (forall x :: 0 <= x < |cfg.streams| ==>
                  Joined(fs, x) == Ideal(hist[cfg.streams[x].0][cfg.streams[x].1], start, cfg.decimate, st.outIndex))
            && Callable(cfg, ViewOf(hist, length, caps, c), st)
            && Handle(cfg, ViewOf(hist, length, caps, c), OPEN, st) == (st, [], true)
  {
    RunDelivers(cfg, hist, length, caps, start, packet, cuts);
    var (st, fs) := Run(cfg, hist, length, caps, State(start, 0, false, 0, 0.0), cuts);
    var c := cuts[|cuts| - 1];
    UnlimitedCall(cfg, ViewOf(hist, length, caps, c), st);
    CountBounds(cfg.decimate, start, c, st.outIndex);
  }

  lemma CountBounds(d: nat, start: nat, c: nat, out: nat)
    requires d > 0 && c <= start + out * d + d && (out > 0 ==> start + out * d <= c)
    ensures DeliveredCount(d, start, c, out)
  {
    if c < start {
      Monotone(0, out, d);
    } else {
      var r := c - start - out * d;
      if r < d {
        DivModUnique(c - start, d, out, r);
      } else {
        assert (out + 1) * d == out * d + d;
        DivModUnique(c - start, d, out + 1, 0);
      }
    }
  }

  /** Independence: two ways of cutting the same samples into packets deliver the
      same output, up to one withheld chunk at the end. */
  lemma PacketsDoNotMatter(cfg: Config, hist: seq<seq<seq<Sample>>>, length: nat, caps: nat, start: nat,
                           packet: nat, cuts: seq<nat>, packet': nat, cuts': seq<nat>)
    requires Unlimited(cfg) && Histories(cfg, hist, length)
    requires Steady(cfg, caps, start, packet, cuts) && Steady(cfg, caps, start, packet', cuts')
    requires forall i :: 0 <= i < |cuts| ==> cuts[i] <= length
    requires forall i :: 0 <= i < |cuts'| ==> cuts'[i] <= length
    requires cuts[|cuts| - 1] == cuts'[|cuts'| - 1]
    ensures var fs := Run(cfg, hist, length, caps, State(start, 0, false, 0, 0.0), cuts).1;
            var fs' := Run(cfg, hist, length, caps, State(start, 0, false, 0, 0.0), cuts').1;
            forall x :: 0 <= x < |cfg.streams| ==>
              var a, b := Joined(fs, x), Joined(fs', x);
              (a <= b || b <= a) && -1 <= |a| - |b| <= 1
  {
    DeliveryIsIdealPrefix(cfg, hist, length, caps, start, packet, cuts);
    DeliveryIsIdealPrefix(cfg, hist, length, caps, start, packet', cuts');
  }
}
