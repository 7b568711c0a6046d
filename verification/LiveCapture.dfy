/** A continuous capture as it really runs: packets go into the ring buffer and the
    listener object is called after each one (src/streaming.rs, src/listener.rs). The
    theorems of module Packetisation are about exactly these runs. */
module LiveCapture {
  import opened Common
  import opened Samples
  import opened Sources
  import opened RingBuffer
  import opened ListenerModel
  import L = Listeners
  import opened Packetisation
  import T = Transfers

  /** Between samples of a continuous capture, what a reader sees is a function of the
      histories and the counter alone. */
  lemma SnapshotIsView(dev: Device)
    requires dev.Valid() && dev.Settled() && dev.captureContinuous && dev.captureSamples > 0
    ensures forall c, s :: 0 <= c < |dev.history| && 0 <= s < |dev.history[c]| ==> |dev.history[c][s]| == dev.captureI
    ensures dev.Snapshot().streams == ViewOf(dev.history, dev.captureI, dev.captureSamples, dev.captureI).streams
  {
    forall c, s | dev.Has(c, s)
      ensures |dev.history[c][s]| == dev.captureI
      ensures dev.Readout(c, s) == Seen(dev.history[c][s], dev.captureSamples, dev.captureI)
    {
      assert Agrees(dev.buffers[c][s][..], dev.history[c][s], dev.pending[c][s],
                  dev.captureI, dev.captureSamples, dev.captureContinuous);
    }
    var v, w := dev.Snapshot(), ViewOf(dev.history, dev.captureI, dev.captureSamples, dev.captureI);
    forall c | 0 <= c < |dev.buffers|
      ensures v.streams[c] == w.streams[c]
    {
      forall s | 0 <= s < |dev.buffers[c]|
        ensures v.streams[c][s] == w.streams[c][s]
      {
        assert dev.Has(c, s) && v.Has(c, s) && w.Has(c, s);
      }
    }
  }

  /** The sample whose slot a pending one has taken over is exactly the one at the
      boundary of the availability test, which is why the test excludes it. */
  lemma BoundarySlotIsReused(dev: Device, c: nat, s: nat)
    requires dev.Valid() && dev.Has(c, s) && dev.captureContinuous && dev.pending[c][s].Some?
    requires dev.captureI >= dev.captureSamples > 0
    ensures dev.buffers[c][s][(dev.captureI - dev.captureSamples) % dev.captureSamples] == dev.pending[c][s].value
    ensures dev.captureI > dev.captureSamples ==>
              !Readable(dev.captureI, dev.captureSamples, dev.captureI - dev.captureSamples)
    ensures !Readable(dev.captureI + 1, dev.captureSamples, dev.captureI - dev.captureSamples)
  {
    assert Agrees(dev.buffers[c][s][..], dev.history[c][s], dev.pending[c][s],
                  dev.captureI, dev.captureSamples, dev.captureContinuous);
    ModShift(dev.captureI, -1, dev.captureSamples);
  }

  /** Resampling is the mean of the history: testing the two ends of the window shows
      that every sample inside is present. In a one-shot capture this needs that the
      buffer has not overflowed. */
  lemma ResampleIsHistoryMean(dev: Device, c: nat, s: nat, start: nat, count: nat)
    requires dev.Valid() && dev.Settled() && dev.Has(c, s) && dev.captureSamples > 0
    requires dev.captureContinuous || dev.captureI <= dev.captureSamples
    ensures |dev.history[c][s]| == dev.captureI
    ensures dev.Snapshot().Has(c, s)
    ensures dev.Snapshot().Resample(c, s, start, count) ==
            if start + count <= dev.captureI
               && (dev.captureI > dev.captureSamples ==> start > dev.captureI - dev.captureSamples)
            then Mean(dev.history[c][s][start..start + count]) else NaN
    ensures var r := dev.Snapshot().Resample(c, s, start, count);
            if start + count <= dev.captureI
               && (dev.captureI > dev.captureSamples ==> start > dev.captureI - dev.captureSamples)
            then Averages(dev.history[c][s][start..start + count], r) else r == NaN
  {
    hide Averages;
    assert Agrees(dev.buffers[c][s][..], dev.history[c][s], dev.pending[c][s],
                  dev.captureI, dev.captureSamples, dev.captureContinuous);
    var w := dev.Window(c, s, start, count);
    dev.ResampleIsMean(c, s, start, count);
    if start + count <= dev.captureI {
      dev.WindowSlots(c, s, start, count);
    }
    if start + count <= dev.captureI
       && (dev.captureI > dev.captureSamples ==> start > dev.captureI - dev.captureSamples) {
      assert w == dev.history[c][s][start..start + count];
      MeanAverages(w);
    }
  }

  /** Histories that have grown. */
  ghost predicate Extends(hist: seq<seq<seq<Sample>>>, longer: seq<seq<seq<Sample>>>) {
    && |hist| == |longer|
    && (forall c :: 0 <= c < |hist| ==> |hist[c]| == |longer[c]|)
    && (forall c, s :: 0 <= c < |hist| && 0 <= s < |hist[c]| ==> hist[c][s] <= longer[c][s])
  }

  /** Samples that come later do not change what a reader saw. */
  lemma ViewGrows(hist: seq<seq<seq<Sample>>>, length: nat, longer: seq<seq<seq<Sample>>>, length': nat, caps: nat,
                  c: nat)
    requires forall a, s :: 0 <= a < |hist| && 0 <= s < |hist[a]| ==> |hist[a][s]| == length
    requires forall a, s :: 0 <= a < |longer| && 0 <= s < |longer[a]| ==> |longer[a][s]| == length'
    requires Extends(hist, longer) && c <= length <= length'
    ensures ViewOf(hist, length, caps, c) == ViewOf(longer, length', caps, c)
  {
    var v, w := ViewOf(hist, length, caps, c), ViewOf(longer, length', caps, c);
    forall a | 0 <= a < |hist|
      ensures v.streams[a] == w.streams[a]
    {
      forall s | 0 <= s < |hist[a]|
        ensures v.streams[a][s] == w.streams[a][s]
      {
        assert v.Has(a, s) && w.Has(a, s);
        assert Seen(hist[a][s], caps, c) == Seen(longer[a][s], caps, c);
      }
    }
  }

  /** Samples that come later do not change what was delivered. */
  lemma {:induction false} RunGrows(cfg: Config, hist: seq<seq<seq<Sample>>>, length: nat,
                                    longer: seq<seq<seq<Sample>>>, length': nat, caps: nat,
                                    st: State, cuts: seq<nat>)
    requires Unlimited(cfg) && Histories(cfg, hist, length) && Histories(cfg, longer, length')
    requires Extends(hist, longer) && length <= length'
    requires forall i :: 0 <= i < |cuts| ==> cuts[i] <= length
    ensures Run(cfg, hist, length, caps, st, cuts) == Run(cfg, longer, length', caps, st, cuts)
    decreases |cuts|
  {
    if cuts != [] {
      RunGrows(cfg, hist, length, longer, length', caps, st, cuts[..|cuts| - 1]);
      ViewGrows(hist, length, longer, length', caps, cuts[|cuts| - 1]);
    }
  }

  /** An untriggered unlimited listener only looks at the streams and the counter. */
  lemma HandleByStreams(cfg: Config, v: View, w: View, st: State)
    requires Unlimited(cfg) && InRange(cfg, v) && InRange(cfg, w)
    requires v.streams == w.streams && v.captureI == w.captureI
    ensures Callable(cfg, v, st) && Callable(cfg, w, st) && Handle(cfg, v, OPEN, st) == Handle(cfg, w, OPEN, st)
  {
    UnlimitedCall(cfg, v, st);
    UnlimitedCall(cfg, w, st);
    var n := Available(cfg, v.captureI, st);
    assert Chunks(cfg, v, st.index, n) == Chunks(cfg, w, st.index, n) by {
      forall x | 0 <= x < |cfg.streams|
        ensures Chunks(cfg, v, st.index, n)[x] == Chunks(cfg, w, st.index, n)[x]
      {
        assert forall k :: 0 <= k < n ==>
          v.Resample(cfg.streams[x].0, cfg.streams[x].1, ChunkStart(cfg, st.index, k), cfg.decimate)
          == w.Resample(cfg.streams[x].0, cfg.streams[x].1, ChunkStart(cfg, st.index, k), cfg.decimate);
      }
    }
  }

  /** A continuous capture with one untriggered unlimited listener attached. */
  ghost predicate Live(dev: Device, l: L.Listener)
    reads dev, dev.Repr, l
  {
    && dev.Valid() && dev.Settled() && T.TwoByTwo(dev) && dev.captureContinuous && dev.captureSamples > 0
    && (l as object) !in dev.Repr
    && Unlimited(l.cfg) && Histories(l.cfg, dev.history, dev.captureI)
    && (forall c :: 0 <= c < |dev.sources| && dev.sources[c].Some? ==> WellFormed(dev.sources[c].value))
  }

  /** The listener has done what Run says it does on the device's own histories. */
  ghost predicate OnCourse(dev: Device, l: L.Listener, start: nat, cuts: seq<nat>)
    requires Live(dev, l)
    reads dev, dev.Repr, l
  {
    && (forall i :: 0 <= i < |cuts| ==> cuts[i] <= dev.captureI)
    && var (st, sent) :=
         Run(l.cfg, dev.history, dev.captureI, dev.captureSamples, State(start, 0, false, 0, 0.0), cuts);
       l.State() == st && L.Rectangular(sent) && l.outbox == L.RenderAll(l.cfg, l.bits, sent)
  }

  /** Put a packet of samples into the ring. */
  method Feed(dev: Device, quads: seq<T.Quad<Sample>>)
    requires dev.Valid() && dev.Settled() && T.TwoByTwo(dev)
    modifies dev`captureI, dev`history, dev`pending, dev.Repr - {dev}
    ensures dev.Valid() && dev.Settled() && T.TwoByTwo(dev)
    ensures dev.captureI == old(dev.captureI) + |quads|
    ensures T.Received(old(dev.history), dev.history, quads)
  {
    hide Agrees, T.Received;
    T.ReceivedNothing(dev.history);
    for i := 0 to |quads|
      invariant dev.Valid() && dev.Settled() && T.TwoByTwo(dev)
      invariant dev.captureI == old(dev.captureI) + i
      invariant T.Received(old(dev.history), dev.history, quads[..i])
    {
      ghost var mid := dev.history;
      T.PutQuad(dev, quads[i]);
      T.ReceivedJoin(old(dev.history), mid, dev.history, quads[..i], [quads[i]]);
      assert quads[..i + 1] == quads[..i] + [quads[i]];
    }
    assert quads[..|quads|] == quads;
  }

  lemma ReceivedExtends(before: T.Histories, now: T.Histories, quads: seq<T.Quad<Sample>>)
    requires T.Received(before, now, quads)
    ensures Extends(before, now)
  {
    forall c, s | 0 <= c < |before| && 0 <= s < |before[c]|
      ensures before[c][s] <= now[c][s]
    {
      assert now[c][s] == before[c][s] + T.Column(quads, c, s);
    }
  }

  /** One packet: its samples go into the ring, then the listener is called. The
      listener stays on course, with one more call in its run. */
  method Packet(dev: Device, l: L.Listener, quads: seq<T.Quad<Sample>>, ghost start: nat, ghost cuts: seq<nat>)
    returns (keep: bool)
    requires Live(dev, l) && OnCourse(dev, l, start, cuts)
    modifies dev`captureI, dev`history, dev`pending, dev.Repr - {dev}, l
    ensures Live(dev, l) && keep
    ensures dev.captureI == old(dev.captureI) + |quads| && T.Received(old(dev.history), dev.history, quads)
    ensures OnCourse(dev, l, start, cuts + [dev.captureI])
  {
    hide Agrees, T.Received, Run, Handle, Callable, L.RenderAll, L.Rectangular, Seen, ViewOf;
    ghost var h0, i0, caps := dev.history, dev.captureI, dev.captureSamples;
    ghost var cfg, st0 := l.cfg, State(start, 0, false, 0, 0.0);
    ghost var (st, sent) := Run(cfg, h0, i0, caps, st0, cuts);
    Feed(dev, quads);
    SnapshotIsView(dev);
    ReceivedExtends(h0, dev.history, quads);
    RunGrows(cfg, h0, i0, dev.history, dev.captureI, caps, st0, cuts);
    ghost var v, w := dev.Snapshot(), ViewOf(dev.history, dev.captureI, caps, dev.captureI);
    HandleByStreams(cfg, v, w, st);
    RunSnoc(cfg, dev.history, dev.captureI, caps, st0, cuts, dev.captureI);
    UnlimitedCall(cfg, w, st);
    ghost var more := Handle(cfg, v, OPEN, st).1;
    keep := l.HandleNewData(dev, OPEN, v);
    L.RenderAppend(cfg, l.bits, sent, more);
  }

  /** Calls so far, each at most `most` samples after the one before. */
  ghost predicate Paced(cuts: seq<nat>, most: nat) {
    forall i :: 0 <= i < |cuts| - 1 ==> InStep(cuts, i, most)
  }

  lemma PacedSnoc(cuts: seq<nat>, c: nat, most: nat)
    requires Paced(cuts, most) && (cuts != [] ==> cuts[|cuts| - 1] <= c <= cuts[|cuts| - 1] + most)
    ensures Paced(cuts + [c], most)
  {
    forall i | 0 <= i < |cuts + [c]| - 1
      ensures InStep(cuts + [c], i, most)
    {
      if i < |cuts| - 1 {
        assert InStep(cuts, i, most);
      }
    }
  }

  /** A whole capture: packets of at most `most` samples, in a ring with room for one
      decimation window and one packet. The listener object has sent exactly the ideal
      decimated means of everything that was captured, up to the delivered count. */
  method Stream(dev: Device, l: L.Listener, packets: seq<seq<T.Quad<Sample>>>, most: nat)
    returns (ghost frames: seq<Frame>)
    requires Live(dev, l) && l.outbox == [] && l.State() == State(l.index, 0, false, 0, 0.0)
    requires packets != [] && forall i :: 0 <= i < |packets| ==> |packets[i]| <= most
    requires l.cfg.decimate + most < dev.captureSamples
    requires dev.captureI + |packets[0]| > dev.captureSamples ==>
               l.index > dev.captureI + |packets[0]| - dev.captureSamples
    modifies dev`captureI, dev`history, dev`pending, dev.Repr - {dev}, l
    ensures Live(dev, l) && L.Rectangular(frames) && l.outbox == L.RenderAll(l.cfg, l.bits, frames)
    ensures DeliveredCount(l.cfg.decimate, old(l.index), dev.captureI, l.outIndex)
    ensures forall x :: 0 <= x < |l.cfg.streams| ==>
              Joined(frames, x)
              == Ideal(dev.history[l.cfg.streams[x].0][l.cfg.streams[x].1], old(l.index), l.cfg.decimate, l.outIndex)
  {
    hide Agrees, T.Received, Run, Live, OnCourse, Handle, Callable, L.RenderAll, L.Rectangular, Seen, ViewOf;
    ghost var start, first, cuts: seq<nat> := l.index, dev.captureI + |packets[0]|, [];
    StartsOnCourse(dev, l);
    for i := 0 to |packets|
      invariant |cuts| == i && Live(dev, l) && OnCourse(dev, l, start, cuts)
      invariant i > 0 ==> cuts[0] == first && cuts[i - 1] == dev.captureI
      invariant i == 0 ==> dev.captureI == old(dev.captureI)
      invariant Paced(cuts, most)
    {
      var _ := Packet(dev, l, packets[i], start, cuts);
      PacedSnoc(cuts, dev.captureI, most);
      cuts := cuts + [dev.captureI];
    }
    frames := Finish(dev, l, start, most, cuts);
  }

  lemma StartsOnCourse(dev: Device, l: L.Listener)
    requires Live(dev, l) && l.outbox == [] && l.State() == State(l.index, 0, false, 0, 0.0)
    ensures OnCourse(dev, l, l.index, [])
  {
  }

  lemma Finish(dev: Device, l: L.Listener, start: nat, most: nat, cuts: seq<nat>) returns (frames: seq<Frame>)
    requires Live(dev, l) && OnCourse(dev, l, start, cuts) && cuts != [] && cuts[|cuts| - 1] == dev.captureI
    requires Steady(l.cfg, dev.captureSamples, start, most, cuts)
    ensures L.Rectangular(frames) && l.outbox == L.RenderAll(l.cfg, l.bits, frames)
    ensures l.cfg.decimate > 0 && DeliveredCount(l.cfg.decimate, start, dev.captureI, l.outIndex)
    ensures forall x :: 0 <= x < |l.cfg.streams| ==>
              l.cfg.streams[x].0 < |dev.history| && l.cfg.streams[x].1 < |dev.history[l.cfg.streams[x].0]|
              && Joined(frames, x)
                 == Ideal(dev.history[l.cfg.streams[x].0][l.cfg.streams[x].1], start, l.cfg.decimate, l.outIndex)
  {
    frames := Run(l.cfg, dev.history, dev.captureI, dev.captureSamples, State(start, 0, false, 0, 0.0), cuts).1;
    DeliveryIsIdealPrefix(l.cfg, dev.history, dev.captureI, dev.captureSamples, start, most, cuts);
  }
}
