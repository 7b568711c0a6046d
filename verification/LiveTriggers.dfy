/** The listener object on a real ring, with a trigger or a count (src/streaming.rs,
    src/listener.rs): the theorems of modules Sweeps, OneWindow and TriggerRoom together,
    of what the object has sent after any packets. */
module LiveTriggers {
  import opened Common
  import opened Samples
  import opened Sources
  import opened RingBuffer
  import opened ListenerModel
  import opened Packetisation
  import opened SweepLimits
  import opened TriggerRoom
  import S = Sweeps
  import O = OneWindow
  import L = Listeners
  import C = LiveCapture
  import F = Frames
  import T = Transfers

  /** A continuous capture with an untriggered or in-stream listener attached. */
  ghost predicate Live(dev: Device, l: L.Listener)
    reads dev, dev.Repr, l
  {
    && dev.Valid() && dev.Settled() && T.TwoByTwo(dev) && dev.captureContinuous && dev.captureSamples > 0
    && (l as object) !in dev.Repr
    && Following(l.cfg) && Recorded(l.cfg, dev.history, dev.captureI)
    && (forall c :: 0 <= c < |dev.sources| && dev.sources[c].Some? ==> WellFormed(dev.sources[c].value))
  }

  lemma LiveShows(dev: Device, l: L.Listener)
    requires Live(dev, l)
    ensures var v := dev.Snapshot();
            && v.captureI == dev.captureI && Shows(v, dev.history, dev.captureI, dev.captureSamples)
            && l.Sees(dev, v) && InRange(l.cfg, v)
  {
    C.SnapshotIsView(dev);
    var v, w := dev.Snapshot(), ViewOf(dev.history, dev.captureI, dev.captureSamples, dev.captureI);
    assert forall c, s :: w.Has(c, s) ==> v.Has(c, s);
  }

  lemma FollowingProgress(cfg: Config)
    requires Following(cfg)
    ensures ValidConfig(cfg) && Progress(cfg) && Guarded(cfg)
  {
    S.HoldoffKeepsApart(cfg);
  }

  /** Frames of collected samples, every chunk the mean of its window of the history. */
  ghost predicate Stored(cfg: Config, hist: seq<seq<seq<Sample>>>, length: nat, fs: seq<Frame>)
    requires Histories(cfg, hist, length)
  {
    AllFaithful(cfg, hist, length, fs) && forall i :: 0 <= i < |fs| ==> Collected(cfg, length, fs[i])
  }

  lemma IdealGrows(h: seq<Sample>, longer: seq<Sample>, start: nat, d: nat, n: nat)
    requires h <= longer && start + n * d <= |h|
    ensures Ideal(h, start, d, n) == Ideal(longer, start, d, n)
  {
    forall k | 0 <= k < n
      ensures WindowMean(h, start, d, k) == WindowMean(longer, start, d, k)
    {
      assert (k + 1) * d == k * d + d;
      Monotone(k + 1, n, d);
      Monotone(0, k, d);
      assert h[start + k * d..start + k * d + d] == longer[start + k * d..start + k * d + d];
    }
  }

  /** Samples that come later change nothing about what was sent. */
  lemma StoredGrows(cfg: Config, hist: seq<seq<seq<Sample>>>, length: nat, longer: seq<seq<seq<Sample>>>, length': nat,
                    fs: seq<Frame>)
    requires Histories(cfg, hist, length) && Histories(cfg, longer, length') && length <= length'
    requires C.Extends(hist, longer) && Stored(cfg, hist, length, fs)
    ensures Stored(cfg, longer, length', fs)
  {
    hide Ideal;
    forall i, x | 0 <= i < |fs| && 0 <= x < |cfg.streams|
      ensures fs[i].data[x]
           == Ideal(longer[cfg.streams[x].0][cfg.streams[x].1], fs[i].sampleIndex, cfg.decimate, fs[i].nchunks)
    {
      assert Faithful(cfg, hist, length, fs[i]) && Collected(cfg, length, fs[i]);
      var at := cfg.streams[x];
      IdealGrows(hist[at.0][at.1], longer[at.0][at.1], fs[i].sampleIndex, cfg.decimate, fs[i].nchunks);
    }
  }

  lemma StoredAppend(cfg: Config, hist: seq<seq<seq<Sample>>>, length: nat, a: seq<Frame>, b: seq<Frame>)
    requires Histories(cfg, hist, length) && Stored(cfg, hist, length, a) && Stored(cfg, hist, length, b)
    ensures Stored(cfg, hist, length, a + b)
  {
  }

  lemma RecordedGrows(cfg: Config, hist: seq<seq<seq<Sample>>>, length: nat, longer: seq<seq<seq<Sample>>>,
                      length': nat)
    requires Recorded(cfg, hist, length) && C.Extends(hist, longer)
    requires forall c, s :: 0 <= c < |longer| && 0 <= s < |longer[c]| ==> |longer[c][s]| == length'
    ensures Recorded(cfg, longer, length')
  {
  }

  /** One packet: its samples go into the ring, then the listener is called. */
  method Packet(dev: Device, l: L.Listener, quads: seq<T.Quad<Sample>>) returns (keep: bool, ghost more: seq<Frame>)
    requires Live(dev, l) && StateOk(l.cfg, l.State()) && Clear(l.cfg, l.State())
    requires Within(l.cfg, dev.captureSamples, dev.captureI + |quads|, l.State())
    modifies dev`captureI, dev`history, dev`pending, dev.Repr - {dev}, l
    ensures Live(dev, l) && dev.captureI == old(dev.captureI) + |quads|
    ensures T.Received(old(dev.history), dev.history, quads) && C.Extends(old(dev.history), dev.history)
    ensures Callable(l.cfg, dev.Snapshot(), old(l.State()))
    ensures Handle(l.cfg, dev.Snapshot(), OPEN, old(l.State())) == (l.State(), more, keep)
    ensures dev.Snapshot().captureI == dev.captureI
    ensures Shows(dev.Snapshot(), dev.history, dev.captureI, dev.captureSamples)
    ensures Stored(l.cfg, dev.history, dev.captureI, more) && (keep ==> CaughtUp(l.cfg, dev.captureI, l.State()))
    ensures L.Rectangular(more) && l.outbox == old(l.outbox) + L.RenderAll(l.cfg, l.bits, more)
  {
    hide Agrees, T.Received, Handle, L.RenderAll, L.Rectangular, Shows, AllFaithful, Within, CaughtUp, Following;
    hide Recorded, C.Extends, Seen, ViewOf, Clear;
    C.Feed(dev, quads);
    C.ReceivedExtends(old(dev.history), dev.history, quads);
    C.SnapshotIsView(dev);
    RecordedGrows(l.cfg, old(dev.history), old(dev.captureI), dev.history, dev.captureI);
    LiveShows(dev, l);
    FollowingProgress(l.cfg);
    ghost var v, st := dev.Snapshot(), l.State();
    ClearFits(l.cfg, v, st);
    CallFaithful(l.cfg, dev.history, dev.captureI, dev.captureSamples, v, st);
    NeverReadsAhead(l.cfg, v, OPEN, st);
    more := Handle(l.cfg, v, OPEN, st).1;
    keep := l.HandleNewData(dev, OPEN, v);
  }

  // ---- where sweeps start ----

  /** For a listener that is never forced and never goes back to re-arm, every sweep sent
      or triggered starts `offset` after an edge of its trigger stream. */
  ghost predicate Edged(cfg: Config, hist: seq<seq<seq<Sample>>>, length: nat, fs: seq<Frame>, st: State)
    requires Recorded(cfg, hist, length)
  {
    Sharp(cfg) ==> AtEdges(cfg, Watched(cfg, hist), fs) && Latched(cfg, Watched(cfg, hist), st)
  }

  lemma EdgedGrows(cfg: Config, hist: seq<seq<seq<Sample>>>, length: nat, longer: seq<seq<seq<Sample>>>, length': nat,
                   fs: seq<Frame>, st: State)
    requires Recorded(cfg, hist, length) && Recorded(cfg, longer, length') && C.Extends(hist, longer)
    requires Edged(cfg, hist, length, fs, st)
    ensures Edged(cfg, longer, length', fs, st)
  {
    if cfg.trigger.InStream? {
      assert Watched(cfg, hist) <= Watched(cfg, longer);
    }
  }

  lemma CallEdged(cfg: Config, hist: seq<seq<seq<Sample>>>, length: nat, caps: nat, v: View, st: State,
                  fs: seq<Frame>)
    requires Following(cfg) && Recorded(cfg, hist, length) && Shows(v, hist, length, caps) && Callable(cfg, v, st)
    requires caps > 0 && Within(cfg, caps, v.captureI, st) && Edged(cfg, hist, length, fs, st)
    ensures var (st', sent, keep) := Handle(cfg, v, OPEN, st);
            keep ==> Edged(cfg, hist, length, fs + sent, st')
    ensures Sharp(cfg) ==> AtEdges(cfg, Watched(cfg, hist), fs + Handle(cfg, v, OPEN, st).1)
  {
    hide Handle, Shows, Within, AtEdges, Latched;
    if Sharp(cfg) {
      CallAtEdges(cfg, hist, length, caps, v, st);
      AppendAtEdges(cfg, Watched(cfg, hist), fs, Handle(cfg, v, OPEN, st).1);
    }
  }

  // ---- repeating triggers ----

  /** What has been sent is a chain of sweeps, every chunk of it faithful. */
  ghost predicate OnSweeps(cfg: Config, hist: seq<seq<seq<Sample>>>, length: nat, fs: seq<Frame>, st: State)
    requires Recorded(cfg, hist, length)
  {
    && StateOk(cfg, st) && Clear(cfg, st)
    && S.Chain(cfg, fs) && S.Standing(cfg, fs, st, length)
    && Stored(cfg, hist, length, fs) && Edged(cfg, hist, length, fs, st)
  }

  lemma SweepsGrow(cfg: Config, hist: seq<seq<seq<Sample>>>, length: nat, longer: seq<seq<seq<Sample>>>, length': nat,
                   fs: seq<Frame>, st: State)
    requires Recorded(cfg, hist, length) && Recorded(cfg, longer, length') && length <= length'
    requires C.Extends(hist, longer) && OnSweeps(cfg, hist, length, fs, st)
    ensures OnSweeps(cfg, longer, length', fs, st)
  {
    hide S.Chain, S.Standing, Stored, Edged, C.Extends;
    S.StandingLater(cfg, fs, st, length, length');
    StoredGrows(cfg, hist, length, longer, length', fs);
    EdgedGrows(cfg, hist, length, longer, length', fs, st);
  }

  lemma CallOnSweeps(cfg: Config, hist: seq<seq<seq<Sample>>>, length: nat, caps: nat, v: View, st: State,
                     fs: seq<Frame>)
    requires S.Repeating(cfg) && cfg.trigger.InStream? && Following(cfg)
    requires Recorded(cfg, hist, length) && Shows(v, hist, length, caps) && v.captureI == length && caps > 0
    requires Callable(cfg, v, st) && Within(cfg, caps, length, st) && OnSweeps(cfg, hist, length, fs, st)
    requires Stored(cfg, hist, length, Handle(cfg, v, OPEN, st).1)
    ensures var (st', sent, keep) := Handle(cfg, v, OPEN, st);
            keep && OnSweeps(cfg, hist, length, fs + sent, st')
  {
    hide Handle, Callable, S.Chain, S.Standing, Stored, Edged, Shows, Within, Clear, StateOk;
    S.CallExtends(cfg, v, st, fs);
    CallableParts(cfg, v, st);
    ClearStays(cfg, v, st);
    StoredAppend(cfg, hist, length, fs, Handle(cfg, v, OPEN, st).1);
    CallEdged(cfg, hist, length, caps, v, st, fs);
  }

  lemma CallableParts(cfg: Config, v: View, st: State)
    requires Callable(cfg, v, st)
    ensures ValidConfig(cfg) && Progress(cfg) && Guarded(cfg) && InRange(cfg, v) && StateOk(cfg, st)
  {
  }

  /** A whole capture with a repeating in-stream trigger: packets of at most `most`
      samples in a ring with room for its windows and its offset. What the object has sent
      is whole disjoint sweeps, every chunk the mean of its window of what was captured;
      and without forced triggers every sweep starts `offset` after an edge. */
  method Sweeps(dev: Device, l: L.Listener, packets: seq<seq<T.Quad<Sample>>>, most: nat)
    returns (ghost frames: seq<Frame>)
    requires Live(dev, l) && S.Repeating(l.cfg) && l.cfg.trigger.InStream? && l.outbox == []
    requires l.State() == State(l.index, 0, false, l.index + l.cfg.force, 0.0) && l.index + 1 + l.cfg.offset >= 0
    requires Room(l.cfg, dev.captureSamples, most) && forall i :: 0 <= i < |packets| ==> |packets[i]| <= most
    requires packets != [] ==> Within(l.cfg, dev.captureSamples, dev.captureI + |packets[0]|, l.State())
    modifies dev`captureI, dev`history, dev`pending, dev.Repr - {dev}, l
    ensures Live(dev, l) && L.Rectangular(frames) && l.outbox == L.RenderAll(l.cfg, l.bits, frames)
    ensures S.Layout(l.cfg, S.SweepsOf(l.cfg, frames))
    ensures AllFaithful(l.cfg, dev.history, dev.captureI, frames)
    ensures Sharp(l.cfg) ==> AtEdges(l.cfg, Watched(l.cfg, dev.history), frames)
  {
    hide Agrees, T.Received, C.Extends, Handle, Callable, L.RenderAll, L.Rectangular, S.Chain, S.Standing, S.Layout;
    hide Stored, Edged, Shows, Within, CaughtUp, Room, Following, Recorded, AllFaithful, AtEdges, S.SweepsOf;
    frames := [];
    NothingSwept(l.cfg, dev.history, dev.captureI, l.bits, l.State());
    for i := 0 to |packets|
      invariant Live(dev, l) && OnSweeps(l.cfg, dev.history, dev.captureI, frames, l.State())
      invariant L.Rectangular(frames) && l.outbox == L.RenderAll(l.cfg, l.bits, frames)
      invariant i < |packets| ==> Within(l.cfg, dev.captureSamples, dev.captureI + |packets[i]|, l.State())
    {
      ghost var h0, i0, st := dev.history, dev.captureI, l.State();
      var keep;
      ghost var more;
      keep, more := Packet(dev, l, packets[i]);
      SweepsGrow(l.cfg, h0, i0, dev.history, dev.captureI, frames, st);
      CallOnSweeps(l.cfg, dev.history, dev.captureI, dev.captureSamples, dev.Snapshot(), st, frames);
      L.RenderAppend(l.cfg, l.bits, frames, more);
      frames := frames + more;
      if i + 1 < |packets| {
        CaughtUpStaysWithin(l.cfg, dev.captureSamples, most, dev.captureI, dev.captureI + |packets[i + 1]|, l.State());
      }
    }
    SweepsSent(l.cfg, dev.history, dev.captureI, frames, l.State());
  }

  lemma NothingSwept(cfg: Config, hist: seq<seq<seq<Sample>>>, length: nat, bits: Sample -> F.Word32, st: State)
    requires S.Repeating(cfg) && cfg.trigger.InStream? && Recorded(cfg, hist, length)
    requires st == State(st.index, 0, false, st.index + cfg.force, 0.0) && st.index + 1 + cfg.offset >= 0
    ensures OnSweeps(cfg, hist, length, [], st) && L.Rectangular([]) && L.RenderAll(cfg, bits, []) == []
  {
  }

  lemma SweepsSent(cfg: Config, hist: seq<seq<seq<Sample>>>, length: nat, fs: seq<Frame>, st: State)
    requires S.Repeating(cfg) && Recorded(cfg, hist, length) && OnSweeps(cfg, hist, length, fs, st)
    ensures S.Layout(cfg, S.SweepsOf(cfg, fs)) && AllFaithful(cfg, hist, length, fs)
    ensures Sharp(cfg) ==> AtEdges(cfg, Watched(cfg, hist), fs)
  {
    hide S.Chain, S.Layout, S.SweepsOf, AllFaithful, AtEdges;
    S.ChainLayout(cfg, fs);
  }

  // ---- counted listeners ----

  lemma IdealJoin(h: seq<Sample>, start: nat, d: nat, out: nat, n: nat)
    ensures 0 <= out * d && Ideal(h, start, d, out + n) == Ideal(h, start, d, out) + Ideal(h, start + out * d, d, n)
  {
    Monotone(0, out, d);
    var all, rest := Ideal(h, start, d, out + n), Ideal(h, start + out * d, d, n);
    forall k | 0 <= k < n
      ensures all[out + k] == rest[k]
    {
      assert (out + k) * d == out * d + k * d;
    }
  }

  /** The joined output of a faithful window is one run of ideal means. */
  lemma {:induction false} JoinedWindow(cfg: Config, hist: seq<seq<seq<Sample>>>, length: nat, fs: seq<Frame>,
                                        out: nat, x: nat)
    requires O.Window(cfg, fs, out) && fs != [] && Histories(cfg, hist, length) && x < |cfg.streams|
    requires AllFaithful(cfg, hist, length, fs)
    ensures Joined(fs, x)
         == Ideal(hist[cfg.streams[x].0][cfg.streams[x].1], fs[0].sampleIndex, cfg.decimate, out)
  {
    hide Ideal, Joined, Faithful, O.Window;
    var pre, f := fs[..|fs| - 1], fs[|fs| - 1];
    var h := hist[cfg.streams[x].0][cfg.streams[x].1];
    LastFrame(cfg, hist, length, fs, out, x);
    IdealJoin(h, fs[0].sampleIndex, cfg.decimate, f.idx, f.nchunks);
    if pre == [] {
      NoMeans(h, fs[0].sampleIndex, cfg.decimate);
    } else {
      PrefixFaithful(cfg, hist, length, fs);
      JoinedWindow(cfg, hist, length, pre, f.idx, x);
    }
  }

  lemma LastFrame(cfg: Config, hist: seq<seq<seq<Sample>>>, length: nat, fs: seq<Frame>, out: nat, x: nat)
    requires O.Window(cfg, fs, out) && fs != [] && Histories(cfg, hist, length) && x < |cfg.streams|
    requires AllFaithful(cfg, hist, length, fs)
    ensures var pre, f := fs[..|fs| - 1], fs[|fs| - 1];
            && O.Window(cfg, pre, f.idx) && out == f.idx + f.nchunks
            && f.sampleIndex == fs[0].sampleIndex + f.idx * cfg.decimate
            && Joined(fs, x)
               == Joined(pre, x)
                  + Ideal(hist[cfg.streams[x].0][cfg.streams[x].1], f.sampleIndex, cfg.decimate, f.nchunks)
            && (pre == [] ==> f.idx == 0 && Joined(pre, x) == [])
  {
    hide Ideal;
    assert Faithful(cfg, hist, length, fs[|fs| - 1]);
  }

  lemma NoMeans(h: seq<Sample>, start: nat, d: nat)
    ensures Ideal(h, start, d, 0) == []
  {
  }

  lemma PrefixFaithful(cfg: Config, hist: seq<seq<seq<Sample>>>, length: nat, fs: seq<Frame>)
    requires Histories(cfg, hist, length) && AllFaithful(cfg, hist, length, fs) && fs != []
    ensures AllFaithful(cfg, hist, length, fs[..|fs| - 1])
  {
  }

  /** What has been sent is the beginning of one window, every chunk of it faithful. */
  ghost predicate OnWindow(cfg: Config, hist: seq<seq<seq<Sample>>>, length: nat, start: nat, fs: seq<Frame>,
                           st: State)
    requires Recorded(cfg, hist, length)
  {
    && O.Window(cfg, fs, st.outIndex) && O.Standing(cfg, fs, st) && Stored(cfg, hist, length, fs)
    && (cfg.trigger.NoTrigger? ==> if fs == [] then st.index == start else fs[0].sampleIndex == start)
    && (Sharp(cfg) ==> AtEdges(cfg, Watched(cfg, hist), fs))
  }

  /** And the listener can be called again. */
  ghost predicate Ready(cfg: Config, hist: seq<seq<seq<Sample>>>, length: nat, st: State)
    requires Recorded(cfg, hist, length)
  {
    StateOk(cfg, st) && Clear(cfg, st) && Edged(cfg, hist, length, [], st)
  }

  lemma WindowGrows(cfg: Config, hist: seq<seq<seq<Sample>>>, length: nat, longer: seq<seq<seq<Sample>>>, length': nat,
                    start: nat, fs: seq<Frame>, st: State)
    requires Recorded(cfg, hist, length) && Recorded(cfg, longer, length') && length <= length'
    requires C.Extends(hist, longer) && OnWindow(cfg, hist, length, start, fs, st) && Ready(cfg, hist, length, st)
    ensures OnWindow(cfg, longer, length', start, fs, st) && Ready(cfg, longer, length', st)
  {
    hide O.Window, O.Standing, Stored, C.Extends;
    StoredGrows(cfg, hist, length, longer, length', fs);
    EdgedGrows(cfg, hist, length, longer, length', fs, st);
    EdgedGrows(cfg, hist, length, longer, length', [], st);
  }

  lemma StaysReady(cfg: Config, v: View, st: State)
    requires O.Counted(cfg) && !cfg.trigger.OutSource? && Callable(cfg, v, st) && Clear(cfg, st)
    ensures var (st', _, keep) := Handle(cfg, v, OPEN, st);
            keep ==> StateOk(cfg, st') && Clear(cfg, st')
  {
  }

  lemma CallOnWindow(cfg: Config, hist: seq<seq<seq<Sample>>>, length: nat, caps: nat, v: View, start: nat,
                     st: State, fs: seq<Frame>)
    requires O.Counted(cfg) && Following(cfg) && caps > 0
    requires Recorded(cfg, hist, length) && Shows(v, hist, length, caps) && v.captureI == length
    requires Callable(cfg, v, st) && Within(cfg, caps, length, st)
    requires OnWindow(cfg, hist, length, start, fs, st) && Ready(cfg, hist, length, st)
    requires Stored(cfg, hist, length, Handle(cfg, v, OPEN, st).1)
    ensures var (st', sent, keep) := Handle(cfg, v, OPEN, st);
            && OnWindow(cfg, hist, length, start, fs + sent, st')
            && (keep <==> st'.outIndex < cfg.count) && (keep ==> Ready(cfg, hist, length, st'))
  {
    hide Handle, Callable, O.Window, O.Standing, Stored, Shows, Within, Clear, StateOk, AtEdges, Latched;
    var sent := Handle(cfg, v, OPEN, st).1;
    O.CallExtends(cfg, v, st, fs);
    StaysReady(cfg, v, st);
    StoredAppend(cfg, hist, length, fs, sent);
    NothingAtEdges(cfg);
    CallEdged(cfg, hist, length, caps, v, st, []);
    if Sharp(cfg) {
      assert [] + sent == sent;
      AppendAtEdges(cfg, Watched(cfg, hist), fs, sent);
    }
    assert fs == [] ==> fs + sent == sent;
  }

  lemma NothingAtEdges(cfg: Config)
    ensures cfg.trigger.InStream? ==> forall h :: AtEdges(cfg, h, [])
  {
  }

  /** A whole capture with a counted listener that does not re-arm, untriggered or with an
      in-stream trigger. The joined output of every stream is one run of means of what was
      captured, from the start of the listener or `offset` after an edge; the listener
      leaves with the chunk that completes the count and not before. */
  method Window(dev: Device, l: L.Listener, packets: seq<seq<T.Quad<Sample>>>, most: nat)
    returns (keep: bool, ghost frames: seq<Frame>)
    requires Live(dev, l) && O.Counted(l.cfg) && l.outbox == []
    requires l.State() == State(l.index, 0, false, l.forceIndex, 0.0) && Clear(l.cfg, l.State())
    requires Room(l.cfg, dev.captureSamples, most) && forall i :: 0 <= i < |packets| ==> |packets[i]| <= most
    requires packets != [] ==> Within(l.cfg, dev.captureSamples, dev.captureI + |packets[0]|, l.State())
    modifies dev`captureI, dev`history, dev`pending, dev.Repr - {dev}, l
    ensures Live(dev, l) && L.Rectangular(frames) && l.outbox == L.RenderAll(l.cfg, l.bits, frames)
    ensures O.Window(l.cfg, frames, l.outIndex) && (keep <==> l.outIndex < l.cfg.count)
    ensures keep && packets != [] && Delivering(l.cfg, l.State()) ==> dev.captureI <= l.index + l.cfg.decimate
    ensures frames != [] ==> forall x :: 0 <= x < |l.cfg.streams| ==>
              Joined(frames, x)
              == Ideal(dev.history[l.cfg.streams[x].0][l.cfg.streams[x].1], frames[0].sampleIndex, l.cfg.decimate,
                       l.outIndex)
    ensures frames != [] && l.cfg.trigger.NoTrigger? ==> frames[0].sampleIndex == old(l.index)
    ensures frames != [] && Sharp(l.cfg) ==>
              Edge(Watched(l.cfg, dev.history), l.cfg.trigger.level, frames[0].sampleIndex - l.cfg.offset)
  {
    hide Agrees, T.Received, C.Extends, Handle, Callable, L.RenderAll, L.Rectangular, O.Window, O.Standing;
    hide Stored, Edged, Shows, Within, Room, Following, Recorded, AllFaithful, AtEdges, Joined, Ideal, Clear, Sharp;
    keep, frames := true, [];
    ghost var start := l.index;
    NothingYet(l.cfg, dev.history, dev.captureI, l.bits, l.State());
    var i := 0;
    while i < |packets| && keep
      invariant 0 <= i <= |packets| && Live(dev, l)
      invariant OnWindow(l.cfg, dev.history, dev.captureI, start, frames, l.State())
      invariant keep <==> l.outIndex < l.cfg.count
      invariant keep ==> Ready(l.cfg, dev.history, dev.captureI, l.State())
      invariant L.Rectangular(frames) && l.outbox == L.RenderAll(l.cfg, l.bits, frames)
      invariant keep && i > 0 ==> CaughtUp(l.cfg, dev.captureI, l.State())
      invariant keep && i < |packets| ==>
                  Within(l.cfg, dev.captureSamples, dev.captureI + |packets[i]|, l.State())
    {
      ghost var h0, i0, st := dev.history, dev.captureI, l.State();
      ghost var more;
      keep, more := Packet(dev, l, packets[i]);
      WindowGrows(l.cfg, h0, i0, dev.history, dev.captureI, start, frames, st);
      CallOnWindow(l.cfg, dev.history, dev.captureI, dev.captureSamples, dev.Snapshot(), start, st, frames);
      L.RenderAppend(l.cfg, l.bits, frames, more);
      frames := frames + more;
      if keep && i + 1 < |packets| {
        CaughtUpStaysWithin(l.cfg, dev.captureSamples, most, dev.captureI, dev.captureI + |packets[i + 1]|, l.State());
      }
      i := i + 1;
    }
    WindowSent(l.cfg, dev.history, dev.captureI, start, frames, l.State());
  }

  lemma NothingYet(cfg: Config, hist: seq<seq<seq<Sample>>>, length: nat, bits: Sample -> F.Word32, st: State)
    requires O.Counted(cfg) && Following(cfg) && Recorded(cfg, hist, length)
    requires st == State(st.index, 0, false, st.forceIndex, 0.0) && Clear(cfg, st)
    ensures OnWindow(cfg, hist, length, st.index, [], st) && Ready(cfg, hist, length, st)
    ensures L.Rectangular([]) && L.RenderAll(cfg, bits, []) == []
  {
  }

  lemma WindowSent(cfg: Config, hist: seq<seq<seq<Sample>>>, length: nat, start: nat, fs: seq<Frame>, st: State)
    requires Recorded(cfg, hist, length) && OnWindow(cfg, hist, length, start, fs, st)
    ensures fs != [] ==> forall x :: 0 <= x < |cfg.streams| ==>
              Joined(fs, x)
              == Ideal(hist[cfg.streams[x].0][cfg.streams[x].1], fs[0].sampleIndex, cfg.decimate, st.outIndex)
    ensures fs != [] && Sharp(cfg) ==> Edge(Watched(cfg, hist), cfg.trigger.level, fs[0].sampleIndex - cfg.offset)
  {
    hide Ideal, Joined, Edge;
    if fs != [] {
      FirstIsZero(cfg, fs, st.outIndex);
      forall x | 0 <= x < |cfg.streams|
        ensures Joined(fs, x)
             == Ideal(hist[cfg.streams[x].0][cfg.streams[x].1], fs[0].sampleIndex, cfg.decimate, st.outIndex)
      {
        JoinedWindow(cfg, hist, length, fs, st.outIndex, x);
      }
    }
  }

  lemma {:induction false} FirstIsZero(cfg: Config, fs: seq<Frame>, out: nat)
    requires O.Window(cfg, fs, out) && fs != []
    ensures fs[0].idx == 0
  {
    if |fs| > 1 {
      FirstIsZero(cfg, fs[..|fs| - 1], fs[|fs| - 1].idx);
    }
  }
}
