/** What a repeating trigger promises over whole runs (src/listener.rs): every
    completed sweep is `count` chunks of one contiguous window, and the windows of
    successive sweeps are disjoint and increasing, even with a negative offset. */
module Sweeps {
  import opened Common
  import opened RingBuffer
  import opened ListenerModel

  predicate Repeating(cfg: Config) {
    ValidConfig(cfg) && cfg.repeat && cfg.count > 0 && !cfg.sink.Rest?
  }

  /** The condition under which sweeps cannot overlap, known when the listener is made. */
  predicate Apart(cfg: Config) {
    match cfg.trigger
    case NoTrigger => true
    case InStream(_, _, _) => cfg.offset + cfg.holdoff >= -1
    case OutSource(_) => cfg.offset + cfg.holdoff >= 0 && (cfg.force != 0 ==> cfg.force + cfg.holdoff >= 0)
  }

  /** A non-negative holdoff, with the constructor's guard, is enough; and windows that
      stay apart make every re-arm progress. */
  lemma HoldoffKeepsApart(cfg: Config)
    requires ValidConfig(cfg) && Guarded(cfg)
    ensures cfg.holdoff >= 0 ==> Apart(cfg)
    ensures Apart(cfg) ==> Progress(cfg)
  {
    if cfg.count > 0 {
      Monotone(1, cfg.count, cfg.decimate);
    }
  }

  /** One past the last sample of a frame. */
  function End(cfg: Config, f: Frame): nat {
    ChunkStart(cfg, f.sampleIndex, f.nchunks)
  }

  /** g directly follows f: it continues the sweep where f ended, or f completed its
      sweep and g starts a new one at or beyond f's end. */
  predicate Linked(cfg: Config, f: Frame, g: Frame) {
    if f.idx + f.nchunks < cfg.count then g.idx == f.idx + f.nchunks && g.sampleIndex == End(cfg, f)
    else g.idx == 0 && g.sampleIndex >= End(cfg, f)
  }

  predicate Whole(cfg: Config, f: Frame) {
    f.nchunks >= 1 && f.idx + f.nchunks <= cfg.count
  }

  /** The cursor after frame f, when `captureI` samples were in. */
  predicate After(cfg: Config, f: Frame, st: State, captureI: nat) {
    && Whole(cfg, f) && End(cfg, f) <= captureI
    && if f.idx + f.nchunks < cfg.count then
         st.triggered && st.outIndex == f.idx + f.nchunks && st.index == End(cfg, f)
       else st.outIndex == 0 && Beyond(cfg, End(cfg, f), st)
  }

  /** The next window cannot start before `end`. */
  predicate Beyond(cfg: Config, end: nat, st: State) {
    if st.triggered then st.index >= end
    else match cfg.trigger
      case NoTrigger => false
      case InStream(_, _, _) => st.index + 1 + cfg.offset >= end
      case OutSource(_) => st.index + cfg.offset >= end && (cfg.force != 0 ==> st.forceIndex >= end)
  }

  /** Looking for a trigger keeps the next window beyond `end`. */
  lemma FindStaysBeyond(cfg: Config, v: View, st: State, end: nat)
    requires Repeating(cfg) && InRange(cfg, v) && Fits(cfg, v, st) && !st.triggered && st.outIndex == 0
    requires Beyond(cfg, end, st) && end <= v.captureI
    ensures var (st', found) := FindTrigger(cfg, v, st);
            Beyond(cfg, end, st') && st'.outIndex == 0 && st'.triggered == found
  {
  }

  /** Delivering from a triggered cursor beyond `end`, or mid-sweep, yields one frame
      that starts there, and leaves the cursor after it. */
  lemma DeliverLinks(cfg: Config, v: View, st: State)
    requires Repeating(cfg) && Apart(cfg) && !cfg.trigger.NoTrigger?
    requires InRange(cfg, v) && StateOk(cfg, st) && st.triggered
    ensures var pass := Deliver(cfg, v, OPEN, st);
            && |pass.Sent()| <= 1
            && (pass.Sent() == [] ==> pass == Return(st, true, []))
            && (pass.Sent() != [] ==>
                  var f := pass.Sent()[0];
                  && f.idx == st.outIndex && f.sampleIndex == st.index && |f.data| == |cfg.streams|
                  && After(cfg, f, pass.st, v.captureI))
            && (pass.Return? ==> pass.keep)
  {
    var n := Available(cfg, v.captureI, st);
    if n > 0 {
      Monotone(n, (v.captureI - st.index) / cfg.decimate, cfg.decimate);
    }
  }

  /** The state of a run: nothing sent yet, or the cursor stands after the last frame. */
  predicate Standing(cfg: Config, fs: seq<Frame>, st: State, captureI: nat) {
    if fs == [] then st.outIndex == 0 else After(cfg, fs[|fs| - 1], st, captureI)
  }

  /** A well-formed delivery log: whole frames, the first starting a sweep, each linked
      to the one before. */
  predicate Chain(cfg: Config, fs: seq<Frame>) {
    && (forall i :: 0 <= i < |fs| ==> Whole(cfg, fs[i]))
    && (fs != [] ==> fs[0].idx == 0)
    && (forall i :: 0 <= i < |fs| - 1 ==> Linked(cfg, fs[i], fs[i + 1]))
  }

  lemma ChainSnoc(cfg: Config, fs: seq<Frame>, g: Frame)
    requires Chain(cfg, fs) && Whole(cfg, g)
    requires if fs == [] then g.idx == 0 else Linked(cfg, fs[|fs| - 1], g)
    ensures Chain(cfg, fs + [g])
  {
    var gs := fs + [g];
    forall i | 0 <= i < |gs| - 1
      ensures Linked(cfg, gs[i], gs[i + 1])
    {
      if i < |fs| - 1 {
        assert gs[i] == fs[i] && gs[i + 1] == fs[i + 1];
      }
    }
  }

  /** One turn of the loop extends the chain. */
  lemma PassExtends(cfg: Config, v: View, st: State, fs: seq<Frame>)
    requires Repeating(cfg) && Apart(cfg) && !cfg.trigger.NoTrigger? && Callable(cfg, v, st)
    requires Chain(cfg, fs) && Standing(cfg, fs, st, v.captureI)
    ensures var pass := OnePass(cfg, v, OPEN, st);
            && Chain(cfg, fs + pass.Sent()) && Standing(cfg, fs + pass.Sent(), pass.st, v.captureI)
            && (pass.Return? ==> pass.keep)
  {
    hide Deliver, Fits, FindTrigger, After;
    var pass := OnePass(cfg, v, OPEN, st);
    if st.triggered {
      DeliverLinks(cfg, v, st);
      ExtendChain(cfg, v, st, fs, pass);
    } else {
      var (st', found) := FindTrigger(cfg, v, st);
      ArmedStands(cfg, v, st, fs);
      if found {
        DeliverLinks(cfg, v, st');
        ExtendChain(cfg, v, st', fs, pass);
      } else {
        assert fs + [] == fs;
      }
    }
  }

  lemma ArmedStands(cfg: Config, v: View, st: State, fs: seq<Frame>)
    requires Repeating(cfg) && !cfg.trigger.NoTrigger? && Callable(cfg, v, st) && !st.triggered
    requires Standing(cfg, fs, st, v.captureI)
    ensures var (st', found) := FindTrigger(cfg, v, st);
            Standing(cfg, fs, st', v.captureI) && StateOk(cfg, st') && st'.triggered == found && st'.outIndex == 0
  {
    if fs != [] {
      FindStaysBeyond(cfg, v, st, End(cfg, fs[|fs| - 1]));
    }
  }

  lemma ExtendChain(cfg: Config, v: View, st: State, fs: seq<Frame>, pass: Pass)
    requires Chain(cfg, fs) && Standing(cfg, fs, st, v.captureI) && st.triggered
    requires |pass.Sent()| <= 1 && (pass.Sent() == [] ==> pass.st == st)
    requires pass.Sent() != [] ==>
               var f := pass.Sent()[0];
               f.idx == st.outIndex && f.sampleIndex == st.index && After(cfg, f, pass.st, v.captureI)
    ensures Chain(cfg, fs + pass.Sent()) && Standing(cfg, fs + pass.Sent(), pass.st, v.captureI)
  {
    if pass.Sent() == [] {
      assert fs + [] == fs;
    } else {
      assert pass.Sent() == [pass.Sent()[0]];
      ChainSnoc(cfg, fs, pass.Sent()[0]);
    }
  }

  /** A whole call extends the chain, however many sweeps it delivers. */
  lemma {:induction false} CallExtends(cfg: Config, v: View, st: State, fs: seq<Frame>)
    requires Repeating(cfg) && Apart(cfg) && !cfg.trigger.NoTrigger? && Callable(cfg, v, st)
    requires Chain(cfg, fs) && Standing(cfg, fs, st, v.captureI)
    ensures var (st', sent, keep) := Handle(cfg, v, OPEN, st);
            Chain(cfg, fs + sent) && Standing(cfg, fs + sent, st', v.captureI) && keep
    decreases if st.triggered then 1 else 0, Distance(cfg, v.captureI, st)
  {
    var pass := OnePass(cfg, v, OPEN, st);
    hide OnePass, Callable, Chain, Standing, Distance;
    PassExtends(cfg, v, st, fs);
    HandleTurn(cfg, v, OPEN, st, fs);
    if pass.Rearm? {
      CallExtends(cfg, v, pass.st, fs + pass.Sent());
    }
  }

  // ---- whole runs ----

  /** A run between two capture resets: calls on successive views, none of which
      finds a first trigger reaching below sample zero. */
  ghost predicate Runnable(cfg: Config, st: State, views: seq<View>)
    requires Repeating(cfg)
    decreases |views|
  {
    views != [] ==>
      Callable(cfg, views[0], st) && Runnable(cfg, Handle(cfg, views[0], OPEN, st).0, views[1..])
  }

  ghost function Sent(cfg: Config, st: State, views: seq<View>): seq<Frame>
    requires Repeating(cfg) && Runnable(cfg, st, views)
    decreases |views|
  {
    if views == [] then []
    else
      var (st', sent, _) := Handle(cfg, views[0], OPEN, st);
      sent + Sent(cfg, st', views[1..])
  }

  predicate Growing(views: seq<View>) {
    forall i, j :: 0 <= i <= j < |views| ==> views[i].captureI <= views[j].captureI
  }

  lemma GrowingTail(views: seq<View>)
    requires views != [] && Growing(views)
    ensures Growing(views[1..]) && (|views| > 1 ==> views[0].captureI <= views[1].captureI)
  {
  }

  lemma {:induction false} RunExtends(cfg: Config, st: State, views: seq<View>, fs: seq<Frame>, captureI: nat)
    requires Repeating(cfg) && Apart(cfg) && !cfg.trigger.NoTrigger? && Runnable(cfg, st, views) && Growing(views)
    requires Chain(cfg, fs) && Standing(cfg, fs, st, captureI)
    requires views != [] ==> captureI <= views[0].captureI
    ensures Chain(cfg, fs + Sent(cfg, st, views))
    decreases |views|
  {
    hide Handle, Callable, Chain, Standing, Growing, Sent, Runnable;
    RunUnfold(cfg, st, views);
    if views == [] {
      assert fs + [] == fs;
    } else {
      GrowingTail(views);
      StandingLater(cfg, fs, st, captureI, views[0].captureI);
      CallExtends(cfg, views[0], st, fs);
      var (st', sent, _) := Handle(cfg, views[0], OPEN, st);
      RunExtends(cfg, st', views[1..], fs + sent, views[0].captureI);
      assert fs + sent + Sent(cfg, st', views[1..]) == fs + (sent + Sent(cfg, st', views[1..]));
    }
  }

  lemma StandingLater(cfg: Config, fs: seq<Frame>, st: State, captureI: nat, later: nat)
    requires Standing(cfg, fs, st, captureI) && captureI <= later
    ensures Standing(cfg, fs, st, later)
  {
  }

  lemma RunUnfold(cfg: Config, st: State, views: seq<View>)
    requires Repeating(cfg) && Runnable(cfg, st, views)
    ensures views == [] ==> Sent(cfg, st, views) == []
    ensures views != [] ==>
              Callable(cfg, views[0], st)
              && var (st', sent, _) := Handle(cfg, views[0], OPEN, st);
              Runnable(cfg, st', views[1..]) && Sent(cfg, st, views) == sent + Sent(cfg, st', views[1..])
  {
  }

  // ---- the sweeps of a log ----

  /** The device indices of a frame's chunks. */
  function Positions(cfg: Config, f: Frame): (r: seq<nat>)
    ensures |r| == f.nchunks && forall k :: 0 <= k < |r| ==> r[k] == ChunkStart(cfg, f.sampleIndex, k)
  {
    seq(f.nchunks, k requires 0 <= k < f.nchunks => ChunkStart(cfg, f.sampleIndex, k))
  }

  /** The delivered chunk positions, grouped into sweeps: a frame with idx 0 starts one. */
  function SweepsOf(cfg: Config, fs: seq<Frame>): seq<seq<nat>> {
    if fs == [] then []
    else
      var pre, f := SweepsOf(cfg, fs[..|fs| - 1]), fs[|fs| - 1];
      if f.idx == 0 || pre == [] then pre + [Positions(cfg, f)]
      else pre[..|pre| - 1] + [pre[|pre| - 1] + Positions(cfg, f)]
  }

  /** One sweep: consecutive chunks of one window. */
  predicate Contiguous(cfg: Config, w: seq<nat>) {
    w != [] && forall k :: 0 <= k < |w| ==> w[k] == ChunkStart(cfg, w[0], k)
  }

  /** All sweeps but the last are complete; each starts at or beyond the end of the one
      before. */
  predicate Layout(cfg: Config, ws: seq<seq<nat>>) {
    && (forall q :: 0 <= q < |ws| ==> Contiguous(cfg, ws[q]) && |ws[q]| <= cfg.count)
    && (forall q :: 0 <= q < |ws| - 1 ==> |ws[q]| == cfg.count && ws[q + 1][0] >= ChunkStart(cfg, ws[q][0], cfg.count))
  }

  /** The last sweep ends with the last frame. */
  predicate EndsWith(cfg: Config, ws: seq<seq<nat>>, f: Frame) {
    && ws != [] && ws[|ws| - 1] != []
    && |ws[|ws| - 1]| == f.idx + f.nchunks
    && f.sampleIndex == ChunkStart(cfg, ws[|ws| - 1][0], f.idx)
  }

  lemma {:induction false} ChainLayout(cfg: Config, fs: seq<Frame>)
    requires cfg.count > 0 && Chain(cfg, fs)
    ensures Layout(cfg, SweepsOf(cfg, fs))
    ensures fs != [] ==> EndsWith(cfg, SweepsOf(cfg, fs), fs[|fs| - 1])
  {
    if fs != [] {
      var pre, f := fs[..|fs| - 1], fs[|fs| - 1];
      ChainLayout(cfg, pre);
      var ws := SweepsOf(cfg, pre);
      if pre == [] {
        StartSweep(cfg, ws, f);
      } else {
        assert Linked(cfg, fs[|fs| - 2], fs[|fs| - 2 + 1]);
        var g := pre[|pre| - 1];
        EndOfLast(cfg, ws, g);
        if f.idx == 0 {
          StartSweep(cfg, ws, f);
        } else {
          ContinueSweep(cfg, ws, f);
        }
      }
    }
  }

  lemma EndOfLast(cfg: Config, ws: seq<seq<nat>>, g: Frame)
    requires EndsWith(cfg, ws, g)
    ensures End(cfg, g) == ChunkStart(cfg, ws[|ws| - 1][0], g.idx + g.nchunks)
  {
    assert (g.idx + g.nchunks) * cfg.decimate == g.idx * cfg.decimate + g.nchunks * cfg.decimate;
  }

  lemma StartSweep(cfg: Config, ws: seq<seq<nat>>, f: Frame)
    requires Layout(cfg, ws) && Whole(cfg, f) && f.idx == 0
    requires ws != [] ==> |ws[|ws| - 1]| == cfg.count && f.sampleIndex >= ChunkStart(cfg, ws[|ws| - 1][0], cfg.count)
    ensures Layout(cfg, ws + [Positions(cfg, f)]) && EndsWith(cfg, ws + [Positions(cfg, f)], f)
  {
  }

  lemma ContinueSweep(cfg: Config, ws: seq<seq<nat>>, f: Frame)
    requires Layout(cfg, ws) && ws != [] && Whole(cfg, f) && f.idx == |ws[|ws| - 1]|
    requires f.sampleIndex == ChunkStart(cfg, ws[|ws| - 1][0], f.idx)
    ensures var ws' := ws[..|ws| - 1] + [ws[|ws| - 1] + Positions(cfg, f)];
            Layout(cfg, ws') && EndsWith(cfg, ws', f)
  {
    var w, last := ws[|ws| - 1], |ws| - 1;
    var w' := w + Positions(cfg, f);
    forall k | 0 <= k < |w'|
      ensures w'[k] == ChunkStart(cfg, w[0], k)
    {
      if k >= |w| {
        assert k * cfg.decimate == |w| * cfg.decimate + (k - |w|) * cfg.decimate;
      }
    }
    var ws' := ws[..last] + [w'];
    forall q | 0 <= q < |ws'| - 1
      ensures |ws'[q]| == cfg.count && ws'[q + 1][0] >= ChunkStart(cfg, ws'[q][0], cfg.count)
    {
      assert ws'[q] == ws[q] && ws'[q + 1][0] == ws[q + 1][0];
    }
  }

  /** Main theorem. Between capture resets, whatever the packets, the samples and the
      forced triggers: every completed sweep is exactly `count` chunks of one
      contiguous window, and each window starts at or beyond the end of the previous. */
  lemma SweepsNeverOverlap(cfg: Config, start: nat, views: seq<View>)
    requires Repeating(cfg) && Apart(cfg) && !cfg.trigger.NoTrigger?
    requires var st := State(start, 0, false, start + cfg.force, 0.0); Runnable(cfg, st, views)
    requires Growing(views)
    ensures Layout(cfg, SweepsOf(cfg, Sent(cfg, State(start, 0, false, start + cfg.force, 0.0), views)))
  {
    var st := State(start, 0, false, start + cfg.force, 0.0);
    RunExtends(cfg, st, views, [], 0);
    assert [] + Sent(cfg, st, views) == Sent(cfg, st, views);
    ChainLayout(cfg, Sent(cfg, st, views));
  }
}
