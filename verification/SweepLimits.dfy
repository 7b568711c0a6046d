/** How sharp the conditions of module Sweeps are: which calls can be made at all, that
    a call ends on all inputs exactly under `Progress`, and that sweeps are disjoint on
    all runs exactly under `Apart`. */
module SweepLimits {
  import opened Common
  import opened Samples
  import opened Sources
  import opened RingBuffer
  import opened ListenerModel
  import opened Sweeps
  import opened Witnesses

  // ---- only the offset of the first trigger can reach below sample zero ----

  /** From here on no trigger can reach below sample zero. */
  predicate Clear(cfg: Config, st: State) {
    st.triggered ||
    match cfg.trigger
    case NoTrigger => true
    case InStream(_, _, _) => st.index + 1 + cfg.offset >= 0
    case OutSource(_) => st.index + cfg.offset >= 0
  }

  lemma ClearFits(cfg: Config, v: View, st: State)
    requires InRange(cfg, v) && Clear(cfg, st)
    ensures Fits(cfg, v, st)
  {
  }

  /** A call from a clear state leaves a clear state with the cursor invariant. */
  lemma {:induction false} ClearStays(cfg: Config, v: View, st: State)
    requires Repeating(cfg) && !cfg.trigger.NoTrigger? && Callable(cfg, v, st) && Clear(cfg, st)
    ensures var st' := Handle(cfg, v, OPEN, st).0; Clear(cfg, st') && StateOk(cfg, st')
    decreases if st.triggered then 1 else 0, Distance(cfg, v.captureI, st)
  {
    var pass := OnePass(cfg, v, OPEN, st);
    HandleTurn(cfg, v, OPEN, st, []);
    if pass.Rearm? {
      RearmStaysAhead(cfg, v, OPEN, st);
      ClearStays(cfg, v, pass.st);
    } else {
      PassStaysClear(cfg, v, st);
    }
  }

  lemma PassStaysClear(cfg: Config, v: View, st: State)
    requires Repeating(cfg) && !cfg.trigger.NoTrigger? && Callable(cfg, v, st) && Clear(cfg, st)
    requires OnePass(cfg, v, OPEN, st).Return?
    ensures var st' := OnePass(cfg, v, OPEN, st).st; Clear(cfg, st') && StateOk(cfg, st')
  {
  }

  /** Once the listener has triggered, or starts far enough from sample zero, every call
      up to the next capture reset can be made: the offset of no later trigger reaches
      below sample zero. */
  lemma {:induction false} ClearRuns(cfg: Config, st: State, views: seq<View>)
    requires Repeating(cfg) && Progress(cfg) && Guarded(cfg) && !cfg.trigger.NoTrigger?
    requires StateOk(cfg, st) && Clear(cfg, st)
    requires forall i :: 0 <= i < |views| ==> InRange(cfg, views[i])
    ensures Runnable(cfg, st, views)
    decreases |views|
  {
    if views != [] {
      ClearFits(cfg, views[0], st);
      ClearStays(cfg, views[0], st);
      ClearRuns(cfg, Handle(cfg, views[0], OPEN, st).0, views[1..]);
    }
  }

  /** With a non-negative offset, or a start at least -offset - 1, the sweep theorem
      needs nothing but streams that exist and samples that only accumulate. */
  lemma SweepsNeverOverlapFromStart(cfg: Config, start: nat, views: seq<View>)
    requires Repeating(cfg) && Apart(cfg) && Guarded(cfg) && !cfg.trigger.NoTrigger?
    requires forall i :: 0 <= i < |views| ==> InRange(cfg, views[i])
    requires Growing(views) && start + cfg.offset >= (if cfg.trigger.InStream? then -1 else 0)
    ensures var st := State(start, 0, false, start + cfg.force, 0.0);
            Runnable(cfg, st, views) && Layout(cfg, SweepsOf(cfg, Sent(cfg, st, views)))
  {
    HoldoffKeepsApart(cfg);
    ClearRuns(cfg, State(start, 0, false, start + cfg.force, 0.0), views);
    SweepsNeverOverlap(cfg, start, views);
  }

  // ---- termination exactly under Progress ----

  /** From this cursor the loop delivers a sweep and re-arms. */
  ghost predicate Rearms(cfg: Config, v: View, st: State)
    requires ValidConfig(cfg) && InRange(cfg, v)
  {
    StateOk(cfg, st) && Fits(cfg, v, st) && OnePass(cfg, v, OPEN, st).Rearm?
  }

  /** Some set of cursors from each of which the loop re-arms back into the set, so
      that one call never ends. */
  ghost predicate Endless(cfg: Config, v: View, cursors: iset<State>)
    requires ValidConfig(cfg) && InRange(cfg, v)
  {
    && (exists st :: st in cursors)
    && forall st :: st in cursors ==> Rearms(cfg, v, st) && OnePass(cfg, v, OPEN, st).st in cursors
  }

  /** Under Progress re-arming leads out of any set of cursors. */
  lemma {:induction false} ProgressLeaves(cfg: Config, v: View, cursors: iset<State>, st: State) returns (last: State)
    requires Repeating(cfg) && Guarded(cfg) && Progress(cfg) && InRange(cfg, v)
    requires st in cursors && forall c :: c in cursors ==> Rearms(cfg, v, c)
    ensures last in cursors && Rearms(cfg, v, last) && OnePass(cfg, v, OPEN, last).st !in cursors
    decreases if st.triggered then 1 else 0, Distance(cfg, v.captureI, st)
  {
    hide OnePass, Distance, Progress, Fits, StateOk;
    assert Rearms(cfg, v, st);
    var next := OnePass(cfg, v, OPEN, st).st;
    if next !in cursors {
      return st;
    }
    RearmStaysAhead(cfg, v, OPEN, st);
    if !st.triggered {
      RearmAdvances(cfg, v, OPEN, st);
    }
    last := ProgressLeaves(cfg, v, cursors, next);
  }

  /** Without progress an in-stream listener can loop for ever: some device state and
      cursor make the loop deliver a sweep and return to that very cursor. */
  lemma InStreamLoops(cfg: Config) returns (v: View, st: State)
    requires Repeating(cfg) && Guarded(cfg) && cfg.trigger.InStream? && !Progress(cfg)
    ensures InRange(cfg, v) && Rearms(cfg, v, st) && OnePass(cfg, v, OPEN, st).st == st
  {
    var level := cfg.trigger.level;
    Monotone(0, cfg.count, cfg.decimate);
    var advance := cfg.offset + cfg.count * cfg.decimate + cfg.holdoff;
    var e := -advance;
    var samples := TwoEdges(level, e, e, e + cfg.offset + cfg.count * cfg.decimate + cfg.decimate + 1);
    v := Uniform(cfg, samples, None);
    st := State(0, 0, false, cfg.force, 0.0);
    FirstEdgeIs(samples, level, 1, e);
    EdgePass(cfg, v, st, e);
  }

  /** The same for an out-source trigger whose sweep, offset and holdoff do not move
      past the phase zero that fired it. */
  lemma OutSourceLoops(cfg: Config) returns (v: View, st: State)
    requires Repeating(cfg) && Guarded(cfg) && cfg.trigger.OutSource?
    requires cfg.offset + cfg.count * cfg.decimate + cfg.holdoff <= 0
    ensures InRange(cfg, v) && Rearms(cfg, v, st) && OnePass(cfg, v, OPEN, st).st == st
  {
    hide OnePass, Fits;
    Monotone(0, cfg.count, cfg.decimate);
    var sweep := cfg.count * cfg.decimate;
    var z: nat := -(cfg.offset + sweep + cfg.holdoff);
    var n := z + cfg.offset + sweep + cfg.decimate + 1;
    v := Uniform(cfg, Flat(0.0, n), Some(SquareAt(z, n)));
    st := State(0, 0, false, cfg.force, 0.0);
    SquareZeros(z, n, 0);
    ZeroPass(cfg, v, st, z);
  }

  /** Armed cursors with an index between two bounds. */
  ghost function Band(cfg: Config, low: nat, high: nat): iset<State> {
    iset st: State | low <= st.index <= high && st == State(st.index, 0, false, st.index + cfg.force, 0.0)
  }

  /** And for one whose forced sweeps do not advance: forced triggers move the cursor
      back and a phase zero moves it forward, for ever within a band. */
  lemma ForcedLoops(cfg: Config) returns (v: View, low: nat, high: nat)
    requires Repeating(cfg) && Guarded(cfg) && cfg.trigger.OutSource? && cfg.force != 0
    requires cfg.offset + cfg.count * cfg.decimate + cfg.holdoff > 0
    requires cfg.force + cfg.count * cfg.decimate + cfg.holdoff <= 0
    ensures InRange(cfg, v) && Endless(cfg, v, Band(cfg, low, high))
  {
    var sweep := cfg.count * cfg.decimate;
    Monotone(0, cfg.count, cfg.decimate);
    var forward, back := cfg.offset + sweep + cfg.holdoff, -(cfg.force + sweep + cfg.holdoff);
    var z := Max(back, -cfg.offset);
    low, high := z - back, z + forward;
    var n := high + Max(0, cfg.offset) + cfg.force + sweep + cfg.decimate + 1;
    v := Uniform(cfg, Flat(0.0, n), Some(SquareAt(z, n + 1)));
    var cursors := Band(cfg, low, high);
    assert State(low, 0, false, low + cfg.force, 0.0) in cursors;
    forall st | st in cursors
      ensures Rearms(cfg, v, st) && OnePass(cfg, v, OPEN, st).st in cursors
    {
      BandPass(cfg, v, z, n, low, high, st);
    }
  }

  lemma BandPass(cfg: Config, v: View, z: nat, n: nat, low: nat, high: nat, st: State)
    requires Repeating(cfg) && cfg.trigger.OutSource? && cfg.force != 0 && InRange(cfg, v)
    requires st in Band(cfg, low, high) && z + cfg.offset >= 0 && n == v.captureI == v.captureO > 0
    requires v.sources[cfg.trigger.outChannel] == Some(SquareAt(z, n + 1))
    requires var sweep := cfg.count * cfg.decimate;
             && low == z + (cfg.force + sweep + cfg.holdoff) <= z
             && high == z + cfg.offset + sweep + cfg.holdoff > z
             && n > high + Max(0, cfg.offset) + cfg.force + sweep + cfg.decimate
    ensures Rearms(cfg, v, st) && OnePass(cfg, v, OPEN, st).st in Band(cfg, low, high)
  {
    hide OnePass, Fits, PhaseZeroAfter;
    var sweep := cfg.count * cfg.decimate;
    Monotone(0, cfg.count, cfg.decimate);
    SquareZeros(z, n + 1, st.index);
    if st.index <= z {
      ZeroPass(cfg, v, st, z);
      assert OnePass(cfg, v, OPEN, st).st == State(high, 0, false, high + cfg.force, 0.0);
    } else {
      ForcedPass(cfg, v, st, z + (z + n + 1));
      var i: nat := st.forceIndex + sweep + cfg.holdoff;
      assert OnePass(cfg, v, OPEN, st).st == State(i, 0, false, i + cfg.force, 0.0);
    }
  }

  /** Main theorem: the loop of `handle_new_data` ends on all inputs exactly when the
      configuration makes progress, which is known when the listener is made. */
  lemma TerminatesExactlyUnderProgress(cfg: Config)
    requires Repeating(cfg) && Guarded(cfg) && !cfg.trigger.NoTrigger?
    ensures Progress(cfg) <==> forall v: View, cursors: iset<State> :: InRange(cfg, v) ==> !Endless(cfg, v, cursors)
  {
    hide OnePass, Fits;
    if Progress(cfg) {
      forall v: View, cursors: iset<State> | InRange(cfg, v)
        ensures !Endless(cfg, v, cursors)
      {
        if (exists st :: st in cursors) && forall st :: st in cursors ==> Rearms(cfg, v, st) {
          var st :| st in cursors;
          var last := ProgressLeaves(cfg, v, cursors, st);
        }
      }
    } else if cfg.trigger.InStream? {
      var v, st := InStreamLoops(cfg);
      assert st in iset{st};
      assert Endless(cfg, v, iset{st});
    } else if cfg.offset + cfg.count * cfg.decimate + cfg.holdoff <= 0 {
      var v, st := OutSourceLoops(cfg);
      assert st in iset{st};
      assert Endless(cfg, v, iset{st});
    } else {
      var v, low, high := ForcedLoops(cfg);
      assert Endless(cfg, v, Band(cfg, low, high));
    }
  }

  // ---- disjoint sweeps exactly under Apart ----

  /** What the sweep theorem says of one run from a start. */
  ghost predicate Disjoint(cfg: Config, start: nat, views: seq<View>)
    requires Repeating(cfg)
  {
    var st := State(start, 0, false, start + cfg.force, 0.0);
    Runnable(cfg, st, views) && Growing(views) ==> Layout(cfg, SweepsOf(cfg, Sent(cfg, st, views)))
  }

  /** The log of a run starts with two whole sweeps, the second inside the first. */
  ghost predicate Overlap(cfg: Config, fs: seq<Frame>) {
    && |fs| >= 2 && fs[0].idx == 0 && fs[1].idx == 0 && fs[0].nchunks == cfg.count && fs[1].nchunks > 0
    && fs[1].sampleIndex < End(cfg, fs[0])
  }

  lemma {:induction false} FirstTwoSweeps(cfg: Config, fs: seq<Frame>)
    requires cfg.count > 0 && Overlap(cfg, fs)
    ensures var ws := SweepsOf(cfg, fs);
            && |ws| >= 2 && ws[0] == Positions(cfg, fs[0])
            && ws[1] != [] && ws[1][0] == ChunkStart(cfg, fs[1].sampleIndex, 0)
  {
    var pre := fs[..|fs| - 1];
    if |fs| > 2 {
      FirstTwoSweeps(cfg, pre);
    } else {
      assert pre[..0] == [] && SweepsOf(cfg, pre[..0]) == [];
      assert SweepsOf(cfg, pre) == [Positions(cfg, fs[0])];
    }
  }

  lemma OverlapBreaksLayout(cfg: Config, fs: seq<Frame>)
    requires cfg.count > 0 && Overlap(cfg, fs)
    ensures !Layout(cfg, SweepsOf(cfg, fs))
  {
    FirstTwoSweeps(cfg, fs);
    var ws := SweepsOf(cfg, fs);
    assert ws[0][0] == ChunkStart(cfg, fs[0].sampleIndex, 0);
    var q := 0;
    assert ws[q + 1][0] < ChunkStart(cfg, ws[q][0], cfg.count);
  }

  /** Two passes in a row, in one call, from an armed or triggered cursor. */
  lemma TwoPasses(cfg: Config, v: View, st: State)
    requires Repeating(cfg) && Callable(cfg, v, st) && OnePass(cfg, v, OPEN, st).Rearm?
    requires var next := OnePass(cfg, v, OPEN, st).st; Fits(cfg, v, next) && OnePass(cfg, v, OPEN, next).Rearm?
    ensures var fs := Handle(cfg, v, OPEN, st).1;
            && |fs| >= 2 && fs[0] == OnePass(cfg, v, OPEN, st).frame
            && fs[1] == OnePass(cfg, v, OPEN, OnePass(cfg, v, OPEN, st).st).frame
  {
    var next := OnePass(cfg, v, OPEN, st).st;
    HandleTurn(cfg, v, OPEN, st, []);
    HandleTurn(cfg, v, OPEN, next, []);
  }

  lemma SingleCall(cfg: Config, v: View, st: State)
    requires Repeating(cfg) && Callable(cfg, v, st)
    ensures Runnable(cfg, st, [v]) && Sent(cfg, st, [v]) == Handle(cfg, v, OPEN, st).1
  {
    var after := Handle(cfg, v, OPEN, st).0;
    assert [v][1..] == [];
    assert Runnable(cfg, after, []) && Sent(cfg, after, []) == [];
  }

  /** Out-source sweeps at consecutive phase zeros overlap when the offset and the
      holdoff together are negative: every sample of a constant source is a phase zero. */
  lemma ZeroOverlaps(cfg: Config) returns (v: View)
    requires Repeating(cfg) && Guarded(cfg) && Progress(cfg) && cfg.trigger.OutSource? && cfg.offset + cfg.holdoff < 0
    ensures !Disjoint(cfg, 0, [v])
  {
    var sweep := cfg.count * cfg.decimate;
    Monotone(0, cfg.count, cfg.decimate);
    var advance := cfg.offset + sweep + cfg.holdoff;
    v := Uniform(cfg, Flat(0.0, advance + cfg.offset + sweep + cfg.decimate + 1), Some(Constant(0.0)));
    var st := State(0, 0, false, cfg.force, 0.0);
    ZeroPass(cfg, v, st, 0);
    var next := OnePass(cfg, v, OPEN, st).st;
    ZeroPass(cfg, v, next, advance);
    TwoPasses(cfg, v, st);
    SingleCall(cfg, v, st);
    OverlapBreaksLayout(cfg, Handle(cfg, v, OPEN, st).1);
  }

  /** Forced out-source sweeps overlap when the force and the holdoff together are
      negative, while the next phase zero is still to come. */
  lemma ForcedOverlaps(cfg: Config) returns (v: View)
    requires Repeating(cfg) && Guarded(cfg) && Progress(cfg) && cfg.trigger.OutSource?
    requires cfg.force != 0 && cfg.force + cfg.holdoff < 0 && cfg.offset + cfg.holdoff >= 0
    ensures !Disjoint(cfg, 0, [v])
  {
    hide PhaseZeroAfter, SquareAt;
    var sweep := cfg.count * cfg.decimate;
    Monotone(0, cfg.count, cfg.decimate);
    var advance := cfg.force + sweep + cfg.holdoff;
    var n := advance + cfg.force + sweep + cfg.decimate + 1;
    v := Uniform(cfg, Flat(0.0, n), Some(SquareAt(n + 1, 1)));
    var st := State(0, 0, false, cfg.force, 0.0);
    SquareZeros(n + 1, 1, 0);
    ForcedPass(cfg, v, st, n + 1);
    var next := OnePass(cfg, v, OPEN, st).st;
    SquareZeros(n + 1, 1, advance);
    ForcedPass(cfg, v, next, n + 1);
    TwoPasses(cfg, v, st);
    SingleCall(cfg, v, st);
    OverlapBreaksLayout(cfg, Handle(cfg, v, OPEN, st).1);
  }

  /** A signal above the level at 1 and at r + 1 only. */
  function TwoPulses(level: real, r: nat, n: nat): (h: seq<Sample>)
    ensures |h| == n
    ensures forall i :: 0 <= i < n ==> h[i] == if i == 1 || i == r + 1 then Num(level + 1.0) else Num(level)
  {
    seq(n, i => if i == 1 || i == r + 1 then Num(level + 1.0) else Num(level))
  }

  /** A call that finds the first pulse but cannot deliver yet. */
  lemma EarlyCall(cfg: Config, h: seq<Sample>, caps: nat, r: nat)
    requires Repeating(cfg) && Guarded(cfg) && Progress(cfg) && cfg.trigger.InStream? && cfg.offset >= 0
    requires 2 < caps && 2 <= |h| && h == TwoPulses(cfg.trigger.level, r, |h|) && r > 0
    ensures var v := Shown(cfg, h, caps, 2, None);
            && Callable(cfg, v, State(0, 0, false, cfg.force, 0.0))
            && Handle(cfg, v, OPEN, State(0, 0, false, cfg.force, 0.0))
               == (State(1 + cfg.offset, 0, true, cfg.force, 0.0), [], true)
  {
    FirstEdgeIs(Seen(h, caps, 2), cfg.trigger.level, 1, 1);
  }

  /** Room in the ring for a sweep and one decimation window. */
  function TightRing(cfg: Config): int {
    cfg.offset + cfg.count * cfg.decimate + cfg.decimate + 2
  }

  /** The call that completes that sweep once the ring has overwritten everything up to
      r, so that the sample after r counts as an edge. */
  lemma LateCall(cfg: Config, h: seq<Sample>, r: nat)
    requires Repeating(cfg) && Guarded(cfg) && Progress(cfg) && cfg.trigger.InStream? && cfg.offset >= 0
    requires r == 1 + cfg.offset + cfg.count * cfg.decimate + cfg.holdoff && cfg.offset + cfg.holdoff < -1
    requires TightRing(cfg) >= 0 && |h| == r + TightRing(cfg) && h == TwoPulses(cfg.trigger.level, r, |h|)
    ensures var found := State(1 + cfg.offset, 0, true, cfg.force, 0.0);
            var w := Shown(cfg, h, TightRing(cfg), |h|, None);
            Callable(cfg, w, found) && Overlap(cfg, Handle(cfg, w, OPEN, found).1)
  {
    hide Shown;
    var level, sweep := cfg.trigger.level, cfg.count * cfg.decimate;
    Monotone(0, cfg.count, cfg.decimate);
    var w, found := Shown(cfg, h, TightRing(cfg), |h|, None), State(1 + cfg.offset, 0, true, cfg.force, 0.0);
    FullSweep(cfg, w.captureI, found);
    var next := OnePass(cfg, w, OPEN, found).st;
    assert next == State(r, 0, false, r + cfg.force, 0.0);
    FirstEdgeIs(Seen(h, TightRing(cfg), |h|), level, r + 1, r + 1);
    EdgePass(cfg, w, next, r + 1);
    TwoPasses(cfg, w, found);
  }

  lemma TwoCalls(cfg: Config, v: View, w: View, st: State, found: State)
    requires Repeating(cfg) && Callable(cfg, v, st)
    requires Handle(cfg, v, OPEN, st) == (found, [], true) && Callable(cfg, w, found)
    ensures Runnable(cfg, st, [v, w]) && Sent(cfg, st, [v, w]) == Handle(cfg, w, OPEN, found).1
  {
    hide Handle, Callable;
    SingleCall(cfg, w, found);
    assert [v, w][1..] == [w];
    assert Sent(cfg, st, [v, w]) == [] + Sent(cfg, found, [w]);
  }

  /** In-stream sweeps overlap outside `Apart`: one history, read through a ring with
      just room for the sweep and a decimation window. The first call finds a pulse;
      when the rest of its sweep arrives the samples up to the re-arm position have been
      overwritten, so that the pulse after them counts as an edge. */
  lemma EdgeOverlaps(cfg: Config) returns (h: seq<Sample>)
    requires Repeating(cfg) && Guarded(cfg) && Progress(cfg) && cfg.trigger.InStream? && !Apart(cfg)
    ensures |h| >= 2 && TightRing(cfg) >= 0
    ensures !Disjoint(cfg, 0, [Shown(cfg, h, TightRing(cfg), 2, None), Shown(cfg, h, TightRing(cfg), |h|, None)])
  {
    hide Handle, Callable, Overlap, Layout, SweepsOf, Sent, Runnable, Shown;
    Monotone(1, cfg.count, cfg.decimate);
    var r: nat := 1 + cfg.offset + cfg.count * cfg.decimate + cfg.holdoff;
    h := TwoPulses(cfg.trigger.level, r, r + TightRing(cfg));
    var v, w := Shown(cfg, h, TightRing(cfg), 2, None), Shown(cfg, h, TightRing(cfg), |h|, None);
    EarlyCall(cfg, h, TightRing(cfg), r);
    LateCall(cfg, h, r);
    TwoCalls(cfg, v, w, State(0, 0, false, cfg.force, 0.0), State(1 + cfg.offset, 0, true, cfg.force, 0.0));
    OverlapBreaksLayout(cfg, Sent(cfg, State(0, 0, false, cfg.force, 0.0), [v, w]));
  }

  /** Main theorem: sweeps are disjoint on all runs exactly when `Apart` holds. */
  lemma DisjointExactlyWhenApart(cfg: Config)
    requires Repeating(cfg) && Guarded(cfg) && Progress(cfg) && !cfg.trigger.NoTrigger?
    ensures Apart(cfg) <==> forall start: nat, views: seq<View> :: Disjoint(cfg, start, views)
  {
    hide Disjoint, Layout, SweepsOf, Sent, Runnable;
    if Apart(cfg) {
      forall start: nat, views: seq<View>
        ensures Disjoint(cfg, start, views)
      {
        ApartIsDisjoint(cfg, start, views);
      }
    } else if cfg.trigger.InStream? {
      var h := EdgeOverlaps(cfg);
    } else if cfg.offset + cfg.holdoff < 0 {
      var v := ZeroOverlaps(cfg);
    } else {
      var v := ForcedOverlaps(cfg);
    }
  }

  lemma ApartIsDisjoint(cfg: Config, start: nat, views: seq<View>)
    requires Repeating(cfg) && Apart(cfg) && !cfg.trigger.NoTrigger?
    ensures Disjoint(cfg, start, views)
  {
    hide Layout, SweepsOf;
    if Runnable(cfg, State(start, 0, false, start + cfg.force, 0.0), views) && Growing(views) {
      SweepsNeverOverlap(cfg, start, views);
    }
  }
}
