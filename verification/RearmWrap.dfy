/** When the holdoff added at a re-arm wraps below sample zero (src/listener.rs). The
    constructor's guard only covers negative offsets, and a forced in-stream trigger does
    not add the offset: its sweep starts where the scan stopped. The runs here are those
    between capture resets. */
module RearmWrap {
  import opened Common
  import opened RingBuffer
  import opened ListenerModel
  import opened Sweeps
  import opened Witnesses

  /** The holdoff does not reach below sample zero from the earliest forced sweep. */
  predicate HoldoffFits(cfg: Config) {
    cfg.trigger.InStream? && cfg.force != 0 ==> cfg.force + 1 + cfg.count * cfg.decimate + cfg.holdoff >= 0
  }

  /** Every re-arm of a call continues exactly `holdoff` after the end of its sweep. */
  ghost predicate CallExact(cfg: Config, v: View, st: State)
    requires Callable(cfg, v, st)
    decreases if st.triggered then 1 else 0, Distance(cfg, v.captureI, st)
  {
    var pass := OnePass(cfg, v, OPEN, st);
    HandleTurn(cfg, v, OPEN, st, []);
    pass.Rearm? ==> pass.st.index == End(cfg, pass.frame) + cfg.holdoff && CallExact(cfg, v, pass.st)
  }

  /** So does every re-arm of a run. */
  ghost predicate RunExact(cfg: Config, st: State, views: seq<View>)
    requires Repeating(cfg) && Runnable(cfg, st, views)
    decreases |views|
  {
    views != [] ==>
      CallExact(cfg, views[0], st) && RunExact(cfg, Handle(cfg, views[0], OPEN, st).0, views[1..])
  }

  /** The sweep in progress, or the earliest forced one, ends far enough from zero. */
  predicate Inside(cfg: Config, st: State) {
    if st.triggered then st.index + (cfg.count - st.outIndex) * cfg.decimate + cfg.holdoff >= 0
    else cfg.trigger.InStream? ==> st.forceIndex >= cfg.force
  }

  lemma DeliverExact(cfg: Config, v: View, st: State)
    requires Repeating(cfg) && !cfg.trigger.NoTrigger? && InRange(cfg, v) && StateOk(cfg, st)
    requires st.triggered && Inside(cfg, st)
    ensures var pass := Deliver(cfg, v, OPEN, st);
            && Inside(cfg, pass.st)
            && (pass.Rearm? ==> pass.st.index == End(cfg, pass.frame) + cfg.holdoff)
  {
    var n := Available(cfg, v.captureI, st);
    assert (cfg.count - st.outIndex) * cfg.decimate == n * cfg.decimate + (cfg.count - st.outIndex - n) * cfg.decimate;
    if Deliver(cfg, v, OPEN, st).Rearm? {
      DeliverRearms(cfg, v, OPEN, st);
    }
  }

  lemma FoundInside(cfg: Config, v: View, st: State)
    requires Repeating(cfg) && Progress(cfg) && HoldoffFits(cfg) && InRange(cfg, v) && Fits(cfg, v, st)
    requires StateOk(cfg, st) && !cfg.trigger.NoTrigger? && !st.triggered && Inside(cfg, st)
    ensures Inside(cfg, FindTrigger(cfg, v, st).0)
  {
  }

  lemma PassExact(cfg: Config, v: View, st: State)
    requires Repeating(cfg) && !cfg.trigger.NoTrigger? && HoldoffFits(cfg) && Callable(cfg, v, st) && Inside(cfg, st)
    ensures var pass := OnePass(cfg, v, OPEN, st);
            && Inside(cfg, pass.st)
            && (pass.Rearm? ==> pass.st.index == End(cfg, pass.frame) + cfg.holdoff)
  {
    hide Deliver, FindTrigger, Inside, HoldoffFits, Progress;
    if st.triggered {
      DeliverExact(cfg, v, st);
    } else {
      var (st1, found) := FindTrigger(cfg, v, st);
      FoundInside(cfg, v, st);
      FindLatches(cfg, v, st);
      if found {
        DeliverExact(cfg, v, st1);
      }
    }
  }

  lemma FindLatches(cfg: Config, v: View, st: State)
    requires InRange(cfg, v) && Fits(cfg, v, st) && StateOk(cfg, st) && !cfg.trigger.NoTrigger? && !st.triggered
    ensures var (st1, found) := FindTrigger(cfg, v, st); st1.triggered == found && StateOk(cfg, st1)
  {
  }

  lemma {:induction false} CallStaysExact(cfg: Config, v: View, st: State)
    requires Repeating(cfg) && !cfg.trigger.NoTrigger? && HoldoffFits(cfg) && Callable(cfg, v, st) && Inside(cfg, st)
    ensures CallExact(cfg, v, st) && Inside(cfg, Handle(cfg, v, OPEN, st).0)
    decreases if st.triggered then 1 else 0, Distance(cfg, v.captureI, st)
  {
    hide OnePass, Fits, InRange, StateOk, Progress, Inside, HoldoffFits, Distance;
    PassExact(cfg, v, st);
    HandleTurn(cfg, v, OPEN, st, []);
    if OnePass(cfg, v, OPEN, st).Rearm? {
      CallStaysExact(cfg, v, OnePass(cfg, v, OPEN, st).st);
    }
  }

  /** Under the condition no re-arm of any run wraps. */
  lemma {:induction false} RunStaysExact(cfg: Config, st: State, views: seq<View>)
    requires Repeating(cfg) && !cfg.trigger.NoTrigger? && HoldoffFits(cfg)
    requires Runnable(cfg, st, views) && Inside(cfg, st)
    ensures RunExact(cfg, st, views)
    decreases |views|
  {
    hide Inside, HoldoffFits, CallExact, Callable;
    if views != [] {
      CallStaysExact(cfg, views[0], st);
      RunStaysExact(cfg, Handle(cfg, views[0], OPEN, st).0, views[1..]);
    }
  }

  // ---- the failing runs ----

  /** A call that gives up waiting one sample past the forced position. */
  lemma ForcedCall(cfg: Config, v: View)
    requires Repeating(cfg) && Guarded(cfg) && Progress(cfg) && cfg.trigger.InStream? && cfg.force != 0
    requires InRange(cfg, v) && v.captureI == cfg.force + 1
    requires v.streams[cfg.trigger.channel][cfg.trigger.stream] == Flat(cfg.trigger.level, cfg.force + 1)
    ensures Callable(cfg, v, State(0, 0, false, cfg.force, 0.0))
    ensures Handle(cfg, v, OPEN, State(0, 0, false, cfg.force, 0.0))
         == (State(cfg.force + 1, 0, true, cfg.force, 0.0), [], true)
  {
    FirstEdgeExact(Flat(cfg.trigger.level, cfg.force + 1), cfg.trigger.level, 1);
  }

  /** The call that completes that sweep: its re-arm is a wrapping addition. */
  lemma WrappingCall(cfg: Config, w: View)
    requires Repeating(cfg) && Guarded(cfg) && Progress(cfg) && cfg.trigger.InStream? && cfg.force != 0
    requires InRange(cfg, w) && w.captureI > cfg.force + 1 + cfg.count * cfg.decimate + cfg.decimate
    ensures var found := State(cfg.force + 1, 0, true, cfg.force, 0.0);
            && Callable(cfg, w, found) && OnePass(cfg, w, OPEN, found).Rearm?
            && End(cfg, OnePass(cfg, w, OPEN, found).frame) == cfg.force + 1 + cfg.count * cfg.decimate
            && OnePass(cfg, w, OPEN, found).st.index
               == WrappingAddSigned(cfg.force + 1 + cfg.count * cfg.decimate, cfg.holdoff)
  {
    Monotone(0, cfg.count, cfg.decimate);
    FullSweep(cfg, w.captureI, State(cfg.force + 1, 0, true, cfg.force, 0.0));
  }

  function Patience(cfg: Config): int {
    cfg.force + 1 + cfg.count * cfg.decimate + cfg.decimate + 1
  }

  ghost function QuietDevice(cfg: Config, captureI: nat): (v: View)
    requires cfg.trigger.InStream?
    ensures InRange(cfg, v) && v.captureI == captureI
    ensures v.streams[cfg.trigger.channel][cfg.trigger.stream] == Flat(cfg.trigger.level, captureI)
  {
    Uniform(cfg, Flat(cfg.trigger.level, captureI), None)
  }

  /** Without the condition two calls on a signal that never triggers make a re-arm wrap. */
  lemma ForcedRearmWraps(cfg: Config)
    requires Repeating(cfg) && Guarded(cfg) && Progress(cfg) && !HoldoffFits(cfg)
    ensures Patience(cfg) >= 0
    ensures !NeverWraps(cfg, 0, [QuietDevice(cfg, cfg.force + 1), QuietDevice(cfg, Patience(cfg))])
  {
    hide Handle, Callable, OnePass, QuietDevice;
    Monotone(0, cfg.count, cfg.decimate);
    var v, w := QuietDevice(cfg, cfg.force + 1), QuietDevice(cfg, Patience(cfg));
    var st, found := State(0, 0, false, cfg.force, 0.0), State(cfg.force + 1, 0, true, cfg.force, 0.0);
    ForcedCall(cfg, v);
    WrappingCall(cfg, w);
    assert [v, w][1..] == [w] && [w][1..] == [];
    assert Runnable(cfg, found, [w]);
    assert Runnable(cfg, st, [v, w]);
    assert Growing([v, w]);
    assert !CallExact(cfg, w, found);
    assert !RunExact(cfg, found, [w]);
  }

  /** What the condition promises of one run from a start. */
  ghost predicate NeverWraps(cfg: Config, start: nat, views: seq<View>)
    requires Repeating(cfg)
  {
    var st := State(start, 0, false, start + cfg.force, 0.0);
    Runnable(cfg, st, views) && Growing(views) ==> RunExact(cfg, st, views)
  }

  /** Main theorem: in every run between capture resets of a guarded listener that makes
      progress each re-arm continues exactly `holdoff` after its sweep, without wrapping,
      if and only if the holdoff fits, which is known when the listener is made. Module
      CaptureResets has the condition for runs with resets. */
  lemma RearmsNeverWrapBetweenResets(cfg: Config)
    requires Repeating(cfg) && Guarded(cfg) && Progress(cfg) && !cfg.trigger.NoTrigger?
    ensures HoldoffFits(cfg) <==> forall start: nat, views: seq<View> :: NeverWraps(cfg, start, views)
  {
    hide NeverWraps;
    if HoldoffFits(cfg) {
      forall start: nat, views: seq<View>
        ensures NeverWraps(cfg, start, views)
      {
        FitsNeverWraps(cfg, start, views);
      }
    } else {
      ForcedRearmWraps(cfg);
    }
  }

  lemma FitsNeverWraps(cfg: Config, start: nat, views: seq<View>)
    requires Repeating(cfg) && HoldoffFits(cfg) && !cfg.trigger.NoTrigger?
    ensures NeverWraps(cfg, start, views)
  {
    hide RunExact, Runnable;
    var st := State(start, 0, false, start + cfg.force, 0.0);
    if Runnable(cfg, st, views) {
      RunStaysExact(cfg, st, views);
    }
  }

  /** A non-negative holdoff always fits; keeping sweeps apart is not enough. */
  lemma ApartMayWrap()
    ensures var cfg := Config(1, [(0, 0)], 1, 1, WsJson, InStream(0, 0, 0.5), true, -1000, 1000, 1);
            && Repeating(cfg) && Guarded(cfg) && Progress(cfg) && Apart(cfg) && !HoldoffFits(cfg)
            && OnePass(cfg, QuietDevice(cfg, 5), OPEN, State(2, 0, true, 1, 0.0)).Rearm?
            && OnePass(cfg, QuietDevice(cfg, 5), OPEN, State(2, 0, true, 1, 0.0)).st.index
               == 0x1_0000_0000_0000_0000 - 997
            && Handle(cfg, QuietDevice(cfg, 2), OPEN, State(0, 0, false, 1, 0.0))
               == (State(2, 0, true, 1, 0.0), [], true)
  {
    var cfg := Config(1, [(0, 0)], 1, 1, WsJson, InStream(0, 0, 0.5), true, -1000, 1000, 1);
    ForcedCall(cfg, QuietDevice(cfg, 2));
    WrappingCall(cfg, QuietDevice(cfg, 5));
    DivModUnique(-997, 0x1_0000_0000_0000_0000, -1, 0x1_0000_0000_0000_0000 - 997);
  }
}
