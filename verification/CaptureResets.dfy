/** What a capture reset does to a listener with a repeating trigger (src/listener.rs,
    src/streaming.rs). It rewinds the cursor but leaves the trigger latch, so that a
    latched listener starts its next sweep at sample zero, and an armed one looks for its
    trigger from sample zero. */
module CaptureResets {
  import opened Common
  import opened Samples
  import opened Sources
  import opened RingBuffer
  import opened ListenerModel
  import opened Sweeps
  import opened SweepLimits
  import opened RearmWrap
  import opened Witnesses

  /** What a listener goes through: calls, and resets of its capture. */
  datatype Event = Call(v: View) | Rewind

  function Rewound(st: State): State {
    st.(index := 0, outIndex := 0)
  }

  /** The samples collected only accumulate, from none after a reset. */
  predicate Accumulating(captureI: nat, events: seq<Event>)
    decreases |events|
  {
    events != [] ==>
      match events[0]
      case Call(v) => captureI <= v.captureI && Accumulating(v.captureI, events[1..])
      case Rewind => Accumulating(0, events[1..])
  }

  /** Every call can be made: the offset of no trigger reaches below sample zero. */
  ghost predicate Possible(cfg: Config, st: State, events: seq<Event>)
    requires Repeating(cfg)
    decreases |events|
  {
    events != [] ==>
      match events[0]
      case Call(v) => Callable(cfg, v, st) && Possible(cfg, Handle(cfg, v, OPEN, st).0, events[1..])
      case Rewind => Possible(cfg, Rewound(st), events[1..])
  }

  /** Every re-arm continues exactly `holdoff` after its sweep. */
  ghost predicate Exact(cfg: Config, st: State, events: seq<Event>)
    requires Repeating(cfg) && Possible(cfg, st, events)
    decreases |events|
  {
    events != [] ==>
      match events[0]
      case Call(v) => CallExact(cfg, v, st) && Exact(cfg, Handle(cfg, v, OPEN, st).0, events[1..])
      case Rewind => Exact(cfg, Rewound(st), events[1..])
  }

  function Start(cfg: Config, start: nat): State {
    State(start, 0, false, start + cfg.force, 0.0)
  }

  // ---- re-arming ----

  /** The holdoff does not reach below sample zero from a sweep that starts there. */
  predicate SweepFits(cfg: Config) {
    cfg.count * cfg.decimate + cfg.holdoff >= 0
  }

  lemma RewoundInside(cfg: Config, st: State)
    requires Repeating(cfg) && SweepFits(cfg) && Inside(cfg, st)
    ensures HoldoffFits(cfg) && Inside(cfg, Rewound(st))
  {
  }

  lemma {:induction false} StaysExact(cfg: Config, st: State, events: seq<Event>)
    requires Repeating(cfg) && !cfg.trigger.NoTrigger? && SweepFits(cfg) && Inside(cfg, st)
    requires Possible(cfg, st, events)
    ensures Exact(cfg, st, events)
    decreases |events|
  {
    hide Inside, HoldoffFits, SweepFits, CallExact, Callable, Handle;
    RewoundInside(cfg, st);
    if events != [] {
      match events[0]
      case Call(v) =>
        CallStaysExact(cfg, v, st);
        StaysExact(cfg, Handle(cfg, v, OPEN, st).0, events[1..]);
      case Rewind =>
        StaysExact(cfg, Rewound(st), events[1..]);
    }
  }

  /** What the condition promises of one run from a start. */
  ghost predicate NeverWraps(cfg: Config, start: nat, events: seq<Event>)
    requires Repeating(cfg)
  {
    Possible(cfg, Start(cfg, start), events) && Accumulating(0, events) ==> Exact(cfg, Start(cfg, start), events)
  }

  /** A device on which the listener triggers before its sweep is in: an edge in the
      second sample, or a source that is always at phase zero. */
  ghost function Triggering(cfg: Config): (v: View)
    requires !cfg.trigger.NoTrigger?
    ensures InRange(cfg, v)
  {
    match cfg.trigger
    case InStream(_, _, level) => Uniform(cfg, [Num(level), Num(level + 1.0)], None)
    case OutSource(_) => Uniform(cfg, [], Some(Constant(0.0)))
  }

  lemma Latches(cfg: Config)
    requires Repeating(cfg) && Guarded(cfg) && Progress(cfg) && !cfg.trigger.NoTrigger? && cfg.offset >= 0
    ensures Callable(cfg, Triggering(cfg), Start(cfg, 0))
    ensures var (st, sent, keep) := Handle(cfg, Triggering(cfg), OPEN, Start(cfg, 0));
            st.triggered && st.outIndex == 0 && st.forceIndex == cfg.force && sent == [] && keep
  {
    var v, st := Triggering(cfg), Start(cfg, 0);
    if cfg.trigger.InStream? {
      FirstEdgeIs(v.streams[cfg.trigger.channel][cfg.trigger.stream], cfg.trigger.level, 1, 1);
    } else {
      assert Round(0.0) == 0;
    }
  }

  /** The call that completes a sweep from sample zero. */
  lemma SweepFromZero(cfg: Config, st: State, w: View)
    requires Repeating(cfg) && Guarded(cfg) && Progress(cfg) && InRange(cfg, w)
    requires st.triggered && st.index == st.outIndex == 0 && w.captureI > cfg.count * cfg.decimate + cfg.decimate
    ensures Callable(cfg, w, st) && OnePass(cfg, w, OPEN, st).Rearm?
    ensures var pass := OnePass(cfg, w, OPEN, st);
            && pass.frame.idx == pass.frame.sampleIndex == 0 && pass.frame.triggered
            && End(cfg, pass.frame) == cfg.count * cfg.decimate
            && pass.st.index == WrappingAddSigned(cfg.count * cfg.decimate, cfg.holdoff)
  {
    FullSweep(cfg, w.captureI, st);
  }

  ghost function Collected(cfg: Config, captureI: nat): (v: View)
    ensures InRange(cfg, v) && v.captureI == captureI
  {
    Uniform(cfg, Flat(0.0, captureI), None)
  }

  function SweepRoom(cfg: Config): int {
    cfg.count * cfg.decimate + cfg.decimate + 1
  }

  /** Without the condition a reset between the trigger and the sweep makes the re-arm
      wrap, for a trigger of either kind. */
  lemma ResetRearmWraps(cfg: Config)
    requires Repeating(cfg) && Guarded(cfg) && Progress(cfg) && !cfg.trigger.NoTrigger? && !SweepFits(cfg)
    ensures SweepRoom(cfg) >= 0
    ensures !NeverWraps(cfg, 0, [Call(Triggering(cfg)), Rewind, Call(Collected(cfg, SweepRoom(cfg)))])
  {
    hide Handle, Callable, OnePass, Triggering, Collected;
    Monotone(0, cfg.count, cfg.decimate);
    var v, w := Triggering(cfg), Collected(cfg, SweepRoom(cfg));
    Latches(cfg);
    var st := Handle(cfg, v, OPEN, Start(cfg, 0)).0;
    SweepFromZero(cfg, Rewound(st), w);
    assert !CallExact(cfg, w, Rewound(st));
    var last, rest := [Call(w)], [Rewind, Call(w)];
    assert last[1..] == [] && rest[1..] == last && [Call(v), Rewind, Call(w)][1..] == rest;
    assert Possible(cfg, Rewound(st), last) && !Exact(cfg, Rewound(st), last);
    assert Possible(cfg, st, rest) && !Exact(cfg, st, rest);
    assert Accumulating(0, last);
    assert Accumulating(v.captureI, rest);
  }

  /** Main theorem: over runs with any calls and capture resets each re-arm of a guarded
      listener that makes progress continues exactly `holdoff` after its sweep, without
      wrapping, if and only if a sweep from sample zero leaves room for the holdoff. */
  lemma RearmsNeverWrapExactly(cfg: Config)
    requires Repeating(cfg) && Guarded(cfg) && Progress(cfg) && !cfg.trigger.NoTrigger?
    ensures SweepFits(cfg) <==> forall start: nat, events: seq<Event> :: NeverWraps(cfg, start, events)
  {
    hide NeverWraps;
    if SweepFits(cfg) {
      forall start: nat, events: seq<Event>
        ensures NeverWraps(cfg, start, events)
      {
        FitsNeverWraps(cfg, start, events);
      }
    } else {
      ResetRearmWraps(cfg);
    }
  }

  lemma FitsNeverWraps(cfg: Config, start: nat, events: seq<Event>)
    requires Repeating(cfg) && SweepFits(cfg) && !cfg.trigger.NoTrigger?
    ensures NeverWraps(cfg, start, events)
  {
    hide Exact, Possible;
    if Possible(cfg, Start(cfg, start), events) {
      StaysExact(cfg, Start(cfg, start), events);
    }
  }

  /** Settings that the constructor accepts, under which no re-arm wraps between resets,
      and still one does after a reset. */
  lemma ResetMayWrap()
    ensures var cfg := Config(1, [(0, 0)], 1, 1, WsJson, InStream(0, 0, 0.5), true, -1000, 1000, 0);
            && Repeating(cfg) && Guarded(cfg) && Progress(cfg) && HoldoffFits(cfg) && !SweepFits(cfg)
            && Handle(cfg, Triggering(cfg), OPEN, Start(cfg, 0)).0 == State(1001, 0, true, 0, 0.0)
            && OnePass(cfg, Collected(cfg, 3), OPEN, State(0, 0, true, 0, 0.0)).Rearm?
            && OnePass(cfg, Collected(cfg, 3), OPEN, State(0, 0, true, 0, 0.0)).st.index
               == 0x1_0000_0000_0000_0000 - 999
  {
    var cfg := Config(1, [(0, 0)], 1, 1, WsJson, InStream(0, 0, 0.5), true, -1000, 1000, 0);
    Latches(cfg);
    FirstEdgeIs(Triggering(cfg).streams[0][0], 0.5, 1, 1);
    SweepFromZero(cfg, State(0, 0, true, 0, 0.0), Collected(cfg, 3));
    DivModUnique(-999, 0x1_0000_0000_0000_0000, -1, 0x1_0000_0000_0000_0000 - 999);
  }

  // ---- triggering ----

  /** The offset does not reach below sample zero from the earliest trigger. */
  predicate OffsetFits(cfg: Config) {
    match cfg.trigger
    case NoTrigger => true
    case InStream(_, _, _) => cfg.offset >= -1
    case OutSource(_) => cfg.offset >= 0
  }

  ghost predicate ViewsInRange(cfg: Config, events: seq<Event>) {
    forall i :: 0 <= i < |events| && events[i].Call? ==> InRange(cfg, events[i].v)
  }

  lemma {:induction false} StaysPossible(cfg: Config, st: State, events: seq<Event>)
    requires Repeating(cfg) && Guarded(cfg) && Progress(cfg) && !cfg.trigger.NoTrigger? && OffsetFits(cfg)
    requires StateOk(cfg, st) && Clear(cfg, st) && ViewsInRange(cfg, events)
    ensures Possible(cfg, st, events)
    decreases |events|
  {
    hide Handle, InRange, Progress, Fits;
    if events != [] {
      match events[0]
      case Call(v) =>
        ClearFits(cfg, v, st);
        ClearStays(cfg, v, st);
        StaysPossible(cfg, Handle(cfg, v, OPEN, st).0, events[1..]);
      case Rewind =>
        StaysPossible(cfg, Rewound(st), events[1..]);
    }
  }

  /** What that condition promises of one run from a start that is itself far enough from
      sample zero. */
  ghost predicate AlwaysPossible(cfg: Config, start: nat, events: seq<Event>)
    requires Repeating(cfg)
  {
    Clear(cfg, Start(cfg, start)) && ViewsInRange(cfg, events) && Accumulating(0, events) ==>
      Possible(cfg, Start(cfg, start), events)
  }

  /** Without it the first trigger after a reset reaches below sample zero. */
  lemma ResetTriggerWraps(cfg: Config)
    requires Repeating(cfg) && Guarded(cfg) && Progress(cfg) && !cfg.trigger.NoTrigger? && !OffsetFits(cfg)
    ensures !AlwaysPossible(cfg, -cfg.offset, [Rewind, Call(Triggering(cfg))])
  {
    var v, st := Triggering(cfg), Rewound(Start(cfg, -cfg.offset));
    var last, all := [Call(v)], [Rewind, Call(v)];
    assert all[1..] == last && last[1..] == [];
    if cfg.trigger.InStream? {
      FirstEdgeIs(v.streams[cfg.trigger.channel][cfg.trigger.stream], cfg.trigger.level, 1, 1);
    } else {
      assert Round(0.0) == 0;
    }
    assert !Fits(cfg, v, st);
    assert !Possible(cfg, st, last);
    assert Accumulating(0, last);
  }

  /** Main theorem: a listener that starts far enough from sample zero never triggers
      below it, whatever the resets, if and only if its offset reaches at most one sample
      back (in-stream) or none (out-source). */
  lemma TriggersNeverWrapExactly(cfg: Config)
    requires Repeating(cfg) && Guarded(cfg) && Progress(cfg) && !cfg.trigger.NoTrigger?
    ensures OffsetFits(cfg) <==> forall start: nat, events: seq<Event> :: AlwaysPossible(cfg, start, events)
  {
    hide AlwaysPossible;
    if OffsetFits(cfg) {
      forall start: nat, events: seq<Event>
        ensures AlwaysPossible(cfg, start, events)
      {
        OffsetAlwaysPossible(cfg, start, events);
      }
    } else {
      ResetTriggerWraps(cfg);
    }
  }

  lemma OffsetAlwaysPossible(cfg: Config, start: nat, events: seq<Event>)
    requires Repeating(cfg) && Guarded(cfg) && Progress(cfg) && !cfg.trigger.NoTrigger? && OffsetFits(cfg)
    ensures AlwaysPossible(cfg, start, events)
  {
    hide Possible;
    if Clear(cfg, Start(cfg, start)) && ViewsInRange(cfg, events) {
      StaysPossible(cfg, Start(cfg, start), events);
    }
  }

  // ---- the latch ----

  /** On a signal that never triggers, a restarted capture sends a frame if and only if
      the listener was latched when it was reset; that frame starts at sample zero and is
      marked as triggered. */
  lemma QuietRestart(cfg: Config, v: View, st: State)
    requires Repeating(cfg) && cfg.trigger.InStream? && cfg.force == 0 && Callable(cfg, v, Rewound(st))
    requires v.captureI > cfg.decimate
    requires forall j :: !Edge(v.streams[cfg.trigger.channel][cfg.trigger.stream], cfg.trigger.level, j)
    ensures var sent := Handle(cfg, v, OPEN, Rewound(st)).1;
            && (sent != [] <==> st.triggered)
            && (sent != [] ==> sent[0].idx == sent[0].sampleIndex == 0 && sent[0].triggered)
  {
    var start := Rewound(st);
    FirstEdgeExact(v.streams[cfg.trigger.channel][cfg.trigger.stream], cfg.trigger.level, 1);
    assert TriggerAt(cfg, v, start.index).None?;
    var pass := OnePass(cfg, v, OPEN, start);
    if st.triggered {
      SomethingAvailable(cfg, v.captureI, start);
      assert pass.Sent() == [MakeFrame(cfg, v, start, Available(cfg, v.captureI, start))];
    } else {
      assert pass.Sent() == [];
    }
    TurnSends(cfg, v, start);
  }

  lemma TurnSends(cfg: Config, v: View, st: State)
    requires Callable(cfg, v, st)
    ensures OnePass(cfg, v, OPEN, st).Sent() <= Handle(cfg, v, OPEN, st).1
    ensures OnePass(cfg, v, OPEN, st).Return? ==> OnePass(cfg, v, OPEN, st).Sent() == Handle(cfg, v, OPEN, st).1
  {
    hide OnePass;
  }

  lemma SomethingAvailable(cfg: Config, captureI: nat, st: State)
    requires Repeating(cfg) && st.outIndex < cfg.count && st.index + cfg.decimate < captureI
    ensures Available(cfg, captureI, st) > 0
  {
    var n := (captureI - st.index) / cfg.decimate;
    assert (n + 1) * cfg.decimate == n * cfg.decimate + cfg.decimate;
    if n <= 0 {
      Monotone(n + 1, 1, cfg.decimate);
    }
  }
}
