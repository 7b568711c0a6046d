/** What a stream listener does (src/listener.rs), as functions of its configuration,
    its cursor, and what it sees of the device. The class in module Listeners is
    proved to compute these; Packetisation, Sweeps and EdgeScan prove what they promise.

    Counters are unbounded naturals; a signed addition below zero wraps as it does
    for a 64-bit counter. */
module ListenerModel {
  import opened Common
  import opened Samples
  import opened Sources
  import opened RingBuffer

  datatype Trigger =
    | NoTrigger
    | InStream(channel: nat, stream: nat, level: real)
    | OutSource(outChannel: nat)

  datatype Sink = WsJson | WsBinary | Rest

  datatype Config = Config(id: int, streams: seq<(nat, nat)>, decimate: nat, count: int, sink: Sink,
                           trigger: Trigger, repeat: bool, holdoff: int, offset: int, force: nat)

  /** The cursor: next sample, next output number, and the trigger latch. */
  datatype State = State(index: nat, outIndex: nat, triggered: bool, forceIndex: nat, subsample: real)

  /** One delivery. `sampleIndex` is the device index of its first sample. */
  datatype Frame = Frame(idx: nat, sampleIndex: nat, nchunks: nat, forced: bool, triggered: bool,
                         subsample: real, done: bool, data: seq<seq<Sample>>)

  /** The state of a REST response stream: closed when polled, failing when written. */
  datatype Link = Link(closed: bool, sendFails: bool)

  const OPEN := Link(false, false)

  predicate ValidConfig(cfg: Config) {
    cfg.decimate >= 1 && (cfg.trigger.NoTrigger? ==> !cfg.repeat)
  }

  /** The streams and channels named by a configuration exist, and sources are well formed. */
  ghost predicate InRange(cfg: Config, v: View) {
    && v.Valid()
    && (forall x :: 0 <= x < |cfg.streams| ==> v.Has(cfg.streams[x].0, cfg.streams[x].1))
    && (cfg.trigger.InStream? ==> v.Has(cfg.trigger.channel, cfg.trigger.stream))
    && (cfg.trigger.OutSource? ==> cfg.trigger.outChannel < |v.sources|)
    && (forall c :: 0 <= c < |v.sources| && v.sources[c].Some? ==> WellFormed(v.sources[c].value))
  }

  function WrappingAddSigned(i: nat, d: int): (r: nat)
    ensures i + d >= 0 <==> r == i + d
    ensures -0x1_0000_0000_0000_0000 <= i + d < 0 ==> r == 0x1_0000_0000_0000_0000 + i + d
  {
    if i + d >= 0 then i + d else (i + d) % 0x1_0000_0000_0000_0000
  }

  // ---- finding a trigger ----

  /** A rising edge through the level between samples j - 1 and j. */
  predicate Edge(samples: seq<Sample>, level: real, j: int) {
    0 < j < |samples| && Above(samples[j], level) && !Above(samples[j - 1], level)
  }

  /** In the samples' own terms: above the level after a sample that is missing or not. */
  lemma EdgeIs(samples: seq<Sample>, level: real, j: int)
    ensures Edge(samples, level, j) <==>
            && 0 < j < |samples| && samples[j].Num? && samples[j].value > level
            && (samples[j - 1].NaN? || samples[j - 1].value <= level)
  {
  }

  /** The first rising edge at or after i. */
  function FirstEdge(samples: seq<Sample>, level: real, i: nat): (r: Option<nat>)
    ensures r.Some? ==> i <= r.value < |samples|
    decreases |samples| - i
  {
    if i >= |samples| then None
    else if Edge(samples, level, i) then Some(i)
    else FirstEdge(samples, level, i + 1)
  }

  /** The scan misses nothing: what it reports is an edge, and there is none before it. */
  lemma {:induction false} FirstEdgeExact(samples: seq<Sample>, level: real, i: nat)
    ensures match FirstEdge(samples, level, i)
            case Some(e) => Edge(samples, level, e) && forall j :: i <= j < e ==> !Edge(samples, level, j)
            case None => forall j :: i <= j ==> !Edge(samples, level, j)
    decreases |samples| - i
  {
    if i < |samples| && !Edge(samples, level, i) {
      FirstEdgeExact(samples, level, i + 1);
    }
  }

  lemma EdgeStep(samples: seq<Sample>, level: real, i: nat)
    ensures FirstEdge(samples, level, i) ==
            if i >= |samples| then None
            else if Edge(samples, level, i) then Some(i)
            else FirstEdge(samples, level, i + 1)
  {
  }

  /** n is the sample next to z, the later one when z is half-way. */
  predicate NextTo(n: nat, z: real) {
    n as real - 0.5 <= z < n as real + 0.5
  }

  /** Where an out-source trigger would fire: the rounded phase zero, once the
      output has got that far. */
  function ReachedZero(cfg: Config, v: View, index: nat): (r: Option<nat>)
    requires cfg.trigger.OutSource? && cfg.trigger.outChannel < |v.sources|
    requires v.sources[cfg.trigger.outChannel].Some? ==> WellFormed(v.sources[cfg.trigger.outChannel].value)
    ensures r.Some? ==> index <= r.value <= v.captureO
    ensures r.Some? ==> v.sources[cfg.trigger.outChannel].Some?
    ensures r.Some? ==> var z := PhaseZeroAfter(v.sources[cfg.trigger.outChannel].value, index);
                        z.Some? && NextTo(r.value, z.value)
  {
    match v.sources[cfg.trigger.outChannel]
    case None => None
    case Some(source) =>
      PhaseZeroNotBefore(source, index);
      var zero := PhaseZeroAfter(source, index).value;
      if v.captureO >= Round(zero) then Some(Round(zero)) else None
  }

  lemma NextToOne(z: real) returns (n: nat)
    requires z >= 0.0
    ensures NextTo(n, z) && forall m: nat :: NextTo(m, z) ==> m == n
  {
    n := (z + 0.5).Floor;
  }

  function ZeroError(cfg: Config, v: View, index: nat): real
    requires cfg.trigger.OutSource? && cfg.trigger.outChannel < |v.sources|
    requires v.sources[cfg.trigger.outChannel].Some? && WellFormed(v.sources[cfg.trigger.outChannel].value)
  {
    PhaseZeroNotBefore(v.sources[cfg.trigger.outChannel].value, index);
    var zero := PhaseZeroAfter(v.sources[cfg.trigger.outChannel].value, index).value;
    zero - Round(zero) as real
  }

  /** The trigger position found from the current index, before the offset. */
  ghost function TriggerAt(cfg: Config, v: View, index: nat): Option<nat>
    requires InRange(cfg, v)
  {
    match cfg.trigger
    case NoTrigger => None
    case InStream(c, s, level) => FirstEdge(v.streams[c][s], level, index + 1)
    case OutSource(_) => ReachedZero(cfg, v, index)
  }

  /** The trigger offset does not reach below sample zero. */
  ghost predicate Fits(cfg: Config, v: View, st: State)
    requires InRange(cfg, v)
  {
    !st.triggered && TriggerAt(cfg, v, st.index).Some? ==> TriggerAt(cfg, v, st.index).value + cfg.offset >= 0
  }

  ghost function FindTrigger(cfg: Config, v: View, st: State): (r: (State, bool))
    requires InRange(cfg, v) && Fits(cfg, v, st) && !st.triggered
  {
    var at := TriggerAt(cfg, v, st.index);
    var st0 := st.(subsample := 0.0);
    match cfg.trigger
    case NoTrigger => (st0, false)
    case InStream(_, _, _) =>
      if at.Some? then (st0.(index := at.value + cfg.offset, triggered := true), true)
      else
        var end := Max(st.index + 1, v.captureI);
        if cfg.force != 0 && end > st.forceIndex then (st0.(index := end, triggered := true), true)
        else (st0.(index := end), false)
    case OutSource(c) =>
      if v.sources[c].None? then (st0, false)
      else if at.Some? then
        (st0.(index := at.value + cfg.offset, triggered := true, subsample := ZeroError(cfg, v, st.index)), true)
      else if cfg.force != 0 && v.captureI >= st.forceIndex then
        (st0.(index := st.forceIndex, triggered := true), true)
      else (st0, false)
  }

  /** An out-source trigger as seen from the phase zero z that follows the cursor and the
      sample n next to it: it fires at n once the output is there, and the subsample is
      what is missing from n to z; otherwise it may be forced; otherwise nothing moves. */
  predicate FiresAt(cfg: Config, v: View, st: State, z: real, n: nat, st': State, found: bool) {
    if v.captureO >= n then
      found && st'.triggered && st'.index == n + cfg.offset && n as real + st'.subsample == z
      && -0.5 <= st'.subsample < 0.5
    else if cfg.force != 0 && v.captureI >= st.forceIndex then
      found && st'.triggered && st'.index == st.forceIndex && st'.subsample == 0.0
    else !found && !st'.triggered && st'.index == st.index
  }

  /** Which whole sample a fractional phase zero fires at. */
  lemma OutSourceFires(cfg: Config, v: View, st: State, z: real, n: nat)
    requires InRange(cfg, v) && Fits(cfg, v, st) && !st.triggered && cfg.trigger.OutSource?
    requires v.sources[cfg.trigger.outChannel].Some? && NextTo(n, z)
    requires PhaseZeroAfter(v.sources[cfg.trigger.outChannel].value, st.index) == Some(z)
    ensures var (st', found) := FindTrigger(cfg, v, st); FiresAt(cfg, v, st, z, n, st', found)
  {
    hide PhaseZeroAfter;
    PhaseZeroNotBefore(v.sources[cfg.trigger.outChannel].value, st.index);
    var one := NextToOne(z);
    assert NextTo(Round(z), z);
  }

  /** An in-stream trigger: it fires at the first edge past the cursor, or by force once
      the scan has passed the forced position, and then where the scan stopped. */
  lemma InStreamFires(cfg: Config, v: View, st: State)
    requires InRange(cfg, v) && Fits(cfg, v, st) && !st.triggered && cfg.trigger.InStream?
    ensures var samples, level := v.streams[cfg.trigger.channel][cfg.trigger.stream], cfg.trigger.level;
            var (st', found) := FindTrigger(cfg, v, st);
            var stop := Max(st.index + 1, v.captureI);
            && st'.triggered == found && st'.outIndex == st.outIndex && st'.subsample == 0.0
            && (forall e :: st.index < e && Edge(samples, level, e)
                            && (forall j :: st.index < j < e ==> !Edge(samples, level, j)) ==>
                  found && st'.index == e + cfg.offset)
            && ((forall j :: st.index < j ==> !Edge(samples, level, j)) ==>
                  (found <==> cfg.force != 0 && stop > st.forceIndex) && st'.index == stop)
  {
    hide Edge;
    FirstEdgeExact(v.streams[cfg.trigger.channel][cfg.trigger.stream], cfg.trigger.level, st.index + 1);
  }

  // ---- delivering ----

  /** Untriggered, or triggered: what is collected past the cursor goes out. */
  predicate Delivering(cfg: Config, st: State) {
    st.triggered || cfg.trigger.NoTrigger?
  }

  /** Output samples that can be delivered now: the chunk touching the newest
      sample is withheld, and a counted sweep takes no more than it has left. */
  function Available(cfg: Config, captureI: nat, st: State): nat
    requires cfg.decimate >= 1
  {
    if st.index + cfg.decimate >= captureI then 0
    else
      var n := (captureI - st.index) / cfg.decimate;
      if cfg.count > 0 && 0 <= cfg.count - st.outIndex < n then cfg.count - st.outIndex else n
  }

  /** Device index of the first sample of chunk k, counted from a cursor at `index`. */
  function ChunkStart(cfg: Config, index: nat, k: nat): (p: nat)
    ensures p == index + k * cfg.decimate
  {
    Monotone(0, k, cfg.decimate);
    index + k * cfg.decimate
  }

  function Chunks(cfg: Config, v: View, index: nat, n: nat): (data: seq<seq<Sample>>)
    requires forall x :: 0 <= x < |cfg.streams| ==> v.Has(cfg.streams[x].0, cfg.streams[x].1)
    ensures |data| == |cfg.streams|
    ensures forall x :: 0 <= x < |data| ==> |data[x]| == n
    ensures forall x, k :: 0 <= x < |data| && 0 <= k < n ==>
              data[x][k] == v.Resample(cfg.streams[x].0, cfg.streams[x].1, ChunkStart(cfg, index, k), cfg.decimate)
  {
    seq(|cfg.streams|, x requires 0 <= x < |cfg.streams| => StreamChunks(cfg, v, x, index, n))
  }

  function StreamChunks(cfg: Config, v: View, x: nat, index: nat, n: nat): (data: seq<Sample>)
    requires x < |cfg.streams| && v.Has(cfg.streams[x].0, cfg.streams[x].1)
    ensures |data| == n
    ensures forall k :: 0 <= k < n ==>
              data[k] == v.Resample(cfg.streams[x].0, cfg.streams[x].1, ChunkStart(cfg, index, k), cfg.decimate)
  {
    seq(n, k requires 0 <= k < n =>
      v.Resample(cfg.streams[x].0, cfg.streams[x].1, ChunkStart(cfg, index, k), cfg.decimate))
  }

  predicate WillBeDone(cfg: Config, st: State, n: nat) {
    cfg.count > 0 && st.outIndex + n >= cfg.count
  }

  ghost function MakeFrame(cfg: Config, v: View, st: State, n: nat): (f: Frame)
    requires InRange(cfg, v)
  {
    Frame(st.outIndex, st.index, n,
          st.outIndex == 0 && cfg.force != 0 && st.index > st.forceIndex,
          st.outIndex == 0 && st.triggered,
          st.subsample,
          WillBeDone(cfg, st, n) && !cfg.repeat,
          Chunks(cfg, v, st.index, n))
  }

  /** When the first frame of a sweep is marked as forced: always when an in-stream trigger
      was forced, never when an out-source trigger was, and otherwise when the sweep starts
      past the forced position. */
  lemma MarkedForced(cfg: Config, v: View, st: State, n: nat)
    requires InRange(cfg, v) && Fits(cfg, v, st) && !st.triggered && st.outIndex == 0
    requires FindTrigger(cfg, v, st).1
    ensures var (st', _) := FindTrigger(cfg, v, st);
            var forced := MakeFrame(cfg, v, st', n).forced;
            if TriggerAt(cfg, v, st.index).None? then forced <==> cfg.trigger.InStream?
            else forced <==> cfg.force != 0 && TriggerAt(cfg, v, st.index).value + cfg.offset > st.forceIndex
  {
    hide Chunks, FirstEdge, ReachedZero;
  }

  /** How many chunks go out: none before one has ended short of the newest sample; then
      all that are collected, but no more than the count has left. */
  lemma AvailableExact(cfg: Config, captureI: nat, st: State)
    requires cfg.decimate >= 1 && (cfg.count > 0 ==> st.outIndex <= cfg.count)
    ensures var n := Available(cfg, captureI, st);
            var left := cfg.count - st.outIndex;
            && (captureI <= st.index + cfg.decimate ==> n == 0)
            && (captureI > st.index + cfg.decimate ==>
                  && st.index + n * cfg.decimate <= captureI
                  && (cfg.count > 0 ==> n <= left)
                  && ((cfg.count > 0 && n == left) || captureI < st.index + (n + 1) * cfg.decimate))
  {
    var d := cfg.decimate;
    if captureI > st.index + d {
      var q := (captureI - st.index) / d;
      var n := Available(cfg, captureI, st);
      assert (q + 1) * d == q * d + d;
      Monotone(n, q, d);
    }
  }

  datatype Pass =
    | Return(st: State, keep: bool, sent: seq<Frame>)
    | Rearm(st: State, frame: Frame)
  {
    function Sent(): seq<Frame> {
      if Return? then sent else [frame]
    }
  }

  /** One turn of the delivery loop. */
  ghost function OnePass(cfg: Config, v: View, link: Link, st: State): Pass
    requires ValidConfig(cfg) && InRange(cfg, v) && Fits(cfg, v, st)
  {
    if cfg.sink.Rest? && link.closed then Return(st, false, [])
    else if cfg.trigger.NoTrigger? || st.triggered then Deliver(cfg, v, link, st)
    else
      var (st1, found) := FindTrigger(cfg, v, st);
      if found then Deliver(cfg, v, link, st1) else Return(st1, true, [])
  }

  ghost function Deliver(cfg: Config, v: View, link: Link, st: State): Pass
    requires ValidConfig(cfg) && InRange(cfg, v)
  {
    var n := Available(cfg, v.captureI, st);
    if n == 0 then Return(st, true, [])
    else if cfg.sink.Rest? && link.sendFails then Return(st, false, [])
    else
      var frame := MakeFrame(cfg, v, st, n);
      var (st', again, keep) := Advance(cfg, st, n);
      if again then Rearm(st', frame) else Return(st', keep, [frame])
  }

  /** Moving past n delivered chunks: the new cursor, whether a finished sweep
      re-arms, and otherwise whether the listener stays. */
  function Advance(cfg: Config, st: State, n: nat): (State, bool, bool) {
    var st' := st.(index := st.index + n * cfg.decimate, outIndex := st.outIndex + n);
    if cfg.sink.Rest? then (st', false, !(cfg.count > 0 && st'.outIndex >= cfg.count))
    else if WillBeDone(cfg, st, n) && cfg.repeat then (Rearmed(cfg, st'), true, true)
    else (st', false, !WillBeDone(cfg, st, n))
  }

  function Rearmed(cfg: Config, st: State): State {
    var index := WrappingAddSigned(st.index, cfg.holdoff);
    st.(outIndex := 0, triggered := false, index := index, forceIndex := index + cfg.force)
  }

  // ---- when re-arming makes progress ----

  /** Every re-arm moves forward: past the edge that fired, strictly past a phase
      zero or a forced position. Whether it holds is known when the listener is made. */
  predicate Progress(cfg: Config) {
    cfg.repeat && cfg.count > 0 ==>
      var advance := cfg.offset + cfg.count * cfg.decimate + cfg.holdoff;
      match cfg.trigger
      case NoTrigger => true
      case InStream(_, _, _) => advance >= 0
      case OutSource(_) => advance > 0 && (cfg.force != 0 ==> cfg.force + cfg.count * cfg.decimate + cfg.holdoff > 0)
  }

  /** The invariant of a listener's cursor between calls. */
  predicate StateOk(cfg: Config, st: State) {
    && (cfg.count > 0 ==> st.outIndex < cfg.count)
    && (!cfg.trigger.NoTrigger? && !st.triggered ==> st.outIndex == 0)
    && (cfg.trigger.OutSource? && !st.triggered ==> st.forceIndex >= st.index + cfg.force)
  }

  /** How far an armed listener can still move before it must wait for data. */
  function Distance(cfg: Config, captureI: nat, st: State): nat {
    Max(0, captureI + Max(0, -cfg.offset) - st.index)
  }

  /** A whole sweep is delivered before a re-arm, wherever the sweep stood. */
  lemma DeliverRearms(cfg: Config, v: View, link: Link, st: State)
    requires ValidConfig(cfg) && InRange(cfg, v) && StateOk(cfg, st)
    requires Deliver(cfg, v, link, st).Rearm?
    ensures cfg.count > 0 && cfg.repeat && !cfg.trigger.NoTrigger?
    ensures Available(cfg, v.captureI, st) == cfg.count - st.outIndex
    ensures st.index + (cfg.count - st.outIndex) * cfg.decimate <= v.captureI
    ensures Deliver(cfg, v, link, st).st
         == Rearmed(cfg, st.(index := st.index + (cfg.count - st.outIndex) * cfg.decimate, outIndex := cfg.count))
  {
    var n := (v.captureI - st.index) / cfg.decimate;
    Monotone(cfg.count - st.outIndex, n, cfg.decimate);
  }

  /** One delivery: nothing while no chunk is available; a REST stream that cannot be written
      ends the listener; otherwise one frame of all available chunks. The cursor moves past
      them, unless they complete a repeating sweep; without repeat the listener leaves with
      the last chunk of its count. */
  lemma DeliverExact(cfg: Config, v: View, link: Link, st: State)
    requires ValidConfig(cfg) && InRange(cfg, v) && StateOk(cfg, st)
    ensures var pass, n := Deliver(cfg, v, link, st), Available(cfg, v.captureI, st);
            if n == 0 then pass == Return(st, true, [])
            else if cfg.sink.Rest? && link.sendFails then pass == Return(st, false, [])
            else
              && |pass.Sent()| == 1 && var f := pass.Sent()[0];
              && f.idx == st.outIndex && f.sampleIndex == st.index && f.nchunks == n && f.subsample == st.subsample
              && (pass.Rearm? <==> !cfg.sink.Rest? && cfg.repeat && cfg.count > 0 && st.outIndex + n == cfg.count)
              && (pass.Return? ==>
                    && pass.st.index == st.index + n * cfg.decimate && pass.st.outIndex == st.outIndex + n
                    && pass.st.triggered == st.triggered && pass.st.forceIndex == st.forceIndex
                    && (pass.keep <==> cfg.count <= 0 || st.outIndex + n < cfg.count))
  {
    hide Chunks, InRange, Rearmed;
    AvailableExact(cfg, v.captureI, st);
  }

  /** A closed REST stream ends the listener, which sends nothing and stays where it is. */
  lemma ClosedLinkEnds(cfg: Config, v: View, link: Link, st: State)
    requires Callable(cfg, v, st) && cfg.sink.Rest? && link.closed
    ensures Handle(cfg, v, link, st) == (st, [], false)
  {
  }

  /** A re-arm starts over at `holdoff` after the end of the sweep, with the forced position
      counted from there. */
  lemma RearmExact(cfg: Config, v: View, link: Link, st: State)
    requires ValidConfig(cfg) && InRange(cfg, v) && StateOk(cfg, st)
    requires Deliver(cfg, v, link, st).Rearm?
    ensures var now, end := Deliver(cfg, v, link, st).st, st.index + (cfg.count - st.outIndex) * cfg.decimate;
            && now.outIndex == 0 && !now.triggered && now.forceIndex == now.index + cfg.force
            && (end + cfg.holdoff >= 0 ==> now.index == end + cfg.holdoff)
  {
    hide Deliver, Available, InRange, StateOk;
    DeliverRearms(cfg, v, link, st);
  }

  /** Given Progress, a re-arm from an armed state leaves less distance and keeps the
      cursor invariant. When the re-arm itself wraps is the subject of modules RearmWrap
      and CaptureResets. */
  lemma RearmAdvances(cfg: Config, v: View, link: Link, st: State)
    requires ValidConfig(cfg) && InRange(cfg, v) && Fits(cfg, v, st) && StateOk(cfg, st) && Progress(cfg)
    requires !st.triggered && OnePass(cfg, v, link, st).Rearm?
    ensures var st' := OnePass(cfg, v, link, st).st;
            StateOk(cfg, st') && !st'.triggered && Distance(cfg, v.captureI, st') < Distance(cfg, v.captureI, st)
  {
    var (st1, _) := FindTrigger(cfg, v, st);
    DeliverRearms(cfg, v, link, st1);
    var sweep := cfg.count * cfg.decimate;
    Monotone(1, cfg.count, cfg.decimate);
    assert (cfg.count - st1.outIndex) * cfg.decimate == sweep;
  }

  /** What the listener constructor's guard establishes for negative offsets. */
  predicate Guarded(cfg: Config) {
    !cfg.trigger.NoTrigger? && cfg.offset < 0 ==> cfg.offset + cfg.holdoff >= 0
  }

  /** No trigger from here on can reach below sample zero. */
  predicate Ahead(cfg: Config, st: State) {
    st.index + cfg.offset >= 0
  }

  lemma AheadFits(cfg: Config, v: View, st: State)
    requires InRange(cfg, v) && Ahead(cfg, st)
    ensures Fits(cfg, v, st)
  {
  }

  /** After any re-arm of a guarded listener the offset of the next trigger cannot reach
      below sample zero. */
  lemma RearmStaysAhead(cfg: Config, v: View, link: Link, st: State)
    requires ValidConfig(cfg) && InRange(cfg, v) && Fits(cfg, v, st) && StateOk(cfg, st) && Guarded(cfg)
    requires OnePass(cfg, v, link, st).Rearm?
    ensures var st' := OnePass(cfg, v, link, st).st;
            StateOk(cfg, st') && !st'.triggered && Ahead(cfg, st') && Fits(cfg, v, st')
  {
    var st1 := if st.triggered then st else FindTrigger(cfg, v, st).0;
    DeliverRearms(cfg, v, link, st1);
    Monotone(0, cfg.count - st1.outIndex, cfg.decimate);
    AheadFits(cfg, v, OnePass(cfg, v, link, st).st);
  }

  /** What a listener and a device satisfy at every call. */
  ghost predicate Callable(cfg: Config, v: View, st: State) {
    && ValidConfig(cfg) && Progress(cfg) && Guarded(cfg)
    && InRange(cfg, v) && Fits(cfg, v, st) && StateOk(cfg, st)
  }

  /** Everything one call of `handle_new_data` does: the new cursor, the frames it
      sends in order, and whether the listener stays. */
  ghost function Handle(cfg: Config, v: View, link: Link, st: State): (r: (State, seq<Frame>, bool))
    requires Callable(cfg, v, st)
    decreases if st.triggered then 1 else 0, Distance(cfg, v.captureI, st)
  {
    match OnePass(cfg, v, link, st)
    case Return(st', keep, sent) => (st', sent, keep)
    case Rearm(st', frame) =>
      RearmStaysAhead(cfg, v, link, st);
      assert !st.triggered ==> Distance(cfg, v.captureI, st') < Distance(cfg, v.captureI, st) by {
        if !st.triggered { RearmAdvances(cfg, v, link, st); }
      }
      var (last, sent, keep) := Handle(cfg, v, link, st');
      (last, [frame] + sent, keep)
  }

  function Prepend<A, B>(sent: seq<Frame>, r: (A, seq<Frame>, B)): (A, seq<Frame>, B) {
    (r.0, sent + r.1, r.2)
  }

  /** One turn of a call: a re-arm leaves a callable listener with less to do, and
      the rest of the call is what a call from there would do. */
  lemma HandleTurn(cfg: Config, v: View, link: Link, st: State, sent: seq<Frame>)
    requires Callable(cfg, v, st)
    ensures var pass := OnePass(cfg, v, link, st);
            if pass.Return? then Prepend(sent, Handle(cfg, v, link, st)) == (pass.st, sent + pass.Sent(), pass.keep)
            else
              && Callable(cfg, v, pass.st) && !pass.st.triggered
              && (!st.triggered ==> Distance(cfg, v.captureI, pass.st) < Distance(cfg, v.captureI, st))
              && Prepend(sent, Handle(cfg, v, link, st)) == Prepend(sent + pass.Sent(), Handle(cfg, v, link, pass.st))
  {
    var pass := OnePass(cfg, v, link, st);
    if pass.Rearm? {
      RearmStaysAhead(cfg, v, link, st);
      if !st.triggered {
        RearmAdvances(cfg, v, link, st);
      }
      var rest := Handle(cfg, v, link, pass.st);
      assert sent + ([pass.frame] + rest.1) == sent + [pass.frame] + rest.1;
    }
  }

  /** What can be delivered has been collected. */
  lemma AvailableIsCollected(cfg: Config, captureI: nat, st: State)
    requires cfg.decimate >= 1 && Available(cfg, captureI, st) > 0
    ensures ChunkStart(cfg, st.index, Available(cfg, captureI, st)) <= captureI
  {
    var n := (captureI - st.index) / cfg.decimate;
    Monotone(Available(cfg, captureI, st), n, cfg.decimate);
  }

  ghost predicate Collected(cfg: Config, captureI: nat, f: Frame) {
    f.nchunks > 0 && ChunkStart(cfg, f.sampleIndex, f.nchunks) <= captureI
  }

  lemma PassCollected(cfg: Config, v: View, link: Link, st: State)
    requires ValidConfig(cfg) && InRange(cfg, v) && Fits(cfg, v, st)
    ensures forall f :: f in OnePass(cfg, v, link, st).Sent() ==> Collected(cfg, v.captureI, f)
  {
    hide Chunks, InRange, Fits, Available, ChunkStart, FindTrigger;
    var st1 := if cfg.trigger.NoTrigger? || st.triggered then st else FindTrigger(cfg, v, st).0;
    if Available(cfg, v.captureI, st1) > 0 {
      AvailableIsCollected(cfg, v.captureI, st1);
    }
  }

  /** No listener of any kind delivers a sample that has not been collected. */
  lemma {:induction false} NeverReadsAhead(cfg: Config, v: View, link: Link, st: State)
    requires Callable(cfg, v, st)
    ensures forall f :: f in Handle(cfg, v, link, st).1 ==> Collected(cfg, v.captureI, f)
    decreases if st.triggered then 1 else 0, Distance(cfg, v.captureI, st)
  {
    hide Collected, OnePass, Distance, Progress, InRange;
    PassCollected(cfg, v, link, st);
    var pass := OnePass(cfg, v, link, st);
    if pass.Rearm? {
      HandleTurn(cfg, v, link, st, []);
      NeverReadsAhead(cfg, v, link, pass.st);
    }
  }

  /** The marks of a frame: a triggered listener marks the first frame of a sweep as
      triggered and no other; done is on the frame that completes the count of a listener
      that does not repeat, and on no other; only a first frame can be marked as forced. */
  ghost predicate Marked(cfg: Config, f: Frame) {
    && (!cfg.trigger.NoTrigger? ==> (f.triggered <==> f.idx == 0))
    && (f.done <==> !cfg.repeat && cfg.count > 0 && f.idx + f.nchunks == cfg.count)
    && (f.forced ==> f.idx == 0 && cfg.force != 0)
  }

  lemma PassMarked(cfg: Config, v: View, link: Link, st: State)
    requires Callable(cfg, v, st)
    ensures forall f :: f in OnePass(cfg, v, link, st).Sent() ==> Marked(cfg, f)
  {
    hide Chunks, InRange, FirstEdge, ReachedZero, Progress, Rearmed;
    var st1 := if cfg.trigger.NoTrigger? || st.triggered then st else FindTrigger(cfg, v, st).0;
    AvailableExact(cfg, v.captureI, st1);
  }

  /** So are all frames of every call, however many sweeps it delivers. */
  lemma {:induction false} CallMarked(cfg: Config, v: View, link: Link, st: State)
    requires Callable(cfg, v, st)
    ensures forall f :: f in Handle(cfg, v, link, st).1 ==> Marked(cfg, f)
    decreases if st.triggered then 1 else 0, Distance(cfg, v.captureI, st)
  {
    hide Marked, OnePass, Distance, Progress, InRange;
    PassMarked(cfg, v, link, st);
    var pass := OnePass(cfg, v, link, st);
    if pass.Rearm? {
      HandleTurn(cfg, v, link, st, []);
      CallMarked(cfg, v, link, pass.st);
    }
  }
}
