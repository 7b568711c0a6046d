/** What a listener delivers from a continuous ring (src/listener.rs, src/streaming.rs):
    with enough room every chunk is a mean of the captured signal and every sweep starts at
    one of its edges, and how much room a negative trigger offset needs. */
module TriggerRoom {
  import opened Common
  import opened Samples
  import opened RingBuffer
  import opened ListenerModel
  import opened Packetisation
  import opened Sweeps
  import opened Witnesses
  import E = EdgeScan
  import R = RingRoom

  /** An untriggered or in-stream listener whose sweeps, if there are several, stay apart. */
  predicate Following(cfg: Config) {
    && ValidConfig(cfg) && Guarded(cfg) && !cfg.trigger.OutSource?
    && (cfg.repeat && cfg.count > 0 ==> Apart(cfg))
  }

  /** Histories that hold every stream and the trigger stream of cfg. */
  ghost predicate Recorded(cfg: Config, hist: seq<seq<seq<Sample>>>, length: nat) {
    && Histories(cfg, hist, length)
    && (cfg.trigger.InStream? ==>
          cfg.trigger.channel < |hist| && cfg.trigger.stream < |hist[cfg.trigger.channel]|)
  }

  /** The streams of v are what a reader sees of a continuous capture of hist. */
  ghost predicate Shows(v: View, hist: seq<seq<seq<Sample>>>, length: nat, caps: nat) {
    && (forall c, s :: 0 <= c < |hist| && 0 <= s < |hist[c]| ==> |hist[c][s]| == length)
    && v.captureI <= length && v.streams == ViewOf(hist, length, caps, v.captureI).streams
  }

  lemma ShowsStream(v: View, hist: seq<seq<seq<Sample>>>, length: nat, caps: nat, c: nat, s: nat)
    requires Shows(v, hist, length, caps) && c < |hist| && s < |hist[c]|
    ensures v.Has(c, s) && v.streams[c][s] == Seen(hist[c][s], caps, v.captureI)
  {
    assert ViewOf(hist, length, caps, v.captureI).Has(c, s);
  }

  /** Every chunk of the frame is the mean of its window of the history. */
  ghost predicate Faithful(cfg: Config, hist: seq<seq<seq<Sample>>>, length: nat, f: Frame)
    requires Histories(cfg, hist, length)
  {
    && |f.data| == |cfg.streams|
    && forall x :: 0 <= x < |f.data| ==>
         f.data[x] == Ideal(hist[cfg.streams[x].0][cfg.streams[x].1], f.sampleIndex, cfg.decimate, f.nchunks)
  }

  ghost predicate AllFaithful(cfg: Config, hist: seq<seq<seq<Sample>>>, length: nat, fs: seq<Frame>)
    requires Histories(cfg, hist, length)
  {
    forall i :: 0 <= i < |fs| ==> Faithful(cfg, hist, length, fs[i])
  }

  /** What the listener may still want to read has not been overwritten. */
  predicate Within(cfg: Config, caps: nat, c: nat, st: State) {
    c > caps ==>
      if Delivering(cfg, st) then st.index > c - caps
      else (cfg.holdoff >= 0 ==> st.index > c - caps) && st.index + 1 + cfg.offset > c - caps
  }

  /** Everything that can be delivered or scanned has been. */
  predicate CaughtUp(cfg: Config, c: nat, st: State) {
    if Delivering(cfg, st) then c <= st.index + cfg.decimate else c <= st.index
  }

  /** Enough room for a decimation window, and for a trigger offset back, beside a packet. */
  predicate Room(cfg: Config, caps: nat, packet: nat) {
    cfg.decimate + packet < caps && (cfg.trigger.InStream? ==> packet - cfg.offset <= caps)
  }

  lemma CaughtUpStaysWithin(cfg: Config, caps: nat, packet: nat, c: nat, c': nat, st: State)
    requires Following(cfg) && Room(cfg, caps, packet) && CaughtUp(cfg, c, st) && c <= c' <= c + packet
    ensures Within(cfg, caps, c', st)
  {
  }

  // ---- one call ----

  lemma ChunksFaithful(cfg: Config, hist: seq<seq<seq<Sample>>>, length: nat, caps: nat, v: View, index: nat, n: nat,
                       x: nat)
    requires ValidConfig(cfg) && Histories(cfg, hist, length) && Shows(v, hist, length, caps) && x < |cfg.streams|
    requires caps > 0 && ChunkStart(cfg, index, n) <= v.captureI
    requires v.captureI > caps ==> index > v.captureI - caps
    requires v.Has(cfg.streams[x].0, cfg.streams[x].1)
    ensures StreamChunks(cfg, v, x, index, n)
         == Ideal(hist[cfg.streams[x].0][cfg.streams[x].1], index, cfg.decimate, n)
  {
    hide Seen;
    var at := cfg.streams[x];
    var h := hist[at.0][at.1];
    ShowsStream(v, hist, length, caps, at.0, at.1);
    forall k | 0 <= k < n
      ensures StreamChunks(cfg, v, x, index, n)[k] == WindowMean(h, index, cfg.decimate, k)
    {
      var p := ChunkStart(cfg, index, k);
      assert (k + 1) * cfg.decimate == k * cfg.decimate + cfg.decimate;
      Monotone(k + 1, n, cfg.decimate);
      ReadableWindow(h, caps, v.captureI, p, cfg.decimate);
    }
  }

  lemma FrameFaithful(cfg: Config, hist: seq<seq<seq<Sample>>>, length: nat, caps: nat, v: View, st: State, n: nat)
    requires ValidConfig(cfg) && Histories(cfg, hist, length) && Shows(v, hist, length, caps) && InRange(cfg, v)
    requires caps > 0 && ChunkStart(cfg, st.index, n) <= v.captureI
    requires v.captureI > caps ==> st.index > v.captureI - caps
    ensures Faithful(cfg, hist, length, MakeFrame(cfg, v, st, n))
  {
    hide Ideal, Shows;
    forall x | 0 <= x < |cfg.streams|
      ensures Chunks(cfg, v, st.index, n)[x]
           == Ideal(hist[cfg.streams[x].0][cfg.streams[x].1], st.index, cfg.decimate, n)
    {
      ChunksFaithful(cfg, hist, length, caps, v, st.index, n, x);
      assert Chunks(cfg, v, st.index, n)[x] == StreamChunks(cfg, v, x, st.index, n);
    }
  }

  lemma DeliverFaithful(cfg: Config, hist: seq<seq<seq<Sample>>>, length: nat, caps: nat, v: View, st: State)
    requires Following(cfg) && Histories(cfg, hist, length) && Shows(v, hist, length, caps) && InRange(cfg, v)
    requires caps > 0 && StateOk(cfg, st) && Delivering(cfg, st) && Within(cfg, caps, v.captureI, st)
    ensures var pass := Deliver(cfg, v, OPEN, st);
            && AllFaithful(cfg, hist, length, pass.Sent())
            && (pass.Rearm? ==> Within(cfg, caps, v.captureI, pass.st) && pass.frame == pass.Sent()[0])
            && (pass.Return? && pass.keep ==> CaughtUp(cfg, v.captureI, pass.st))
  {
    hide Faithful, Shows, Ideal, Chunks, InRange;
    var n := Available(cfg, v.captureI, st);
    if n > 0 {
      AvailableIsCollected(cfg, v.captureI, st);
      FrameFaithful(cfg, hist, length, caps, v, st, n);
      DivideChunks(v.captureI - st.index, cfg.decimate);
      Monotone(1, n, cfg.decimate);
    }
  }

  lemma FindWithin(cfg: Config, v: View, st: State, caps: nat)
    requires cfg.trigger.InStream? && InRange(cfg, v) && Fits(cfg, v, st) && !st.triggered && caps > 0
    requires Within(cfg, caps, v.captureI, st)
    ensures var (st', found) := FindTrigger(cfg, v, st);
            && st'.triggered == found && st'.outIndex == st.outIndex
            && if found then Within(cfg, caps, v.captureI, st') else CaughtUp(cfg, v.captureI, st')
  {
  }

  lemma PassFaithful(cfg: Config, hist: seq<seq<seq<Sample>>>, length: nat, caps: nat, v: View, st: State)
    requires Following(cfg) && Recorded(cfg, hist, length) && Shows(v, hist, length, caps) && Callable(cfg, v, st)
    requires caps > 0 && Within(cfg, caps, v.captureI, st)
    ensures var pass := OnePass(cfg, v, OPEN, st);
            && AllFaithful(cfg, hist, length, pass.Sent())
            && (pass.Rearm? ==> Within(cfg, caps, v.captureI, pass.st))
            && (pass.Return? && pass.keep ==> CaughtUp(cfg, v.captureI, pass.st))
  {
    hide Deliver, FindTrigger, Fits, InRange, Shows, Faithful, Within, CaughtUp, Progress, Guarded;
    if Delivering(cfg, st) {
      DeliverFaithful(cfg, hist, length, caps, v, st);
    } else {
      var (st', found) := FindTrigger(cfg, v, st);
      FindWithin(cfg, v, st, caps);
      if found {
        DeliverFaithful(cfg, hist, length, caps, v, st');
      }
    }
  }

  lemma AppendFaithful(cfg: Config, hist: seq<seq<seq<Sample>>>, length: nat, a: seq<Frame>, b: seq<Frame>)
    requires Histories(cfg, hist, length) && AllFaithful(cfg, hist, length, a) && AllFaithful(cfg, hist, length, b)
    ensures AllFaithful(cfg, hist, length, a + b)
  {
  }

  /** One call on a listener that finds what it wants delivers means of the history only,
      however many sweeps, and leaves nothing behind. */
  lemma {:induction false} CallFaithful(cfg: Config, hist: seq<seq<seq<Sample>>>, length: nat, caps: nat, v: View,
                                        st: State)
    requires Following(cfg) && Recorded(cfg, hist, length) && Shows(v, hist, length, caps) && Callable(cfg, v, st)
    requires caps > 0 && Within(cfg, caps, v.captureI, st)
    ensures var (st', sent, keep) := Handle(cfg, v, OPEN, st);
            AllFaithful(cfg, hist, length, sent) && (keep ==> CaughtUp(cfg, v.captureI, st'))
    decreases if st.triggered then 1 else 0, Distance(cfg, v.captureI, st)
  {
    hide OnePass, Distance, Shows, Within, CaughtUp, AllFaithful, Recorded, Following;
    RecordedHas(cfg, hist, length);
    PassFaithful(cfg, hist, length, caps, v, st);
    HandleTurn(cfg, v, OPEN, st, []);
    var pass := OnePass(cfg, v, OPEN, st);
    if pass.Rearm? {
      CallFaithful(cfg, hist, length, caps, v, pass.st);
      AppendFaithful(cfg, hist, length, pass.Sent(), Handle(cfg, v, OPEN, pass.st).1);
    }
  }

  lemma RecordedHas(cfg: Config, hist: seq<seq<seq<Sample>>>, length: nat)
    requires Recorded(cfg, hist, length)
    ensures Histories(cfg, hist, length)
  {
  }

  // ---- where sweeps start ----

  /** An in-stream listener that is never forced and never goes back to re-arm. */
  predicate Sharp(cfg: Config) {
    cfg.trigger.InStream? && cfg.force == 0 && cfg.holdoff >= 0
  }

  function Watched(cfg: Config, hist: seq<seq<seq<Sample>>>): seq<Sample>
    requires cfg.trigger.InStream? && cfg.trigger.channel < |hist| && cfg.trigger.stream < |hist[cfg.trigger.channel]|
  {
    hist[cfg.trigger.channel][cfg.trigger.stream]
  }

  /** A sweep that has been triggered and not begun will start `offset` after an edge. */
  predicate Latched(cfg: Config, h: seq<Sample>, st: State)
    requires cfg.trigger.InStream?
  {
    st.triggered && st.outIndex == 0 ==> Edge(h, cfg.trigger.level, st.index - cfg.offset)
  }

  ghost predicate AtEdges(cfg: Config, h: seq<Sample>, fs: seq<Frame>)
    requires cfg.trigger.InStream?
  {
    forall i :: 0 <= i < |fs| && fs[i].idx == 0 ==> Edge(h, cfg.trigger.level, fs[i].sampleIndex - cfg.offset)
  }

  lemma FindAtEdge(cfg: Config, hist: seq<seq<seq<Sample>>>, length: nat, caps: nat, v: View, st: State)
    requires Sharp(cfg) && Recorded(cfg, hist, length) && Shows(v, hist, length, caps)
    requires InRange(cfg, v) && Fits(cfg, v, st) && !st.triggered && caps > 0
    requires Within(cfg, caps, v.captureI, st)
    ensures Latched(cfg, Watched(cfg, hist), FindTrigger(cfg, v, st).0)
  {
    hide Seen;
    var h := Watched(cfg, hist);
    ShowsStream(v, hist, length, caps, cfg.trigger.channel, cfg.trigger.stream);
    E.ReportedIsEdge(h, caps, cfg.trigger.level, v.captureI, st.index);
  }

  lemma DeliverAtEdge(cfg: Config, h: seq<Sample>, v: View, st: State)
    requires cfg.trigger.InStream? && ValidConfig(cfg) && InRange(cfg, v) && st.triggered && Latched(cfg, h, st)
    ensures var pass := Deliver(cfg, v, OPEN, st);
            AtEdges(cfg, h, pass.Sent()) && (pass.Rearm? || pass.keep ==> Latched(cfg, h, pass.st))
  {
  }

  lemma PassAtEdge(cfg: Config, hist: seq<seq<seq<Sample>>>, length: nat, caps: nat, v: View, st: State)
    requires Sharp(cfg) && Recorded(cfg, hist, length) && Shows(v, hist, length, caps)
    requires Callable(cfg, v, st) && caps > 0 && Within(cfg, caps, v.captureI, st)
    requires Latched(cfg, Watched(cfg, hist), st)
    ensures var pass := OnePass(cfg, v, OPEN, st);
            && AtEdges(cfg, Watched(cfg, hist), pass.Sent())
            && (pass.Rearm? || pass.keep ==> Latched(cfg, Watched(cfg, hist), pass.st))
  {
    hide Deliver, FindTrigger, Fits, InRange, Shows, Within, Edge, Progress, Guarded;
    if st.triggered {
      DeliverAtEdge(cfg, Watched(cfg, hist), v, st);
    } else {
      var (st', found) := FindTrigger(cfg, v, st);
      FindWithin(cfg, v, st, caps);
      FindAtEdge(cfg, hist, length, caps, v, st);
      if found {
        DeliverAtEdge(cfg, Watched(cfg, hist), v, st');
      }
    }
  }

  lemma AppendAtEdges(cfg: Config, h: seq<Sample>, a: seq<Frame>, b: seq<Frame>)
    requires cfg.trigger.InStream? && AtEdges(cfg, h, a) && AtEdges(cfg, h, b)
    ensures AtEdges(cfg, h, a + b)
  {
  }

  /** Every sweep that a call starts begins `offset` after an edge of the history. */
  lemma {:induction false} CallAtEdges(cfg: Config, hist: seq<seq<seq<Sample>>>, length: nat, caps: nat, v: View,
                                       st: State)
    requires Sharp(cfg) && Following(cfg) && Recorded(cfg, hist, length) && Shows(v, hist, length, caps)
    requires Callable(cfg, v, st) && caps > 0 && Within(cfg, caps, v.captureI, st)
    requires Latched(cfg, Watched(cfg, hist), st)
    ensures var (st', sent, keep) := Handle(cfg, v, OPEN, st);
            && AtEdges(cfg, Watched(cfg, hist), sent)
            && (keep ==> Latched(cfg, Watched(cfg, hist), st'))
    decreases if st.triggered then 1 else 0, Distance(cfg, v.captureI, st)
  {
    hide OnePass, Distance, Shows, Within, AtEdges, Latched, Following;
    RecordedHas(cfg, hist, length);
    PassFaithful(cfg, hist, length, caps, v, st);
    PassAtEdge(cfg, hist, length, caps, v, st);
    HandleTurn(cfg, v, OPEN, st, []);
    var pass := OnePass(cfg, v, OPEN, st);
    if pass.Rearm? {
      CallAtEdges(cfg, hist, length, caps, v, pass.st);
      AppendAtEdges(cfg, Watched(cfg, hist), pass.Sent(), Handle(cfg, v, OPEN, pass.st).1);
    }
  }

  // ---- runs ----

  /** Calls at the given numbers of collected samples deliver means of the history only,
      as long as the listener stays and they can be made. */
  ghost predicate RunFaithful(cfg: Config, hist: seq<seq<seq<Sample>>>, length: nat, caps: nat, st: State,
                              cuts: seq<nat>)
    requires Histories(cfg, hist, length) && forall k :: 0 <= k < |cuts| ==> cuts[k] <= length
    decreases |cuts|
  {
    cuts == [] ||
    var v := ViewOf(hist, length, caps, cuts[0]);
    Callable(cfg, v, st) ==>
      var (st', sent, keep) := Handle(cfg, v, OPEN, st);
      AllFaithful(cfg, hist, length, sent) && (keep ==> RunFaithful(cfg, hist, length, caps, st', cuts[1..]))
  }

  /** Packets of at most `packet` samples, the first finding what the listener wants. */
  ghost predicate Regular(cfg: Config, caps: nat, packet: nat, st: State, cuts: seq<nat>) {
    && (cuts != [] ==> Within(cfg, caps, cuts[0], st))
    && (forall i :: 0 <= i < |cuts| - 1 ==> InStep(cuts, i, packet))
  }

  lemma {:induction false} EnoughRoom(cfg: Config, hist: seq<seq<seq<Sample>>>, length: nat, caps: nat, packet: nat,
                                      st: State, cuts: seq<nat>)
    requires Following(cfg) && Room(cfg, caps, packet) && Recorded(cfg, hist, length)
    requires forall k :: 0 <= k < |cuts| ==> cuts[k] <= length
    requires Regular(cfg, caps, packet, st, cuts)
    ensures RunFaithful(cfg, hist, length, caps, st, cuts)
    decreases |cuts|
  {
    hide Handle, Callable, AllFaithful, Within, CaughtUp, Recorded, Following, Room;
    RecordedHas(cfg, hist, length);
    if cuts != [] {
      var v := ViewOf(hist, length, caps, cuts[0]);
      if Callable(cfg, v, st) {
        RoomIsPositive(cfg, caps, packet);
        CallFaithful(cfg, hist, length, caps, v, st);
        var st' := Handle(cfg, v, OPEN, st).0;
        if Handle(cfg, v, OPEN, st).2 {
          NextRegular(cfg, caps, packet, st, cuts, st');
          EnoughRoom(cfg, hist, length, caps, packet, st', cuts[1..]);
        }
      }
    }
  }

  lemma RoomIsPositive(cfg: Config, caps: nat, packet: nat)
    requires Room(cfg, caps, packet)
    ensures caps > 0
  {
  }

  lemma NextRegular(cfg: Config, caps: nat, packet: nat, st: State, cuts: seq<nat>, st': State)
    requires Following(cfg) && Room(cfg, caps, packet) && cuts != [] && Regular(cfg, caps, packet, st, cuts)
    requires CaughtUp(cfg, cuts[0], st')
    ensures Regular(cfg, caps, packet, st', cuts[1..])
  {
    hide CaughtUp, Within, Room;
    forall i | 0 <= i < |cuts[1..]| - 1
      ensures InStep(cuts[1..], i, packet)
    {
      assert InStep(cuts, i + 1, packet);
    }
    if |cuts| > 1 {
      assert InStep(cuts, 0, packet);
      CaughtUpStaysWithin(cfg, caps, packet, cuts[0], cuts[1], st');
    }
  }

  // ---- less room is not enough ----

  /** A signal below the level before e and above it from then on. */
  function StepAt(level: real, e: nat, n: nat): (h: seq<Sample>)
    ensures |h| == n && forall i :: 0 <= i < n ==> h[i] == if i < e then Num(level) else Num(level + 1.0)
  {
    seq(n, i => if i < e then Num(level) else Num(level + 1.0))
  }

  /** An unforced in-stream listener that reads some stream. */
  predicate Single(cfg: Config) {
    Following(cfg) && cfg.trigger.InStream? && cfg.force == 0 && !cfg.sink.Rest? && |cfg.streams| > 0
  }

  lemma SingleProgress(cfg: Config)
    requires Single(cfg)
    ensures Progress(cfg)
  {
    HoldoffKeepsApart(cfg);
  }

  /** A call before the edge leaves the listener waiting at the newest sample. */
  lemma QuietCall(cfg: Config, h: seq<Sample>, e: nat, caps: nat, c: nat, st: State)
    requires Single(cfg) && h == StepAt(cfg.trigger.level, e, |h|) && c <= e && c <= |h|
    requires !st.triggered && st.outIndex == 0 && st.index < c
    ensures var v := ViewOf(EveryStream(cfg, h), |h|, caps, c);
            Callable(cfg, v, st) && Handle(cfg, v, OPEN, st) == (st.(index := c, subsample := 0.0), [], true)
  {
    hide Handle, Progress;
    SingleProgress(cfg);
    var v := ViewOf(EveryStream(cfg, h), |h|, caps, c);
    FirstEdgeExact(Seen(h, caps, c), cfg.trigger.level, st.index + 1);
    assert v.Has(cfg.trigger.channel, cfg.trigger.stream);
    assert v.streams[cfg.trigger.channel][cfg.trigger.stream] == Seen(h, caps, c);
    E.WaitingCall(cfg, v, st);
  }

  /** The call that finds the edge delivers a chunk whose first sample is overwritten. */
  lemma OverwrittenCall(cfg: Config, h: seq<Sample>, e: nat, caps: nat, c: nat, st: State)
    requires Single(cfg) && h == StepAt(cfg.trigger.level, e, |h|) && c <= |h| && caps > 0
    requires !st.triggered && st.outIndex == 0 && st.index + 1 == e < c && c > caps && st.index > c - caps
    requires 0 <= e + cfg.offset <= c - caps && e + cfg.offset + cfg.decimate < c
    ensures var v := ViewOf(EveryStream(cfg, h), |h|, caps, c);
            Callable(cfg, v, st) && !AllFaithful(cfg, EveryStream(cfg, h), |h|, Handle(cfg, v, OPEN, st).1)
  {
    hide Progress;
    SingleProgress(cfg);
    var hist := EveryStream(cfg, h);
    var v := ViewOf(hist, |h|, caps, c);
    assert v.Has(cfg.trigger.channel, cfg.trigger.stream);
    FirstEdgeIs(Seen(h, caps, c), cfg.trigger.level, e, e);
    var found := FindTrigger(cfg, v, st).0;
    SomeChunk(cfg, c, found);
    var f := MakeFrame(cfg, v, found, Available(cfg, c, found));
    assert OnePass(cfg, v, OPEN, st).Sent() == [f];
    HandleTurn(cfg, v, OPEN, st, []);
    assert Handle(cfg, v, OPEN, st).1[0] == f;
    FirstChunkLost(cfg, h, caps, c, f, v);
  }

  lemma SomeChunk(cfg: Config, captureI: nat, st: State)
    requires ValidConfig(cfg) && st.outIndex == 0 && st.index + cfg.decimate < captureI
    ensures Available(cfg, captureI, st) > 0
  {
    DivideChunks(captureI - st.index, cfg.decimate);
    if (captureI - st.index) / cfg.decimate <= 0 {
      Monotone((captureI - st.index) / cfg.decimate, 0, cfg.decimate);
    }
  }

  lemma FirstChunkLost(cfg: Config, h: seq<Sample>, caps: nat, c: nat, f: Frame, v: View)
    requires ValidConfig(cfg) && |cfg.streams| > 0 && c <= |h| && c > caps && forall i :: 0 <= i < |h| ==> h[i].Num?
    requires v == ViewOf(EveryStream(cfg, h), |h|, caps, c) && InRange(cfg, v)
    requires f.nchunks > 0 && f.sampleIndex <= c - caps && f.sampleIndex + cfg.decimate <= c
    requires f.data == Chunks(cfg, v, f.sampleIndex, f.nchunks)
    ensures !Faithful(cfg, EveryStream(cfg, h), |h|, f)
  {
    hide Seen;
    var at, p, d := cfg.streams[0], f.sampleIndex, cfg.decimate;
    assert v.Has(at.0, at.1) && v.streams[at.0][at.1] == Seen(h, caps, c);
    R.Overwritten(h, caps, c, p, d);
    assert ChunkStart(cfg, p, 0) == p;
    assert f.data[0][0] == NaN;
    MeanIsNaN(h[p..p + d]);
    assert Ideal(h, p, d, f.nchunks)[0] == WindowMean(h, p, d, 0) != NaN;
  }

  /** With less room some run delivers an overwritten window: the listener waits until
      enough samples are in for its offset, and then finds an edge right behind the newest
      of them in a full packet. */
  lemma {:induction false} LittleRoomFrom(cfg: Config, h: seq<Sample>, caps: nat, packet: nat, e: nat, c: nat,
                                          st: State) returns (cuts: seq<nat>)
    requires Single(cfg) && 2 <= packet && cfg.decimate + packet < caps < packet - cfg.offset
    requires e > caps && e + cfg.offset == 1 + Max(0, caps + cfg.offset)
    requires h == StepAt(cfg.trigger.level, e, e - 1 + packet) && c < e
    requires !st.triggered && st.outIndex == 0 && st.index == c
    ensures cuts != [] && c < cuts[0] <= c + packet
    ensures forall k :: 0 <= k < |cuts| ==> cuts[k] <= |h|
    ensures forall i :: 0 <= i < |cuts| - 1 ==> InStep(cuts, i, packet)
    ensures !RunFaithful(cfg, EveryStream(cfg, h), |h|, caps, st, cuts)
    decreases e - c
  {
    hide Handle, Callable, AllFaithful, Single, StepAt, ViewOf, EveryStream;
    if c == e - 1 {
      cuts := [|h|];
      OverwrittenCall(cfg, h, e, caps, |h|, st);
    } else {
      var next := Min(c + packet, e - 1);
      QuietCall(cfg, h, e, caps, next, st);
      var rest := LittleRoomFrom(cfg, h, caps, packet, e, next, st.(index := next, subsample := 0.0));
      cuts := [next] + rest;
      assert cuts[1..] == rest;
      forall i | 0 <= i < |cuts| - 1
        ensures InStep(cuts, i, packet)
      {
        if i > 0 {
          assert InStep(rest, i - 1, packet);
        }
      }
    }
  }

  lemma LittleRoom(cfg: Config, caps: nat, packet: nat) returns (h: seq<Sample>, cuts: seq<nat>)
    requires Single(cfg) && 2 <= packet && cfg.decimate + packet < caps < packet - cfg.offset
    ensures forall k :: 0 <= k < |cuts| ==> cuts[k] <= |h|
    ensures Regular(cfg, caps, packet, State(0, 0, false, 0, 0.0), cuts)
    ensures !RunFaithful(cfg, EveryStream(cfg, h), |h|, caps, State(0, 0, false, 0, 0.0), cuts)
  {
    var e := Max(caps, -cfg.offset) + 1;
    h := StepAt(cfg.trigger.level, e, e - 1 + packet);
    cuts := LittleRoomFrom(cfg, h, caps, packet, e, 0, State(0, 0, false, 0, 0.0));
  }

  /** What the room is for, on one run from a start. */
  ghost predicate Ideally(cfg: Config, caps: nat, packet: nat, hist: seq<seq<seq<Sample>>>, length: nat, start: nat,
                          cuts: seq<nat>)
  {
    var st := State(start, 0, false, start + cfg.force, 0.0);
    && Recorded(cfg, hist, length) && Regular(cfg, caps, packet, st, cuts)
    && (forall k :: 0 <= k < |cuts| ==> cuts[k] <= length)
    ==> RunFaithful(cfg, hist, length, caps, st, cuts)
  }

  /** Main theorem: in a ring with the room of an untriggered listener, an in-stream
      listener never delivers an overwritten sample, whatever the packets of at most
      `packet` samples, exactly when its offset reaches no further back than the ring
      holds beside a packet. */
  lemma RoomIsExact(cfg: Config, caps: nat, packet: nat)
    requires Single(cfg) && 2 <= packet && cfg.decimate + packet < caps
    ensures packet - cfg.offset <= caps <==>
            forall hist: seq<seq<seq<Sample>>>, length: nat, start: nat, cuts: seq<nat> ::
              Ideally(cfg, caps, packet, hist, length, start, cuts)
  {
    hide RunFaithful, Regular, Single;
    SingleFollows(cfg);
    if packet - cfg.offset <= caps {
      forall hist: seq<seq<seq<Sample>>>, length: nat, start: nat, cuts: seq<nat>
        ensures Ideally(cfg, caps, packet, hist, length, start, cuts)
      {
        RoomIsEnough(cfg, caps, packet, hist, length, start, cuts);
      }
    } else {
      var h, cuts := LittleRoom(cfg, caps, packet);
      assert Recorded(cfg, EveryStream(cfg, h), |h|);
      assert !Ideally(cfg, caps, packet, EveryStream(cfg, h), |h|, 0, cuts);
    }
  }

  lemma SingleFollows(cfg: Config)
    requires Single(cfg)
    ensures Following(cfg) && cfg.trigger.InStream? && cfg.force == 0
  {
  }

  lemma RoomIsEnough(cfg: Config, caps: nat, packet: nat, hist: seq<seq<seq<Sample>>>, length: nat, start: nat,
                     cuts: seq<nat>)
    requires Following(cfg) && Room(cfg, caps, packet)
    ensures Ideally(cfg, caps, packet, hist, length, start, cuts)
  {
    hide RunFaithful, Recorded, Regular, Following, Room;
    var st := State(start, 0, false, start + cfg.force, 0.0);
    if Recorded(cfg, hist, length) && Regular(cfg, caps, packet, st, cuts)
       && forall k :: 0 <= k < |cuts| ==> cuts[k] <= length {
      EnoughRoom(cfg, hist, length, caps, packet, st, cuts);
    }
  }
}
