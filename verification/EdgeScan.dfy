/** What the in-stream trigger scan can miss (src/listener.rs). Each call scans the
    samples it has not scanned before, but never reports the sample it restarts at. */
module EdgeScan {
  import opened Common
  import opened Samples
  import opened RingBuffer
  import opened ListenerModel
  import opened Packetisation
  import opened SweepLimits
  import opened Witnesses

  /** Where scan number k starts: the listener's index when the k-th call is made,
      the calls being made with cuts[0], cuts[1], ... samples collected. */
  function Restart(i0: nat, cuts: seq<nat>, k: nat): nat
    requires k <= |cuts|
  {
    if k == 0 then i0 else Max(Restart(i0, cuts, k - 1) + 1, cuts[k - 1])
  }

  lemma RestartStep(i0: nat, cuts: seq<nat>, k: nat)
    requires k < |cuts|
    ensures Restart(i0, cuts, k + 1) == Max(Restart(i0, cuts, k) + 1, cuts[k])
  {
  }

  /** No scan so far has reported an edge. */
  ghost predicate Waiting(h: seq<Sample>, caps: nat, level: real, i0: nat, cuts: seq<nat>)
    requires forall k :: 0 <= k < |cuts| ==> cuts[k] <= |h|
  {
    forall k :: 0 <= k < |cuts| ==> FirstEdge(Seen(h, caps, cuts[k]), level, Restart(i0, cuts, k) + 1).None?
  }

  predicate SmallPackets(caps: nat, i0: nat, packet: nat, cuts: seq<nat>) {
    && packet < caps
    && (cuts != [] && cuts[0] > caps ==> i0 > cuts[0] - caps)
    && (forall k :: 0 <= k < |cuts| - 1 ==> InStep(cuts, k, packet))
  }

  lemma RestartReadable(caps: nat, i0: nat, packet: nat, cuts: seq<nat>, k: nat)
    requires SmallPackets(caps, i0, packet, cuts) && k < |cuts|
    ensures caps > 0 && (cuts[k] > caps ==> Restart(i0, cuts, k) > cuts[k] - caps)
  {
    if k > 0 {
      assert InStep(cuts, k - 1, packet);
    }
  }

  /** An edge of the true signal strictly between two restarts would have been reported. */
  lemma ScanCovers(h: seq<Sample>, caps: nat, level: real, i0: nat, packet: nat, cuts: seq<nat>, k: nat, j: nat)
    requires forall m :: 0 <= m < |cuts| ==> cuts[m] <= |h|
    requires SmallPackets(caps, i0, packet, cuts) && Waiting(h, caps, level, i0, cuts)
    requires k < |cuts| && Restart(i0, cuts, k) < j < Restart(i0, cuts, k + 1)
    ensures !Edge(h, level, j)
  {
    hide Restart, Seen, FirstEdge, Edge, SmallPackets;
    RestartReadable(caps, i0, packet, cuts, k);
    RestartStep(i0, cuts, k);
    UnreportedMeansNone(h, caps, level, cuts[k], Restart(i0, cuts, k), j);
  }

  lemma UnreportedMeansNone(h: seq<Sample>, caps: nat, level: real, c: nat, r: nat, j: nat)
    requires c <= |h| && r < j < c && caps > 0 && (c > caps ==> r > c - caps)
    requires FirstEdge(Seen(h, caps, c), level, r + 1).None?
    ensures !Edge(h, level, j)
  {
    FirstEdgeExact(Seen(h, caps, c), level, r + 1);
    assert !Edge(Seen(h, caps, c), level, j);
  }

  /** Over a whole waiting phase, every rising edge of the signal that was not
      reported lies exactly at a position where a scan restarted. */
  lemma {:induction false} SkippedEdgesAreAtRestarts(h: seq<Sample>, caps: nat, level: real, i0: nat, packet: nat,
                                                      cuts: seq<nat>, n: nat, j: nat)
    requires forall m :: 0 <= m < |cuts| ==> cuts[m] <= |h|
    requires SmallPackets(caps, i0, packet, cuts) && Waiting(h, caps, level, i0, cuts)
    requires n <= |cuts| && i0 < j < Restart(i0, cuts, n) && Edge(h, level, j)
    ensures exists k :: 1 <= k < n && j == Restart(i0, cuts, k)
  {
    var m := n - 1;
    if j > Restart(i0, cuts, m) {
      ScanCovers(h, caps, level, i0, packet, cuts, m, j);
    } else if j < Restart(i0, cuts, m) {
      SkippedEdgesAreAtRestarts(h, caps, level, i0, packet, cuts, m, j);
      var k :| 1 <= k < m && j == Restart(i0, cuts, k);
    }
  }

  lemma {:induction false} RestartsIncrease(i0: nat, cuts: seq<nat>, m: nat, k: nat)
    requires m <= k <= |cuts|
    ensures Restart(i0, cuts, m) + (k - m) <= Restart(i0, cuts, k)
  {
    if m < k {
      RestartsIncrease(i0, cuts, m, k - 1);
    }
  }

  /** Every edge of the signal between the first scan and the last lies where a scan
      restarted. */
  ghost predicate EdgesAtRestarts(h: seq<Sample>, level: real, i0: nat, cuts: seq<nat>) {
    forall j :: i0 < j < Restart(i0, cuts, |cuts|) && Edge(h, level, j) ==>
      exists k :: 1 <= k < |cuts| && j == Restart(i0, cuts, k)
  }

  /** A reported edge is an edge of the signal. */
  lemma ReportedIsEdge(h: seq<Sample>, caps: nat, level: real, c: nat, r: nat)
    requires c <= |h| && caps > 0 && (c > caps ==> r > c - caps)
    ensures var at := FirstEdge(Seen(h, caps, c), level, r + 1);
            at.Some? ==> r < at.value < c && Edge(h, level, at.value)
  {
    FirstEdgeExact(Seen(h, caps, c), level, r + 1);
  }

  /** Then no scan reports anything. */
  lemma ScanSilent(h: seq<Sample>, caps: nat, level: real, i0: nat, packet: nat, cuts: seq<nat>, k: nat)
    requires forall m :: 0 <= m < |cuts| ==> cuts[m] <= |h|
    requires SmallPackets(caps, i0, packet, cuts) && EdgesAtRestarts(h, level, i0, cuts) && k < |cuts|
    ensures FirstEdge(Seen(h, caps, cuts[k]), level, Restart(i0, cuts, k) + 1).None?
  {
    hide Restart, Seen, FirstEdge, Edge, SmallPackets;
    RestartReadable(caps, i0, packet, cuts, k);
    RestartStep(i0, cuts, k);
    ReportedIsEdge(h, caps, level, cuts[k], Restart(i0, cuts, k));
    var at := FirstEdge(Seen(h, caps, cuts[k]), level, Restart(i0, cuts, k) + 1);
    if at.Some? {
      RestartsIncrease(i0, cuts, 0, k);
      RestartsIncrease(i0, cuts, k + 1, |cuts|);
      FirstRestart(i0, cuts);
      var m :| 1 <= m < |cuts| && at.value == Restart(i0, cuts, m);
      if m <= k {
        RestartsIncrease(i0, cuts, m, k);
      } else {
        RestartsIncrease(i0, cuts, k + 1, m);
      }
    }
  }

  lemma FirstRestart(i0: nat, cuts: seq<nat>)
    ensures Restart(i0, cuts, 0) == i0
  {
  }

  /** No scan reports an edge exactly when every edge of the signal falls where a scan
      restarts. */
  lemma WaitsExactlyForRestartEdges(h: seq<Sample>, caps: nat, level: real, i0: nat, packet: nat, cuts: seq<nat>)
    requires forall m :: 0 <= m < |cuts| ==> cuts[m] <= |h|
    requires SmallPackets(caps, i0, packet, cuts)
    ensures Waiting(h, caps, level, i0, cuts) <==> EdgesAtRestarts(h, level, i0, cuts)
  {
    hide SmallPackets, Edge, FirstEdge, Seen, Restart;
    if Waiting(h, caps, level, i0, cuts) {
      forall j | i0 < j < Restart(i0, cuts, |cuts|) && Edge(h, level, j)
        ensures exists k :: 1 <= k < |cuts| && j == Restart(i0, cuts, k)
      {
        SkippedEdgesAreAtRestarts(h, caps, level, i0, packet, cuts, |cuts|, j);
      }
    }
    if EdgesAtRestarts(h, level, i0, cuts) {
      forall k | 0 <= k < |cuts|
        ensures FirstEdge(Seen(h, caps, cuts[k]), level, Restart(i0, cuts, k) + 1).None?
      {
        ScanSilent(h, caps, level, i0, packet, cuts, k);
      }
    }
  }

  // ---- runs of the listener ----

  /** An unforced in-stream listener and a history that its streams and its trigger read. */
  ghost predicate Watching(cfg: Config, hist: seq<seq<seq<Sample>>>, length: nat) {
    && ValidConfig(cfg) && Progress(cfg) && Guarded(cfg)
    && cfg.trigger.InStream? && cfg.force == 0 && !cfg.sink.Rest?
    && Histories(cfg, hist, length)
    && cfg.trigger.channel < |hist| && cfg.trigger.stream < |hist[cfg.trigger.channel]|
  }

  function Watched(cfg: Config, hist: seq<seq<seq<Sample>>>): seq<Sample>
    requires cfg.trigger.InStream? && cfg.trigger.channel < |hist| && cfg.trigger.stream < |hist[cfg.trigger.channel]|
  {
    hist[cfg.trigger.channel][cfg.trigger.stream]
  }

  /** Armed, and far enough from sample zero for its offset. */
  predicate Armed(cfg: Config, st: State) {
    !st.triggered && st.outIndex == 0 && st.index + 1 + cfg.offset >= 0
  }

  /** Calls made with cuts[0], cuts[1], ... samples collected can all be made, send
      nothing and leave the listener untriggered. */
  ghost predicate Silent(cfg: Config, hist: seq<seq<seq<Sample>>>, length: nat, caps: nat, st: State, cuts: seq<nat>)
    requires Watching(cfg, hist, length) && forall k :: 0 <= k < |cuts| ==> cuts[k] <= length
    decreases |cuts|
  {
    cuts == [] ||
    var v := ViewOf(hist, length, caps, cuts[0]);
    && Callable(cfg, v, st)
    && var (next, sent, _) := Handle(cfg, v, OPEN, st);
       sent == [] && !next.triggered && Silent(cfg, hist, length, caps, next, cuts[1..])
  }

  /** The cursor after such calls. */
  ghost function After(cfg: Config, hist: seq<seq<seq<Sample>>>, length: nat, caps: nat, st: State,
                       cuts: seq<nat>): State
    requires Watching(cfg, hist, length) && forall k :: 0 <= k < |cuts| ==> cuts[k] <= length
    requires Silent(cfg, hist, length, caps, st, cuts)
    decreases |cuts|
  {
    if cuts == [] then st
    else
      var next := Handle(cfg, ViewOf(hist, length, caps, cuts[0]), OPEN, st).0;
      After(cfg, hist, length, caps, next, cuts[1..])
  }

  /** A call whose scan reports nothing is silent and resumes where the scan stopped;
      any other call triggers. */
  lemma WaitingCall(cfg: Config, v: View, st: State)
    requires Callable(cfg, v, st) && cfg.trigger.InStream? && cfg.force == 0 && !cfg.sink.Rest? && !st.triggered
    ensures var at := FirstEdge(v.streams[cfg.trigger.channel][cfg.trigger.stream], cfg.trigger.level, st.index + 1);
            var (next, sent, keep) := Handle(cfg, v, OPEN, st);
            if at.None? then
              next == st.(index := Max(st.index + 1, v.captureI), subsample := 0.0) && sent == [] && keep
            else sent != [] || next.triggered
  {
    hide Chunks, FirstEdge;
    HandleTurn(cfg, v, OPEN, st, []);
  }

  lemma {:induction false} RestartTail(i0: nat, cuts: seq<nat>, k: nat)
    requires k < |cuts|
    ensures Restart(i0, cuts, k + 1) == Restart(Max(i0 + 1, cuts[0]), cuts[1..], k)
  {
    if k > 0 {
      RestartTail(i0, cuts, k - 1);
    } else {
      RestartStep(i0, cuts, 0);
    }
  }

  lemma WaitingTail(h: seq<Sample>, caps: nat, level: real, i0: nat, cuts: seq<nat>)
    requires cuts != [] && forall k :: 0 <= k < |cuts| ==> cuts[k] <= |h|
    ensures Waiting(h, caps, level, i0, cuts) <==>
            && FirstEdge(Seen(h, caps, cuts[0]), level, i0 + 1).None?
            && Waiting(h, caps, level, Max(i0 + 1, cuts[0]), cuts[1..])
  {
    hide FirstEdge, Seen, Restart;
    var i1, tail := Max(i0 + 1, cuts[0]), cuts[1..];
    FirstRestart(i0, cuts);
    forall k | 0 <= k < |tail|
      ensures Restart(i0, cuts, k + 1) == Restart(i1, tail, k) && cuts[k + 1] == tail[k]
    {
      RestartTail(i0, cuts, k);
    }
    if FirstEdge(Seen(h, caps, cuts[0]), level, i0 + 1).None? && Waiting(h, caps, level, i1, tail) {
      forall k | 0 <= k < |cuts|
        ensures FirstEdge(Seen(h, caps, cuts[k]), level, Restart(i0, cuts, k) + 1).None?
      {
        if k > 0 {
          assert FirstEdge(Seen(h, caps, tail[k - 1]), level, Restart(i1, tail, k - 1) + 1).None?;
        }
      }
    }
    if Waiting(h, caps, level, i0, cuts) {
      forall k | 0 <= k < |tail|
        ensures FirstEdge(Seen(h, caps, tail[k]), level, Restart(i1, tail, k) + 1).None?
      {
        assert FirstEdge(Seen(h, caps, cuts[k + 1]), level, Restart(i0, cuts, k + 1) + 1).None?;
      }
    }
  }

  /** The calls of a listener are those scans: they stay silent exactly as long as no
      scan reports an edge, and leave the index where the next scan restarts. */
  lemma {:induction false} SilentWhileWaiting(cfg: Config, hist: seq<seq<seq<Sample>>>, length: nat, caps: nat,
                                              st: State, cuts: seq<nat>)
    requires Watching(cfg, hist, length) && Armed(cfg, st)
    requires forall k :: 0 <= k < |cuts| ==> cuts[k] <= length
    ensures Silent(cfg, hist, length, caps, st, cuts)
       <==> Waiting(Watched(cfg, hist), caps, cfg.trigger.level, st.index, cuts)
    ensures Silent(cfg, hist, length, caps, st, cuts) ==>
              After(cfg, hist, length, caps, st, cuts).index == Restart(st.index, cuts, |cuts|)
    decreases |cuts|
  {
    hide Handle, Progress, Seen, FirstEdge, Restart, Waiting;
    if cuts == [] {
      FirstRestart(st.index, cuts);
      NothingWaits(Watched(cfg, hist), caps, cfg.trigger.level, st.index);
    } else {
      var v := ViewOf(hist, length, caps, cuts[0]);
      ClearFits(cfg, v, st);
      WaitingCall(cfg, v, st);
      WaitingTail(Watched(cfg, hist), caps, cfg.trigger.level, st.index, cuts);
      RestartTail(st.index, cuts, |cuts| - 1);
      var next := Handle(cfg, v, OPEN, st).0;
      if Armed(cfg, next) {
        SilentWhileWaiting(cfg, hist, length, caps, next, cuts[1..]);
      }
    }
  }

  lemma NothingWaits(h: seq<Sample>, caps: nat, level: real, i0: nat)
    ensures Waiting(h, caps, level, i0, [])
  {
  }

  /** Main theorem: over any calls a listener sends nothing and stays untriggered if and
      only if every edge of its trigger stream falls where a call resumed the scan. Any
      other edge triggers it. */
  lemma SilentExactlyForRestartEdges(cfg: Config, hist: seq<seq<seq<Sample>>>, length: nat, caps: nat, packet: nat,
                                     st: State, cuts: seq<nat>)
    requires Watching(cfg, hist, length) && Armed(cfg, st)
    requires forall k :: 0 <= k < |cuts| ==> cuts[k] <= length
    requires SmallPackets(caps, st.index, packet, cuts)
    ensures Silent(cfg, hist, length, caps, st, cuts)
       <==> EdgesAtRestarts(Watched(cfg, hist), cfg.trigger.level, st.index, cuts)
  {
    hide Silent, Waiting, EdgesAtRestarts, SmallPackets;
    SilentWhileWaiting(cfg, hist, length, caps, st, cuts);
    WaitsExactlyForRestartEdges(Watched(cfg, hist), caps, cfg.trigger.level, st.index, packet, cuts);
  }

  /** Such an edge really is lost, whatever the level: a signal that triggers a listener
      when it comes in one packet does not when it comes one sample a packet. */
  lemma EdgeLostAtRestart(cfg: Config)
    requires ValidConfig(cfg) && Progress(cfg) && Guarded(cfg)
    requires cfg.trigger.InStream? && cfg.force == 0 && !cfg.sink.Rest? && cfg.offset >= -1
    ensures var hist := EveryStream(cfg, [Num(cfg.trigger.level), Num(cfg.trigger.level + 1.0)]);
            var st := State(0, 0, false, 0, 0.0);
            && Watching(cfg, hist, 2) && Edge(Watched(cfg, hist), cfg.trigger.level, 1)
            && !Silent(cfg, hist, 2, 10, st, [2])
            && Silent(cfg, hist, 2, 10, st, [1, 2])
  {
    hide Silent, Restart, FirstEdge, Seen;
    var level := cfg.trigger.level;
    var h := [Num(level), Num(level + 1.0)];
    var hist := EveryStream(cfg, h);
    var st := State(0, 0, false, 0, 0.0);
    SilentWhileWaiting(cfg, hist, 2, 10, st, [2]);
    SilentWhileWaiting(cfg, hist, 2, 10, st, [1, 2]);
    OneRestartEdge(h, level);
  }

  lemma OneRestartEdge(h: seq<Sample>, level: real)
    requires |h| == 2 && !Above(h[0], level) && Above(h[1], level)
    ensures !Waiting(h, 10, level, 0, [2]) && Waiting(h, 10, level, 0, [1, 2])
  {
    var one: seq<nat>, two: seq<nat> := [2], [1, 2];
    assert Restart(0, one, 0) == 0 && Restart(0, two, 0) == 0 && Restart(0, two, 1) == 1;
    assert Seen(h, 10, 2) == h && Edge(h, level, 1);
    FirstEdgeExact(h, level, 1);
    FirstEdgeExact(Seen(h, 10, 1), level, 1);
    FirstEdgeExact(h, level, 2);
    assert FirstEdge(Seen(h, 10, one[0]), level, Restart(0, one, 0) + 1).Some?;
  }
}
