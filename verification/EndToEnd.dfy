/** From samples to a client that reads binary frames (src/listener.rs, src/device.rs):
    whatever the queue drops, the frames that arrive are self-describing. */
module EndToEnd {
  import opened Common
  import opened Samples
  import opened RingBuffer
  import opened ListenerModel
  import opened Frames
  import opened Packetisation
  import opened ClientQueue
  import opened Deliveries

  /** A frame of an untriggered listener started at `start`: it carries the ideal means
      of its own output range [idx, idx + nchunks), and says where that range is. */
  ghost predicate SelfDescribing(cfg: Config, hist: seq<seq<seq<Sample>>>, length: nat, start: nat, f: Frame)
    requires Histories(cfg, hist, length)
  {
    && f.nchunks > 0
    && f.sampleIndex == ChunkStart(cfg, start, f.idx)
    && |f.data| == |cfg.streams|
    && (forall x :: 0 <= x < |f.data| ==>
          f.data[x] == Ideal(hist[cfg.streams[x].0][cfg.streams[x].1], start, cfg.decimate, f.idx + f.nchunks)[f.idx..])
  }

  /** Consecutive frames tile the output: each range starts where the last ended. */
  ghost predicate Tiles(fs: seq<Frame>, out: nat) {
    if fs == [] then out == 0
    else out == fs[|fs| - 1].idx + fs[|fs| - 1].nchunks && Tiles(fs[..|fs| - 1], fs[|fs| - 1].idx)
  }

  lemma {:induction false} TilesIncrease(fs: seq<Frame>, out: nat, i: nat, j: nat)
    requires Tiles(fs, out) && i < j < |fs|
    ensures fs[i].idx + fs[i].nchunks <= fs[j].idx && fs[j].idx + fs[j].nchunks <= out
  {
    var last := |fs| - 1;
    if j < last {
      TilesIncrease(fs[..last], fs[last].idx, i, j);
    } else {
      TilesBelow(fs[..last], fs[last].idx, i);
    }
  }

  lemma {:induction false} TilesBelow(fs: seq<Frame>, out: nat, i: nat)
    requires Tiles(fs, out) && i < |fs|
    ensures fs[i].idx + fs[i].nchunks <= out
  {
    var last := |fs| - 1;
    if i < last {
      TilesBelow(fs[..last], fs[last].idx, i);
    }
  }

  /** Every frame of a steady run describes itself, and the frames tile the output. */
  lemma {:induction false} RunFrames(cfg: Config, hist: seq<seq<seq<Sample>>>, length: nat, caps: nat, start: nat,
                                     packet: nat, cuts: seq<nat>)
    requires Unlimited(cfg) && Histories(cfg, hist, length) && Steady(cfg, caps, start, packet, cuts)
    requires forall i :: 0 <= i < |cuts| ==> cuts[i] <= length
    ensures var (st, fs) := Run(cfg, hist, length, caps, State(start, 0, false, 0, 0.0), cuts);
            Tiles(fs, st.outIndex) && forall i :: 0 <= i < |fs| ==> SelfDescribing(cfg, hist, length, start, fs[i])
  {
    hide SelfDescribing, Handle, Callable, Ideal, Seen, Joined;
    var st0 := State(start, 0, false, 0, 0.0);
    var last := |cuts| - 1;
    var (st, fs) := Run(cfg, hist, length, caps, st0, cuts[..last]);
    var c := cuts[last];
    if last > 0 {
      ShorterSteady(cfg, caps, start, packet, cuts);
      RunFrames(cfg, hist, length, caps, start, packet, cuts[..last]);
      RunDelivers(cfg, hist, length, caps, start, packet, cuts[..last]);
      assert InStep(cuts, last - 1, packet);
    }
    NextFrame(cfg, hist, length, caps, start, c, st, fs);
  }

  lemma {:induction false} ShorterSteady(cfg: Config, caps: nat, start: nat, packet: nat, cuts: seq<nat>)
    requires Steady(cfg, caps, start, packet, cuts) && |cuts| > 1
    ensures Steady(cfg, caps, start, packet, cuts[..|cuts| - 1])
  {
    var shorter := cuts[..|cuts| - 1];
    forall i | 0 <= i < |shorter| - 1
      ensures InStep(shorter, i, packet)
    {
      assert InStep(cuts, i, packet);
    }
  }

  lemma {:induction false} NextFrame(cfg: Config, hist: seq<seq<seq<Sample>>>, length: nat, caps: nat, start: nat,
                                     c: nat, st: State, fs: seq<Frame>)
    requires Unlimited(cfg) && Histories(cfg, hist, length) && c <= length
    requires st.index == ChunkStart(cfg, start, st.outIndex) && caps > 0 && (c > caps ==> st.index > c - caps)
    requires Tiles(fs, st.outIndex) && forall i :: 0 <= i < |fs| ==> SelfDescribing(cfg, hist, length, start, fs[i])
    ensures var v := ViewOf(hist, length, caps, c);
            Callable(cfg, v, st) && var (st', more, _) := Handle(cfg, v, OPEN, st);
            && Tiles(fs + more, st'.outIndex)
            && forall i :: 0 <= i < |fs + more| ==> SelfDescribing(cfg, hist, length, start, (fs + more)[i])
  {
    var v := ViewOf(hist, length, caps, c);
    UnlimitedCall(cfg, v, st);
    var n := Available(cfg, c, st);
    if n == 0 {
      assert fs + [] == fs;
    } else {
      var f := MakeFrame(cfg, v, st, n);
      DivideChunks(c - st.index, cfg.decimate);
      ChunkSum(cfg, start, st.outIndex, n);
      forall x | 0 <= x < |f.data|
        ensures f.data[x]
             == Ideal(hist[cfg.streams[x].0][cfg.streams[x].1], start, cfg.decimate, f.idx + f.nchunks)[f.idx..]
      {
        ChunksAreWindows(cfg, hist, length, caps, start, c, st.outIndex, n, x);
      }
      assert SelfDescribing(cfg, hist, length, start, f);
      assert (fs + [f])[..|fs|] == fs;
    }
  }

  // ---- through the queue ----

  type Payload = seq<Byte>

  function BinaryOf(ms: seq<Message<Payload>>): seq<Message<Payload>> {
    if ms == [] then [] else BinaryOf(ms[..|ms| - 1]) + if ms[|ms| - 1].Binary? then [ms[|ms| - 1]] else []
  }

  /** The positions of the offers that were kept. */
  function KeptIndices(b: seq<Offer<Payload>>): (r: seq<nat>)
    ensures forall j :: 0 <= j < |r| ==> r[j] < |b| && b[r[j]].Kept?
    ensures forall j, k :: 0 <= j < k < |r| ==> r[j] < r[k]
  {
    if b == [] then [] else KeptIndices(b[..|b| - 1]) + if b[|b| - 1].Kept? then [|b| - 1] else []
  }

  lemma {:induction false} KeptIndicesComplete(b: seq<Offer<Payload>>, i: nat)
    requires i < |b|
    ensures i in KeptIndices(b) <==> b[i].Kept?
  {
    if i < |b| - 1 {
      KeptIndicesComplete(b[..|b| - 1], i);
    }
  }

  function Pick(b: seq<Offer<Payload>>, at: seq<nat>): (r: seq<Message<Payload>>)
    requires forall j :: 0 <= j < |at| ==> at[j] < |b|
    ensures |r| == |at| && forall j :: 0 <= j < |at| ==> r[j] == b[at[j]].msg
  {
    seq(|at|, j requires 0 <= j < |at| => b[at[j]].msg)
  }

  lemma {:induction false} PickSnoc(b: seq<Offer<Payload>>, o: Offer<Payload>)
    ensures Pick(b + [o], KeptIndices(b + [o])) == Pick(b, KeptIndices(b)) + if o.Kept? then [o.msg] else []
  {
    assert (b + [o])[..|b|] == b;
  }

  lemma {:induction false} KeptBinaries(offers: seq<Offer<Payload>>)
    ensures BinaryOf(KeptOf(offers)) == Pick(BinaryOffers(offers), KeptIndices(BinaryOffers(offers)))
  {
    if offers != [] {
      var pre, o := offers[..|offers| - 1], offers[|offers| - 1];
      assert offers == pre + [o];
      hide *;
      KeptBinaries(pre);
      SnocOffer(pre, o);
      BinaryOffersSnoc(pre, o);
      BinarySnoc(KeptOf(pre), o.msg);
      PickSnoc(BinaryOffers(pre), o);
      Nothing(KeptOf(pre), BinaryOffers(pre));
    }
  }

  lemma Nothing(ms: seq<Message<Payload>>, b: seq<Offer<Payload>>)
    ensures ms + [] == ms && b + [] == b
    ensures Pick(b, KeptIndices(b)) + [] == Pick(b, KeptIndices(b)) && BinaryOf(ms) + [] == BinaryOf(ms)
  {
  }

  lemma {:induction false} BinarySnoc(ms: seq<Message<Payload>>, m: Message<Payload>)
    ensures BinaryOf(ms + [m]) == BinaryOf(ms) + if m.Binary? then [m] else []
  {
    assert (ms + [m])[..|ms|] == ms;
  }

  lemma {:induction false} BinaryPrefix(a: seq<Message<Payload>>, b: seq<Message<Payload>>)
    requires a <= b
    ensures BinaryOf(a) <= BinaryOf(b)
  {
    if |a| < |b| {
      BinaryPrefix(a, b[..|b| - 1]);
    } else {
      assert a == b;
    }
  }

  /** The binary frames offered to the queue are the listener's frames, in order. */
  ghost predicate OffersFrames(cfg: Config, bits: Sample -> Word32, fs: seq<Frame>, offers: seq<Offer<Payload>>) {
    var b := BinaryOffers(offers);
    |b| <= |fs| && forall i :: 0 <= i < |b| ==>
      b[i].msg == Whole(cfg, bits, fs[i])
  }

  /** The received binary frames are the frames numbered g of the listener's log fs:
      g increases, none of them is a dropped frame, the missing numbers up to the last
      are, each dropped at a full backlog, and the received frames carry disjoint increasing
      output ranges. */
  ghost predicate Arrived(cfg: Config, bits: Sample -> Word32, fs: seq<Frame>, q: Queue<Payload>, g: seq<nat>) {
    var b, r := BinaryOffers(q.offers), BinaryOf(q.received);
    && |g| == |r| && |b| <= |fs|
    && (forall j :: 0 <= j < |g| ==> g[j] < |b| && b[g[j]].Kept? && r[j] == Whole(cfg, bits, fs[g[j]]))
    && (forall j, k :: 0 <= j < k < |g| ==> g[j] < g[k] && fs[g[j]].idx + fs[g[j]].nchunks <= fs[g[k]].idx)
    && (forall i, k :: 0 <= k < |g| && 0 <= i < g[k] && i !in g ==>
          b[i].Dropped? && b[i].seen + |Encode(cfg, fs[i], bits)| > BINARY_BACKLOG_LIMIT)
  }

  function Whole(cfg: Config, bits: Sample -> Word32, f: Frame): Message<Payload> {
    ClientQueue.Binary(|Encode(cfg, f, bits)|, Encode(cfg, f, bits))
  }

  /** The binary frames that a run hands to the queue are the listener's frames, in order. */
  ghost predicate HandsOver(cfg: Config, bits: Sample -> Word32, fs: seq<Frame>, steps: seq<Step<Payload>>) {
    var sent := FramesSent(steps);
    |sent| <= |fs| && forall i :: 0 <= i < |sent| ==> sent[i] == Whole(cfg, bits, fs[i])
  }

  lemma HandedOverIsOffered(cfg: Config, bits: Sample -> Word32, fs: seq<Frame>, steps: seq<Step<Payload>>)
    requires RunFrom(Initial<Payload>(1), steps) && HandsOver(cfg, bits, fs, steps)
    ensures OffersFrames(cfg, bits, fs, After(Initial<Payload>(1), steps).offers)
  {
    hide RunFrom, After, Initial, Whole;
    DecidedInOrder(steps);
  }

  /** Main theorem. Let the frames of one untriggered binary listener pass through a
      client queue, under any interleaving with JSON messages and the receiver. The
      frames that arrive are the listener's own, in order, with gaps exactly where
      the queue was full; and every frame of the listener, arrived or not, contains
      the resampled history of its own range at sampleIndex = start + idx * decimate. */
  lemma {:induction false} ReceivedFramesDescribeThemselves(
      cfg: Config, hist: seq<seq<seq<Sample>>>, length: nat, caps: nat, start: nat, packet: nat, cuts: seq<nat>,
      bits: Sample -> Word32, steps: seq<Step<Payload>>) returns (g: seq<nat>)
    requires Unlimited(cfg) && Histories(cfg, hist, length) && Steady(cfg, caps, start, packet, cuts)
    requires forall i :: 0 <= i < |cuts| ==> cuts[i] <= length
    requires RunFrom(Initial<Payload>(1), steps)
    requires HandsOver(cfg, bits, Run(cfg, hist, length, caps, State(start, 0, false, 0, 0.0), cuts).1, steps)
    ensures var fs := Run(cfg, hist, length, caps, State(start, 0, false, 0, 0.0), cuts).1;
            && Arrived(cfg, bits, fs, After(Initial<Payload>(1), steps), g)
            && forall i :: 0 <= i < |fs| ==> SelfDescribing(cfg, hist, length, start, fs[i])
  {
    hide Run, After, SelfDescribing, Arrived, OffersFrames, HandsOver, Tiles, RunFrom, Steady, Unlimited, Histories;
    hide KeptOf, QueuedBytes, AddedBytes, JsonOf, JsonSent, BinaryOf, BinaryOffers, KeptIndices, Initial;
    var (st, fs) := Run(cfg, hist, length, caps, State(start, 0, false, 0, 0.0), cuts);
    var q := After(Initial<Payload>(1), steps);
    RunFrames(cfg, hist, length, caps, start, packet, cuts);
    Accounting<Payload>(1, steps);
    HandedOverIsOffered(cfg, bits, fs, steps);
    KeptArrive(cfg, bits, fs, st.outIndex, q);
    g := KeptIndices(BinaryOffers(q.offers))[..|BinaryOf(q.received)|];
  }

  /** The same for any log of tiling frames and any state the queue can reach. */
  lemma {:induction false} KeptArrive(cfg: Config, bits: Sample -> Word32, fs: seq<Frame>, out: nat, q: Queue<Payload>)
    requires Tiles(fs, out) && OffersFrames(cfg, bits, fs, q.offers)
    requires q.received <= KeptOf(q.offers)
    requires forall k :: 0 <= k < |q.offers| && q.offers[k].Dropped? ==>
               q.offers[k].msg.Binary? && q.offers[k].seen + q.offers[k].msg.size > BINARY_BACKLOG_LIMIT
    ensures |BinaryOf(q.received)| <= |KeptIndices(BinaryOffers(q.offers))|
    ensures Arrived(cfg, bits, fs, q, KeptIndices(BinaryOffers(q.offers))[..|BinaryOf(q.received)|])
  {
    var b, r := BinaryOffers(q.offers), BinaryOf(q.received);
    hide KeptIndices, BinaryOf, BinaryOffers, Encode, KeptOf;
    KeptBinaries(q.offers);
    BinaryPrefix(q.received, KeptOf(q.offers));
    var g := KeptIndices(b)[..|r|];
    forall j, k | 0 <= j < k < |g|
      ensures fs[g[j]].idx + fs[g[j]].nchunks <= fs[g[k]].idx
    {
      TilesIncrease(fs, out, g[j], g[k]);
    }
    forall i, k | 0 <= k < |g| && 0 <= i < g[k] && i !in g
      ensures b[i].Dropped? && b[i].seen + |Encode(cfg, fs[i], bits)| > BINARY_BACKLOG_LIMIT
    {
      GapIsDropped(b, |r|, k, i);
      DropsInBinaries(q.offers, i);
    }
  }

  lemma {:induction false} GapIsDropped(b: seq<Offer<Payload>>, n: nat, k: nat, i: nat)
    requires k < n <= |KeptIndices(b)| && i < KeptIndices(b)[k] && i !in KeptIndices(b)[..n]
    ensures i < |b| && b[i].Dropped?
  {
    KeptIndicesComplete(b, i);
    if b[i].Kept? {
      InPrefix(KeptIndices(b), n, k, i);
    }
  }

  /** In an increasing sequence, what is below an element comes before it. */
  lemma InPrefix(at: seq<nat>, n: nat, k: nat, i: nat)
    requires forall j, j' :: 0 <= j < j' < |at| ==> at[j] < at[j']
    requires k < n <= |at| && i < at[k] && i in at
    ensures i in at[..n]
  {
    var j :| 0 <= j < |at| && at[j] == i;
    assert j < k;
    assert at[..n][j] == i;
  }

  /** Each dropped binary offer is an entry of the log. */
  lemma {:induction false} DropsInBinaries(offers: seq<Offer<Payload>>, i: nat)
    requires i < |BinaryOffers(offers)|
    ensures BinaryOffers(offers)[i] in offers
  {
    var pre := offers[..|offers| - 1];
    if i < |BinaryOffers(pre)| {
      DropsInBinaries(pre, i);
    }
  }
}
