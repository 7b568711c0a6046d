/** How large the ring must be (src/streaming.rs, src/listener.rs): room for one
    decimation window and one packet is not only enough, it is needed. */
module RingRoom {
  import opened Common
  import opened Samples
  import opened RingBuffer
  import opened ListenerModel
  import opened Packetisation
  import W = Witnesses

  /** Packets of at most `packet` samples, the first finding the listener's start. */
  ghost predicate Regular(caps: nat, start: nat, packet: nat, cuts: seq<nat>) {
    && |cuts| > 0 && (cuts[0] > caps ==> start > cuts[0] - caps)
    && (forall i :: 0 <= i < |cuts| - 1 ==> InStep(cuts, i, packet))
  }

  /** A regular run delivers ideal means only. */
  ghost predicate Ideally(cfg: Config, hist: seq<seq<seq<Sample>>>, length: nat, caps: nat, start: nat, packet: nat,
                          cuts: seq<nat>)
    requires Unlimited(cfg)
  {
    Histories(cfg, hist, length) && Regular(caps, start, packet, cuts)
    && (forall i :: 0 <= i < |cuts| ==> cuts[i] <= length) ==>
      var (st, fs) := Run(cfg, hist, length, caps, State(start, 0, false, 0, 0.0), cuts);
      forall x :: 0 <= x < |cfg.streams| ==>
        Joined(fs, x) == Ideal(hist[cfg.streams[x].0][cfg.streams[x].1], start, cfg.decimate, st.outIndex)
  }

  lemma EnoughRoom(cfg: Config, hist: seq<seq<seq<Sample>>>, length: nat, caps: nat, start: nat, packet: nat,
                   cuts: seq<nat>)
    requires Unlimited(cfg) && cfg.decimate + packet < caps
    ensures Ideally(cfg, hist, length, caps, start, packet, cuts)
  {
    hide Joined, Ideal, Run;
    if Histories(cfg, hist, length) && Regular(caps, start, packet, cuts)
       && forall i :: 0 <= i < |cuts| ==> cuts[i] <= length {
      DeliveryIsIdealPrefix(cfg, hist, length, caps, start, packet, cuts);
    }
  }

  function Zeros(n: nat): (h: seq<Sample>)
    ensures |h| == n && forall i :: 0 <= i < n ==> h[i] == Num(0.0)
  {
    seq(n, _ => Num(0.0))
  }

  /** Histories of zeros for every stream of cfg. */
  function Silence(cfg: Config, length: nat): (hist: seq<seq<seq<Sample>>>)
    ensures Histories(cfg, hist, length)
    ensures forall x :: 0 <= x < |cfg.streams| ==> hist[cfg.streams[x].0][cfg.streams[x].1] == Zeros(length)
  {
    W.EveryStream(cfg, Zeros(length))
  }

  /** A window whose first sample has been overwritten resamples to NaN. */
  lemma Overwritten(h: seq<Sample>, caps: nat, c: nat, p: nat, d: nat)
    requires c <= |h| && d > 0 && p + d <= c && c > caps && p <= c - caps
    ensures Mean(Seen(h, caps, c)[p..p + d]) == NaN
  {
    var w := Seen(h, caps, c)[p..p + d];
    assert w[0] == NaN;
    MeanIsNaN(w);
  }

  lemma ZeroMean(n: nat, p: nat, d: nat)
    requires d > 0 && p + d <= n
    ensures Mean(Zeros(n)[p..p + d]) != NaN
  {
    MeanIsNaN(Zeros(n)[p..p + d]);
  }

  /** With less room some run delivers an overwritten window: a listener that starts a
      full ring late still waits for its first window when the next packet arrives. */
  lemma TooLittleRoom(cfg: Config, caps: nat, packet: nat) returns (hist: seq<seq<seq<Sample>>>, cuts: seq<nat>)
    requires Unlimited(cfg) && |cfg.streams| > 0 && packet > 0 && cfg.decimate < caps <= cfg.decimate + packet
    ensures |cuts| == 2 && !Ideally(cfg, hist, caps + cfg.decimate + packet, caps, caps, packet, cuts)
  {
    hide Run, Handle, Callable, ViewOf, Available, Seen, Ideal, Silence, Zeros, Chunks;
    var d := cfg.decimate;
    var length := caps + d + packet;
    hist := Silence(cfg, length);
    cuts := [caps + d, length];
    assert InStep(cuts, 0, packet);
    var st := State(caps, 0, false, 0, 0.0);
    NothingYet(cfg, hist, length, caps);
    var v := ViewOf(hist, length, caps, length);
    UnlimitedCall(cfg, v, st);
    var n := Available(cfg, length, st);
    SomethingNow(cfg, length, st);
    RunSnoc(cfg, hist, length, caps, st, [caps + d], length);
    var f := MakeFrame(cfg, v, st, n);
    var (last, fs) := Run(cfg, hist, length, caps, st, cuts);
    assert cuts == [caps + d] + [length] && fs == [] + [f];
    JoinedSnoc([], f, 0);
    FirstIsNaN(cfg, hist, length, caps, n);
    NotIdeal(length, caps, d, f.data[0], last.outIndex);
  }

  /** Output that starts with NaN is not the ideal output of silence. */
  lemma NotIdeal(length: nat, start: nat, d: nat, data: seq<Sample>, out: nat)
    requires d > 0 && start + d <= length && data != [] && data[0] == NaN
    ensures [] + data != Ideal(Zeros(length), start, d, out)
  {
    ZeroMean(length, start, d);
    if out > 0 {
      assert Ideal(Zeros(length), start, d, out)[0] == WindowMean(Zeros(length), start, d, 0);
    }
  }

  lemma NothingYet(cfg: Config, hist: seq<seq<seq<Sample>>>, length: nat, caps: nat)
    requires Unlimited(cfg) && Histories(cfg, hist, length) && caps + cfg.decimate <= length
    ensures Run(cfg, hist, length, caps, State(caps, 0, false, 0, 0.0), [caps + cfg.decimate])
         == (State(caps, 0, false, 0, 0.0), [])
  {
    var c := caps + cfg.decimate;
    var st := State(caps, 0, false, 0, 0.0);
    UnlimitedCall(cfg, ViewOf(hist, length, caps, c), st);
    RunSnoc(cfg, hist, length, caps, st, [], c);
    assert [] + [c] == [c];
  }

  lemma SomethingNow(cfg: Config, c: nat, st: State)
    requires Unlimited(cfg) && st.index + cfg.decimate < c
    ensures Available(cfg, c, st) > 0
  {
    DivideChunks(c - st.index, cfg.decimate);
    if (c - st.index) / cfg.decimate <= 0 {
      Monotone((c - st.index) / cfg.decimate, 0, cfg.decimate);
    }
  }

  lemma FirstIsNaN(cfg: Config, hist: seq<seq<seq<Sample>>>, length: nat, caps: nat, n: nat)
    requires Unlimited(cfg) && |cfg.streams| > 0 && hist == Silence(cfg, length) && Histories(cfg, hist, length)
    requires n > 0 && length >= 2 * caps && caps + cfg.decimate <= length && caps > 0
    ensures Chunks(cfg, ViewOf(hist, length, caps, length), caps, n)[0][0] == NaN
  {
    var v := ViewOf(hist, length, caps, length);
    var at := cfg.streams[0];
    assert v.Has(at.0, at.1) && v.streams[at.0][at.1] == Seen(Zeros(length), caps, length);
    Overwritten(Zeros(length), caps, length, caps, cfg.decimate);
    assert ChunkStart(cfg, caps, 0) == caps;
  }

  /** Main theorem: in a continuous capture with windows that fit the ring, an untriggered
      unlimited listener never delivers an overwritten sample, whatever the packets of
      at most `packet` samples, exactly when a window and a packet fit together. */
  lemma RoomIsExact(cfg: Config, caps: nat, packet: nat)
    requires Unlimited(cfg) && |cfg.streams| > 0 && packet > 0 && cfg.decimate < caps
    ensures cfg.decimate + packet < caps <==>
            forall hist: seq<seq<seq<Sample>>>, length: nat, start: nat, cuts: seq<nat> ::
              Ideally(cfg, hist, length, caps, start, packet, cuts)
  {
    hide Ideally;
    if cfg.decimate + packet < caps {
      forall hist: seq<seq<seq<Sample>>>, length: nat, start: nat, cuts: seq<nat>
        ensures Ideally(cfg, hist, length, caps, start, packet, cuts)
      {
        EnoughRoom(cfg, hist, length, caps, start, packet, cuts);
      }
    } else {
      var hist, cuts := TooLittleRoom(cfg, caps, packet);
    }
  }
}
