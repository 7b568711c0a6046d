/** What bulk transfers do to the sample streams, whatever their wire format
    (src/usb/m1k.rs, src/usb/cee.rs): samples of all four streams go in together, and
    output values are taken from the sources at consecutive sample numbers. */
module Transfers {
  import opened Common
  import opened Samples
  import opened Sources
  import opened RingBuffer

  type Word16 = x: int | 0 <= x < 0x1_0000

  function Clamp(x: real, lo: real, hi: real): real {
    if x < lo then lo else if x > hi then hi else x
  }

  /** One value for every stream: voltage and current of channels A and B. */
  datatype Quad<T> = Quad(av: T, ai: T, bv: T, bi: T)

  function At<T>(q: Quad<T>, c: int, s: int): T {
    if c == 0 then if s == 0 then q.av else q.ai else if s == 0 then q.bv else q.bi
  }

  /** What one stream receives from a sequence of samples. */
  function Column(quads: seq<Quad<Sample>>, c: int, s: int): (r: seq<Sample>)
    ensures |r| == |quads| && forall i :: 0 <= i < |r| ==> r[i] == At(quads[i], c, s)
  {
    seq(|quads|, i requires 0 <= i < |quads| => At(quads[i], c, s))
  }

  /** Both channels have both streams. */
  predicate TwoByTwo(dev: Device)
    reads dev
  {
    |dev.buffers| == 2 && |dev.buffers[0]| == 2 && |dev.buffers[1]| == 2
  }

  type Histories = h: seq<seq<seq<Sample>>> | |h| == 2 && |h[0]| == 2 && |h[1]| == 2 witness [[[], []], [[], []]]

  /** Between two moments, every stream received its column of `got`. */
  ghost predicate Received(before: Histories, now: Histories, got: seq<Quad<Sample>>) {
    forall c, s :: 0 <= c < 2 && 0 <= s < 2 ==> now[c][s] == before[c][s] + Column(got, c, s)
  }

  lemma ReceivedNothing(now: Histories)
    ensures Received(now, now, [])
  {
  }

  lemma ReceivedJoin(before: Histories, mid: Histories, now: Histories, a: seq<Quad<Sample>>, b: seq<Quad<Sample>>)
    requires Received(before, mid, a) && Received(mid, now, b)
    ensures Received(before, now, a + b)
  {
    forall c, s | 0 <= c < 2 && 0 <= s < 2
      ensures now[c][s] == before[c][s] + Column(a + b, c, s)
    {
      assert Column(a + b, c, s) == Column(a, c, s) + Column(b, c, s);
      assert now[c][s] == mid[c][s] + Column(b, c, s);
    }
  }

  lemma ReceivedOne(before: Histories, now: Histories, x: Quad<Sample>)
    requires now[0][0] == before[0][0] + [x.av] && now[0][1] == before[0][1] + [x.ai]
    requires now[1][0] == before[1][0] + [x.bv] && now[1][1] == before[1][1] + [x.bi]
    ensures Received(before, now, [x])
  {
    assert forall c, s :: 0 <= c < 2 && 0 <= s < 2 ==> Column([x], c, s) == [At(x, c, s)];
  }

  /** Put one sample to every stream and commit it. */
  method PutQuad(dev: Device, x: Quad<Sample>)
    requires dev.Valid() && TwoByTwo(dev)
    modifies dev`captureI, dev`history, dev`pending, dev.Repr - {dev}
    ensures dev.Valid() && dev.Settled() && TwoByTwo(dev)
    ensures dev.captureI == old(dev.captureI) + 1
    ensures Received(old(dev.history), dev.history, [x])
  {
    hide Agrees, Column, Received;
    ghost var before := dev.history;
    dev.Put(0, 0, x.av);
    dev.Put(0, 1, x.ai);
    assert dev.pending[0] == [Some(x.av), Some(x.ai)];
    dev.Put(1, 0, x.bv);
    dev.Put(1, 1, x.bi);
    assert dev.pending[0] == [Some(x.av), Some(x.ai)];
    assert dev.pending[1] == [Some(x.bv), Some(x.bi)];
    forall c, s | dev.Has(c, s)
      ensures dev.pending[c][s].Some?
    {
      assert c == 0 || c == 1;
    }
    dev.SampleDone();
    ReceivedOne(before, dev.history, x);
  }

  /** The sources of a device with a source on each channel. */
  function Present(a: OutputSource?, b: OutputSource?): set<OutputSource> {
    if a != null && b != null then {a, b} else {}
  }

  /** The values of a source at n consecutive sample numbers from o. */
  ghost function Waveform(source: OutputSource, o: nat, n: nat, sinTurns: real -> real): (r: seq<real>)
    requires source.Valid()
    reads source
    ensures |r| == n && forall t :: 0 <= t < n ==> r[t] == source.ValueAt(o + t, sinTurns)
  {
    seq(n, t requires 0 <= t < n && source.Valid() reads source => source.ValueAt(o + t, sinTurns))
  }
}
