/** CEE bulk transfers (src/usb/cee.rs). Samples are 12-bit: four signed values in six
    bytes on the way in, two unsigned values in three bytes on the way out. */
module CeeCodec {
  import opened Common
  import opened Samples
  import opened Sources
  import opened RingBuffer
  import opened Frames
  import opened Transfers

  const SAMPLES_PER_PACKET: nat := 10
  const IN_PACKET_SIZE: nat := 64
  const OUT_PACKET_SIZE: nat := 32

  const DISABLED: nat := 0
  const SVMI: nat := 1
  const SIMV: nat := 2

  // ---- 12-bit fields ----

  function Pow2(k: nat): (p: nat)
    ensures p > 0
  {
    if k == 0 then 1 else 2 * Pow2(k - 1)
  }

  /** Bitwise or. */
  function Or(x: nat, y: nat): nat {
    if x == 0 && y == 0 then 0 else Max(x % 2, y % 2) + 2 * Or(x / 2, y / 2)
  }

  lemma {:induction false} OrZero(x: nat)
    ensures Or(x, 0) == x
  {
    if x > 0 {
      OrZero(x / 2);
    }
  }

  /** Fields that do not overlap add up. */
  lemma {:induction false} OrDisjoint(high: nat, k: nat, low: nat)
    requires low < Pow2(k)
    ensures Or(high * Pow2(k), low) == high * Pow2(k) + low
    decreases k
  {
    if k == 0 {
      OrZero(high);
    } else {
      var half := high * Pow2(k - 1);
      assert high * Pow2(k) == 2 * half;
      OrDisjoint(high, k - 1, low / 2);
      assert 2 * half / 2 == half && 2 * half % 2 == 0;
    }
  }

  lemma OrNibble(high: nat, low: nat)
    requires low < 16
    ensures Or(high * 16, low) == high * 16 + low
  {
    assert Pow2(4) == 16;
    OrDisjoint(high, 4, low);
  }

  lemma OrByte(high: nat, low: nat)
    requires low < 256
    ensures Or(high * 256, low) == high * 256 + low
  {
    assert Pow2(8) == 256 by {
      assert Pow2(4) == 16;
    }
    OrDisjoint(high, 8, low);
  }

  /** A 12-bit field read as two's complement. */
  function SignExtend12(v: nat): int {
    if v > 0x7ff then v - 4096 else v
  }

  /** Two signed 12-bit values from three bytes: the low bytes and the shared high one. */
  function UnpackPair(lowV: Byte, lowI: Byte, high: Byte): (int, int) {
    (SignExtend12(Or(high % 16 * 256, lowV)), SignExtend12(Or(high / 16 * 256, lowI)))
  }

  /** One six-byte IN sample. */
  function UnpackIn(d: seq<Byte>): Quad<int>
    requires |d| == 6
  {
    var a, b := UnpackPair(d[0], d[1], d[2]), UnpackPair(d[3], d[4], d[5]);
    Quad(a.0, a.1, b.0, b.1)
  }

  predicate Fits12(v: int) {
    -2048 <= v < 2048
  }

  function LowBits(v: int): Byte {
    v % 256
  }

  function HighBits(v: int, i: int): Byte {
    v / 256 % 16 + i / 256 % 16 * 16
  }

  /** An IN sample as the hardware sends it. */
  function PackIn(q: Quad<int>): (d: seq<Byte>)
    ensures |d| == 6
  {
    [LowBits(q.av), LowBits(q.ai), HighBits(q.av, q.ai), LowBits(q.bv), LowBits(q.bi), HighBits(q.bv, q.bi)]
  }

  /** A field of a high nibble and a low byte determines both, and is a 12-bit value. */
  lemma FieldUnpacked(nibble: nat, low: Byte)
    requires nibble < 16
    ensures var v := SignExtend12(Or(nibble * 256, low)); Fits12(v) && v % 256 == low && v / 256 % 16 == nibble
  {
    OrByte(nibble, low);
    var v := SignExtend12(nibble * 256 + low);
    DivModUnique(v, 256, if nibble >= 8 then nibble - 16 else nibble, low);
  }

  lemma FieldPacked(v: int)
    ensures SignExtend12(Or(v / 256 % 16 * 256, v % 256)) == v <==> Fits12(v)
  {
    FieldUnpacked(v / 256 % 16, v % 256);
    if Fits12(v) {
      OrByte(v / 256 % 16, v % 256);
      var high := v / 256;
      if high < 0 {
        DivModUnique(high, 16, -1, high + 16);
      } else {
        DivModUnique(high, 16, 0, high);
      }
    }
  }

  /** IN samples and quadruples of 12-bit signed values correspond one to one. */
  lemma InBijection(d: seq<Byte>, q: Quad<int>)
    requires |d| == 6
    ensures var u := UnpackIn(d); Fits12(u.av) && Fits12(u.ai) && Fits12(u.bv) && Fits12(u.bi)
    ensures PackIn(UnpackIn(d)) == d
    ensures Fits12(q.av) && Fits12(q.ai) && Fits12(q.bv) && Fits12(q.bi) <==> UnpackIn(PackIn(q)) == q
  {
    hide UnpackPair, LowBits, HighBits, Fits12;
    PairUnpacked(d[0], d[1], d[2]);
    PairUnpacked(d[3], d[4], d[5]);
    PairPacked(q.av, q.ai);
    PairPacked(q.bv, q.bi);
  }

  lemma PairUnpacked(lowV: Byte, lowI: Byte, high: Byte)
    ensures var p := UnpackPair(lowV, lowI, high);
            Fits12(p.0) && Fits12(p.1) && LowBits(p.0) == lowV && LowBits(p.1) == lowI && HighBits(p.0, p.1) == high
  {
    FieldUnpacked(high % 16, lowV);
    FieldUnpacked(high / 16, lowI);
  }

  lemma PairPacked(v: int, i: int)
    ensures UnpackPair(LowBits(v), LowBits(i), HighBits(v, i)) == (v, i) <==> Fits12(v) && Fits12(i)
  {
    FieldPacked(v);
    FieldPacked(i);
    DivModUnique(HighBits(v, i), 16, i / 256 % 16, v / 256 % 16);
  }

  /** One three-byte OUT sample. */
  function PackOut(a: Word16, b: Word16): (d: seq<Byte>)
    ensures |d| == 3
  {
    [LowBits(a), LowBits(b), Or(b / 256 % 16 * 16, a / 256) % 256]
  }

  /** An OUT sample as the hardware reads it. */
  function UnpackOut(d: seq<Byte>): (int, int)
    requires |d| == 3
  {
    var a: int, b: int, high: int := d[0], d[1], d[2];
    (a + high % 16 * 256, b + high / 16 * 256)
  }

  /** The OUT sample carries both values exactly when both fit in twelve bits. */
  lemma OutRoundTrip(a: Word16, b: Word16)
    ensures UnpackOut(PackOut(a, b)) == (a, b) <==> a < 0x1000 && b < 0x1000
  {
    if a < 0x1000 && b < 0x1000 {
      var high := b / 256;
      DivModUnique(high, 16, 0, high);
      OrNibble(high, a / 256);
      DivModUnique(high * 16 + a / 256, 16, high, a / 256);
      DivModUnique(high * 16 + a / 256, 256, 0, high * 16 + a / 256);
    }
  }

  // ---- IN transfers ----

  type Packet = p: seq<Byte> | |p| == IN_PACKET_SIZE witness seq(IN_PACKET_SIZE, _ => 0)

  /** EEPROM calibration: offsets in counts, current gains in units of 1/100000. */
  datatype Calibration = Calibration(offset: Quad<int>, currentGainA: nat, currentGainB: nat)

  /** How counts become volts and milliamps. */
  datatype Scaling = Scaling(cal: Calibration, gain: Quad<real>, rawMode: bool)
  {
    predicate Valid() {
      && cal.currentGainA > 0 && cal.currentGainB > 0
      && gain.av != 0.0 && gain.ai != 0.0 && gain.bv != 0.0 && gain.bi != 0.0
    }

    function Volts(): real { if rawMode then 1.0 else 5.0 / 2048.0 }

    function Amps(currentGain: nat): real
      requires currentGain > 0
    {
      if rawMode then 1.0 else 2.5 / 2048.0 / (currentGain as real / 100000.0) * 1000.0
    }
  }

  predicate Enabled(mode: Byte) {
    mode % 4 != DISABLED
  }

  /** One IN sample; a disabled channel reports no current. */
  function Convert(scale: Scaling, pkt: Packet, q: Quad<int>): Quad<Sample>
    requires scale.Valid()
  {
    var cal, gain := scale.cal, scale.gain;
    Quad(Num((cal.offset.av + q.av) as real * scale.Volts() / gain.av),
         if Enabled(pkt[0]) then Num((cal.offset.ai + q.ai) as real * scale.Amps(cal.currentGainA) / gain.ai)
         else Num(0.0),
         Num((cal.offset.bv + q.bv) as real * scale.Volts() / gain.bv),
         if Enabled(pkt[1]) then Num((cal.offset.bi + q.bi) as real * scale.Amps(cal.currentGainB) / gain.bi)
         else Num(0.0))
  }

  /** Sample i of a packet: after the four header bytes, six bytes each. */
  function SampleOf(scale: Scaling, pkt: Packet, i: nat): Quad<Sample>
    requires scale.Valid() && i < SAMPLES_PER_PACKET
  {
    Convert(scale, pkt, UnpackIn(pkt[4 + i * 6..4 + i * 6 + 6]))
  }

  function PacketSamples(scale: Scaling, pkt: Packet): (r: seq<Quad<Sample>>)
    requires scale.Valid()
    ensures |r| == SAMPLES_PER_PACKET && forall i :: 0 <= i < SAMPLES_PER_PACKET ==> r[i] == SampleOf(scale, pkt, i)
  {
    seq(SAMPLES_PER_PACKET, i requires 0 <= i < SAMPLES_PER_PACKET => SampleOf(scale, pkt, i))
  }

  /** The complete packets of a transfer, at most `packets` of them. */
  function Complete(buffer: seq<Byte>, packets: nat): seq<Packet> {
    if packets == 0 || |buffer| < IN_PACKET_SIZE then []
    else [buffer[..IN_PACKET_SIZE]] + Complete(buffer[IN_PACKET_SIZE..], packets - 1)
  }

  function AllSamples(scale: Scaling, pkts: seq<Packet>): (r: seq<Quad<Sample>>)
    requires scale.Valid()
    ensures |r| == |pkts| * SAMPLES_PER_PACKET
  {
    if pkts == [] then [] else AllSamples(scale, pkts[..|pkts| - 1]) + PacketSamples(scale, pkts[|pkts| - 1])
  }

  predicate DropFlag(pkt: Packet) {
    pkt[2] % 2 == 1
  }

  /** Some packet reports a drop, other than the very first one of a capture. */
  predicate AnyDropped(pkts: seq<Packet>, first: bool) {
    exists p :: 0 <= p < |pkts| && DropFlag(pkts[p]) && !(first && p == 0)
  }

  /** Whole packets after packing n of them end to end. */
  lemma {:induction false} CompleteJoined(pkts: seq<Packet>, tail: seq<Byte>)
    requires |tail| < IN_PACKET_SIZE
    ensures Complete(Joined(pkts) + tail, |pkts|) == pkts
  {
    if pkts != [] {
      var first, rest := pkts[0], Joined(pkts[1..]);
      CompleteJoined(pkts[1..], tail);
      assert (first + rest + tail)[..IN_PACKET_SIZE] == first && (first + rest + tail)[IN_PACKET_SIZE..] == rest + tail;
    }
  }

  function Joined(pkts: seq<Packet>): seq<Byte> {
    if pkts == [] then [] else pkts[0] + Joined(pkts[1..])
  }

  method HandlePacket(dev: Device, scale: Scaling, pkt: Packet)
    requires dev.Valid() && dev.Settled() && TwoByTwo(dev) && scale.Valid()
    modifies dev`captureI, dev`history, dev`pending, dev.Repr - {dev}
    ensures dev.Valid() && dev.Settled() && TwoByTwo(dev)
    ensures dev.captureI == old(dev.captureI) + SAMPLES_PER_PACKET
    ensures Received(old(dev.history), dev.history, PacketSamples(scale, pkt))
  {
    hide Agrees, Received, SampleOf, Scaling.Valid;
    ghost var samples := PacketSamples(scale, pkt);
    ReceivedNothing(dev.history);
    for i := 0 to SAMPLES_PER_PACKET
      invariant dev.Valid() && dev.Settled() && TwoByTwo(dev)
      invariant dev.captureI == old(dev.captureI) + i
      invariant Received(old(dev.history), dev.history, samples[..i])
    {
      ghost var mid := dev.history;
      PutQuad(dev, SampleOf(scale, pkt, i));
      ReceivedJoin(old(dev.history), mid, dev.history, samples[..i], [samples[i]]);
      assert samples[..i + 1] == samples[..i] + [samples[i]];
    }
    assert samples[..SAMPLES_PER_PACKET] == samples;
  }

  lemma NextPacket(buffer: seq<Byte>, packets: nat, p: nat, got: seq<Packet>)
    requires p < packets && p * IN_PACKET_SIZE + IN_PACKET_SIZE <= |buffer|
    ensures got + Complete(buffer[p * IN_PACKET_SIZE..], packets - p)
         == got + [buffer[p * IN_PACKET_SIZE..p * IN_PACKET_SIZE + IN_PACKET_SIZE]]
            + Complete(buffer[(p + 1) * IN_PACKET_SIZE..], packets - (p + 1))
  {
    var rest := buffer[p * IN_PACKET_SIZE..];
    assert rest[..IN_PACKET_SIZE] == buffer[p * IN_PACKET_SIZE..p * IN_PACKET_SIZE + IN_PACKET_SIZE];
    assert rest[IN_PACKET_SIZE..] == buffer[(p + 1) * IN_PACKET_SIZE..];
  }

  lemma NoneDropped(first: bool)
    ensures !AnyDropped([], first)
  {
  }

  lemma DroppedNext(got: seq<Packet>, pkt: Packet, first: bool)
    ensures AnyDropped(got + [pkt], first) <==> AnyDropped(got, first) || (DropFlag(pkt) && !(first && got == []))
  {
    var all := got + [pkt];
    if AnyDropped(got, first) {
      var p :| 0 <= p < |got| && DropFlag(got[p]) && !(first && p == 0);
      assert DropFlag(all[p]);
    }
    if DropFlag(pkt) && !(first && got == []) {
      assert DropFlag(all[|got|]);
    }
  }

  /** One IN transfer: the samples of its complete packets reach every stream in order,
      and a drop is announced when a packet after the first reports one. */
  method HandleInTransfer(dev: Device, scale: Scaling, packets: nat, buffer: seq<Byte>, firstPacket: bool)
    returns (dropped: bool, stillFirst: bool)
    requires dev.Valid() && dev.Settled() && TwoByTwo(dev) && scale.Valid()
    modifies dev`captureI, dev`history, dev`pending, dev.Repr - {dev}
    ensures dev.Valid() && dev.Settled() && TwoByTwo(dev)
    ensures Received(old(dev.history), dev.history, AllSamples(scale, Complete(buffer, packets)))
    ensures dropped == AnyDropped(Complete(buffer, packets), firstPacket)
    ensures stillFirst == (firstPacket && Complete(buffer, packets) == [])
  {
    hide Agrees, Received, PacketSamples, Scaling.Valid, DropFlag, AnyDropped;
    ghost var got: seq<Packet> := [];
    ReceivedNothing(dev.history);
    NoneDropped(firstPacket);
    dropped, stillFirst := false, firstPacket;
    var p := 0;
    while p < packets
      invariant 0 <= p == |got| <= packets && p * IN_PACKET_SIZE <= |buffer|
      invariant dev.Valid() && dev.Settled() && TwoByTwo(dev)
      invariant Complete(buffer, packets) == got + Complete(buffer[p * IN_PACKET_SIZE..], packets - p)
      invariant Received(old(dev.history), dev.history, AllSamples(scale, got))
      invariant stillFirst == (firstPacket && got == [])
      invariant dropped == AnyDropped(got, firstPacket)
    {
      var base := p * IN_PACKET_SIZE;
      if base + IN_PACKET_SIZE > |buffer| {
        break;
      }
      var pkt: Packet := buffer[base..base + IN_PACKET_SIZE];
      DroppedNext(got, pkt, firstPacket);
      if DropFlag(pkt) && !stillFirst {
        dropped := true;
      }
      stillFirst := false;
      ghost var mid := dev.history;
      HandlePacket(dev, scale, pkt);
      ReceivedJoin(old(dev.history), mid, dev.history, AllSamples(scale, got), PacketSamples(scale, pkt));
      NextPacket(buffer, packets, p, got);
      assert (got + [pkt])[..p] == got;
      got := got + [pkt];
      p := p + 1;
    }
    assert Complete(buffer[p * IN_PACKET_SIZE..], packets - p) == [];
    assert got + [] == got;
  }

  // ---- OUT transfers ----

  /** A source value as a 12-bit DAC code. */
  function EncodeOut(rawMode: bool, currentLimit: nat, mode: nat, val: real, currentGain: nat): (code: nat)
    ensures code < 4096
  {
    if rawMode then Clamp(val, 0.0, 4095.0).Floor
    else
      var v :=
        if mode == SVMI then Trunc(4095.0 * Clamp(val, 0.0, 5.0) / 5.0)
        else if mode == SIMV then
          var limit := currentLimit as real;
          Trunc(4095.0 * (1.25 + currentGain as real / 100000.0 * Clamp(val, -limit, limit) / 1000.0) / 2.5)
        else 0;
      Max(0, Min(4095, v))
  }

  /** How a channel's source values are encoded. */
  datatype Encoding = Encoding(rawMode: bool, currentLimit: nat, mode: nat, currentGain: nat)
  {
    function Code(val: real): (code: nat)
      ensures code < 4096
    {
      EncodeOut(rawMode, currentLimit, mode % 256, val, currentGain)
    }

    function Codes(vals: seq<real>): (r: seq<int>)
      ensures |r| == |vals| && forall i :: 0 <= i < |r| ==> r[i] == Code(vals[i])
    {
      seq(|vals|, i requires 0 <= i < |vals| => Code(vals[i]))
    }
  }

  /** What the hardware reads for sample i of the packet starting at `pkt`. */
  function OutWord(buf: seq<Byte>, pkt: nat, i: nat, channel: nat): int
    requires pkt + OUT_PACKET_SIZE <= |buf| && i < SAMPLES_PER_PACKET
  {
    var words := UnpackOut(buf[pkt + 2 + i * 3..pkt + 2 + i * 3 + 3]);
    if channel == 0 then words.0 else words.1
  }

  function PacketWords(buf: seq<Byte>, pkt: nat, channel: nat): (r: seq<int>)
    requires pkt + OUT_PACKET_SIZE <= |buf|
    ensures |r| == SAMPLES_PER_PACKET
    ensures forall i :: 0 <= i < SAMPLES_PER_PACKET ==> r[i] == OutWord(buf, pkt, i, channel)
  {
    seq(SAMPLES_PER_PACKET, i requires 0 <= i < SAMPLES_PER_PACKET => OutWord(buf, pkt, i, channel))
  }

  /** A channel's samples in the first `packets` packets of a transfer. */
  function TransferWords(buf: seq<Byte>, packets: nat, channel: nat): seq<int>
    requires packets * OUT_PACKET_SIZE <= |buf|
  {
    if packets == 0 then []
    else TransferWords(buf, packets - 1, channel) + PacketWords(buf, (packets - 1) * OUT_PACKET_SIZE, channel)
  }

  /** Every packet of a transfer starts with the two channel modes. */
  ghost predicate ModesSent(buf: seq<Byte>, packets: nat, a: Encoding, b: Encoding)
    requires packets * OUT_PACKET_SIZE <= |buf|
  {
    packets == 0 || (ModesSent(buf, packets - 1, a, b) && HeaderAt(buf, (packets - 1) * OUT_PACKET_SIZE, a, b))
  }

  ghost predicate HeaderAt(buf: seq<Byte>, pkt: nat, a: Encoding, b: Encoding)
    requires pkt + 2 <= |buf|
  {
    buf[pkt] == a.mode % 256 && buf[pkt + 1] == b.mode % 256
  }

  lemma {:induction false} EarlierPackets(x: seq<Byte>, y: seq<Byte>, packets: nat, a: Encoding, b: Encoding)
    requires packets * OUT_PACKET_SIZE <= |x| == |y|
    requires x[..packets * OUT_PACKET_SIZE] == y[..packets * OUT_PACKET_SIZE]
    ensures TransferWords(x, packets, 0) == TransferWords(y, packets, 0)
    ensures TransferWords(x, packets, 1) == TransferWords(y, packets, 1)
    ensures ModesSent(x, packets, a, b) <==> ModesSent(y, packets, a, b)
  {
    if packets > 0 {
      var pkt := (packets - 1) * OUT_PACKET_SIZE;
      assert x[..pkt] == x[..packets * OUT_PACKET_SIZE][..pkt] && y[..pkt] == y[..packets * OUT_PACKET_SIZE][..pkt];
      EarlierPackets(x, y, packets - 1, a, b);
      SamePacket(x, y, pkt);
      assert PacketWords(x, pkt, 0) == PacketWords(y, pkt, 0) && PacketWords(x, pkt, 1) == PacketWords(y, pkt, 1);
    }
  }

  lemma SamePacket(x: seq<Byte>, y: seq<Byte>, pkt: nat)
    requires pkt + OUT_PACKET_SIZE <= |x| == |y| && x[..pkt + OUT_PACKET_SIZE] == y[..pkt + OUT_PACKET_SIZE]
    ensures x[pkt] == y[pkt] && x[pkt + 1] == y[pkt + 1]
    ensures forall i, c :: 0 <= i < SAMPLES_PER_PACKET && 0 <= c < 2 ==> OutWord(x, pkt, i, c) == OutWord(y, pkt, i, c)
  {
    var p := pkt + OUT_PACKET_SIZE;
    assert forall j :: 0 <= j < p ==> x[j] == x[..p][j] && y[j] == y[..p][j];
    forall i, c | 0 <= i < SAMPLES_PER_PACKET && 0 <= c < 2
      ensures OutWord(x, pkt, i, c) == OutWord(y, pkt, i, c)
    {
      var at := pkt + 2 + i * 3;
      assert x[at..at + 3] == y[at..at + 3];
    }
  }

  /** Store one sample of both channels. */
  method PutSample(buf: array<Byte>, pkt: nat, i: nat, a: nat, b: nat)
    requires pkt + OUT_PACKET_SIZE <= buf.Length && i < SAMPLES_PER_PACKET && a < 4096 && b < 4096
    modifies buf
    ensures OutWord(buf[..], pkt, i, 0) == a && OutWord(buf[..], pkt, i, 1) == b
    ensures forall j, c :: 0 <= j < SAMPLES_PER_PACKET && 0 <= c < 2 && j != i ==>
              OutWord(buf[..], pkt, j, c) == OutWord(old(buf[..]), pkt, j, c)
    ensures buf[..pkt + 2] == old(buf[..pkt + 2])
  {
    hide UnpackOut, PackOut;
    var s := PackOut(a, b);
    var at := pkt + 2 + i * 3;
    buf[at], buf[at + 1], buf[at + 2] := s[0], s[1], s[2];
    assert buf[..][at..at + 3] == s;
    OutRoundTrip(a, b);
    forall j, c | 0 <= j < SAMPLES_PER_PACKET && 0 <= c < 2 && j != i
      ensures OutWord(buf[..], pkt, j, c) == OutWord(old(buf[..]), pkt, j, c)
    {
      var o := pkt + 2 + j * 3;
      assert buf[..][o..o + 3] == old(buf[..])[o..o + 3];
    }
  }

  /** The packet at pkt starts with samples `words` of a channel. */
  ghost predicate Holds(buf: seq<Byte>, pkt: nat, channel: nat, words: seq<int>)
    requires pkt + OUT_PACKET_SIZE <= |buf| && |words| <= SAMPLES_PER_PACKET && channel < 2
  {
    forall i :: 0 <= i < |words| ==> OutWord(buf, pkt, i, channel) == words[i]
  }

  /** Header and the next ten values of both sources. */
  method FillPacket(buf: array<Byte>, pkt: nat, a: OutputSource, b: OutputSource, ea: Encoding, eb: Encoding,
                    o: nat, sinTurns: real -> real)
    requires pkt + OUT_PACKET_SIZE <= buf.Length
    requires a != b && a.Valid() && b.Valid() && a.lastQuery <= o && b.lastQuery <= o
    modifies buf, a`kind, a`passesDone, a`lastQuery, b`kind, b`passesDone, b`lastQuery
    ensures a.Valid() && b.Valid() && a.lastQuery < o + SAMPLES_PER_PACKET && b.lastQuery < o + SAMPLES_PER_PACKET
    ensures forall n: nat :: a.ValueAt(n, sinTurns) == old(a.ValueAt(n, sinTurns))
    ensures forall n: nat :: b.ValueAt(n, sinTurns) == old(b.ValueAt(n, sinTurns))
    ensures PacketWords(buf[..], pkt, 0) == ea.Codes(old(Waveform(a, o, SAMPLES_PER_PACKET, sinTurns)))
    ensures PacketWords(buf[..], pkt, 1) == eb.Codes(old(Waveform(b, o, SAMPLES_PER_PACKET, sinTurns)))
    ensures HeaderAt(buf[..], pkt, ea, eb)
    ensures buf[..pkt] == old(buf[..pkt])
  {
    hide OutWord, EncodeOut, OutputSource.Valid, OutputSource.ValueAt;
    ghost var wordsA := ea.Codes(Waveform(a, o, SAMPLES_PER_PACKET, sinTurns));
    ghost var wordsB := eb.Codes(Waveform(b, o, SAMPLES_PER_PACKET, sinTurns));
    buf[pkt] := ea.mode % 256;
    buf[pkt + 1] := eb.mode % 256;
    ghost var head := buf[..pkt + 2];
    assert head[..pkt] == old(buf[..pkt]);
    for i := 0 to SAMPLES_PER_PACKET
      invariant a.Valid() && b.Valid() && a.lastQuery <= o + i && b.lastQuery <= o + i
      invariant i == SAMPLES_PER_PACKET ==> a.lastQuery < o + i && b.lastQuery < o + i
      invariant forall n: nat :: a.ValueAt(n, sinTurns) == old(a.ValueAt(n, sinTurns))
      invariant forall n: nat :: b.ValueAt(n, sinTurns) == old(b.ValueAt(n, sinTurns))
      invariant Holds(buf[..], pkt, 0, wordsA[..i]) && Holds(buf[..], pkt, 1, wordsB[..i])
      invariant buf[..pkt + 2] == head
    {
      var av := a.GetValue(o + i, sinTurns);
      var bv := b.GetValue(o + i, sinTurns);
      PutSample(buf, pkt, i, ea.Code(av), eb.Code(bv));
    }
    assert PacketWords(buf[..], pkt, 0) == wordsA;
    assert PacketWords(buf[..], pkt, 1) == wordsB;
    assert buf[..pkt] == head[..pkt];
    assert buf[pkt] == head[pkt] && buf[pkt + 1] == head[pkt + 1];
  }

  lemma CodesJoin(e: Encoding, x: seq<real>, y: seq<real>)
    ensures e.Codes(x + y) == e.Codes(x) + e.Codes(y)
  {
  }

  /** Encode the next packet after p packets that carry `sentA` and `sentB`. */
  method AppendPacket(buf: array<Byte>, p: nat, a: OutputSource, b: OutputSource, ea: Encoding, eb: Encoding,
                      o: nat, sinTurns: real -> real, ghost sentA: seq<real>, ghost sentB: seq<real>)
    requires (p + 1) * OUT_PACKET_SIZE <= buf.Length
    requires a != b && a.Valid() && b.Valid() && a.lastQuery <= o && b.lastQuery <= o
    requires TransferWords(buf[..], p, 0) == ea.Codes(sentA) && TransferWords(buf[..], p, 1) == eb.Codes(sentB)
    requires ModesSent(buf[..], p, ea, eb)
    modifies buf, a`kind, a`passesDone, a`lastQuery, b`kind, b`passesDone, b`lastQuery
    ensures a.Valid() && b.Valid() && a.lastQuery < o + SAMPLES_PER_PACKET && b.lastQuery < o + SAMPLES_PER_PACKET
    ensures forall n: nat :: a.ValueAt(n, sinTurns) == old(a.ValueAt(n, sinTurns))
    ensures forall n: nat :: b.ValueAt(n, sinTurns) == old(b.ValueAt(n, sinTurns))
    ensures TransferWords(buf[..], p + 1, 0) == ea.Codes(sentA + old(Waveform(a, o, SAMPLES_PER_PACKET, sinTurns)))
    ensures TransferWords(buf[..], p + 1, 1) == eb.Codes(sentB + old(Waveform(b, o, SAMPLES_PER_PACKET, sinTurns)))
    ensures ModesSent(buf[..], p + 1, ea, eb)
  {
    hide PacketWords, Encoding.Codes, HeaderAt, Waveform, OutputSource.Valid, OutputSource.ValueAt;
    ghost var before := buf[..];
    ghost var nextA := Waveform(a, o, SAMPLES_PER_PACKET, sinTurns);
    ghost var nextB := Waveform(b, o, SAMPLES_PER_PACKET, sinTurns);
    FillPacket(buf, p * OUT_PACKET_SIZE, a, b, ea, eb, o, sinTurns);
    EarlierPackets(before, buf[..], p, ea, eb);
    CodesJoin(ea, sentA, nextA);
    CodesJoin(eb, sentB, nextB);
  }

  lemma NothingFilled(buf: seq<Byte>, ea: Encoding, eb: Encoding)
    ensures TransferWords(buf, 0, 0) == ea.Codes([]) && TransferWords(buf, 0, 1) == eb.Codes([])
    ensures ModesSent(buf, 0, ea, eb)
  {
  }

  /** One OUT transfer of a device with a source on each channel: every packet carries
      the modes and the next ten samples of both waveforms; the output counter
      advances past them. */
  method FillFromSources(dev: Device, buf: array<Byte>, packets: nat, a: OutputSource, b: OutputSource,
                         ea: Encoding, eb: Encoding, sinTurns: real -> real)
    requires buf.Length == packets * OUT_PACKET_SIZE
    requires a != b && a.Valid() && b.Valid() && a.lastQuery <= dev.captureO && b.lastQuery <= dev.captureO
    modifies buf, dev`captureO, a`kind, a`passesDone, a`lastQuery, b`kind, b`passesDone, b`lastQuery
    ensures dev.captureO == old(dev.captureO) + packets * SAMPLES_PER_PACKET
    ensures a.Valid() && b.Valid() && a.lastQuery <= dev.captureO && b.lastQuery <= dev.captureO
    ensures forall n: nat :: a.ValueAt(n, sinTurns) == old(a.ValueAt(n, sinTurns))
    ensures forall n: nat :: b.ValueAt(n, sinTurns) == old(b.ValueAt(n, sinTurns))
    ensures ModesSent(buf[..], packets, ea, eb)
    ensures TransferWords(buf[..], packets, 0)
         == ea.Codes(old(Waveform(a, dev.captureO, packets * SAMPLES_PER_PACKET, sinTurns)))
    ensures TransferWords(buf[..], packets, 1)
         == eb.Codes(old(Waveform(b, dev.captureO, packets * SAMPLES_PER_PACKET, sinTurns)))
  {
    hide TransferWords, Encoding.Codes, ModesSent, OutputSource.Valid, OutputSource.ValueAt;
    var o := dev.captureO;
    ghost var sentA: seq<real>, sentB: seq<real> := [], [];
    NothingFilled(buf[..], ea, eb);
    for p := 0 to packets
      invariant o == dev.captureO + p * SAMPLES_PER_PACKET && dev.captureO == old(dev.captureO)
      invariant a.Valid() && b.Valid() && a.lastQuery <= o && b.lastQuery <= o
      invariant forall n: nat :: a.ValueAt(n, sinTurns) == old(a.ValueAt(n, sinTurns))
      invariant forall n: nat :: b.ValueAt(n, sinTurns) == old(b.ValueAt(n, sinTurns))
      invariant sentA == old(Waveform(a, dev.captureO, p * SAMPLES_PER_PACKET, sinTurns))
      invariant sentB == old(Waveform(b, dev.captureO, p * SAMPLES_PER_PACKET, sinTurns))
      invariant ModesSent(buf[..], p, ea, eb)
      invariant TransferWords(buf[..], p, 0) == ea.Codes(sentA)
      invariant TransferWords(buf[..], p, 1) == eb.Codes(sentB)
    {
      ghost var nextA := Waveform(a, o, SAMPLES_PER_PACKET, sinTurns);
      ghost var nextB := Waveform(b, o, SAMPLES_PER_PACKET, sinTurns);
      AppendPacket(buf, p, a, b, ea, eb, o, sinTurns, sentA, sentB);
      sentA, sentB := sentA + nextA, sentB + nextB;
      o := o + SAMPLES_PER_PACKET;
    }
    dev.captureO := o;
  }

  /** One OUT transfer; all zero when a channel has no source. */
  method FillOutTransfer(dev: Device, packets: nat, a: OutputSource?, b: OutputSource?,
                         ea: Encoding, eb: Encoding, sinTurns: real -> real) returns (buf: array<Byte>)
    requires a != null && b != null ==>
               a != b && a.Valid() && b.Valid() && a.lastQuery <= dev.captureO && b.lastQuery <= dev.captureO
    modifies dev`captureO, Present(a, b)`kind, Present(a, b)`passesDone, Present(a, b)`lastQuery
    ensures fresh(buf) && buf.Length == packets * OUT_PACKET_SIZE
    ensures a == null || b == null ==>
              dev.captureO == old(dev.captureO) && forall j :: 0 <= j < buf.Length ==> buf[j] == 0
    ensures a != null && b != null ==>
              && dev.captureO == old(dev.captureO) + packets * SAMPLES_PER_PACKET
              && a.Valid() && b.Valid() && a.lastQuery <= dev.captureO && b.lastQuery <= dev.captureO
              && (forall n: nat :: a.ValueAt(n, sinTurns) == old(a.ValueAt(n, sinTurns)))
              && (forall n: nat :: b.ValueAt(n, sinTurns) == old(b.ValueAt(n, sinTurns)))
              && ModesSent(buf[..], packets, ea, eb)
              && TransferWords(buf[..], packets, 0)
                 == ea.Codes(old(Waveform(a, dev.captureO, packets * SAMPLES_PER_PACKET, sinTurns)))
              && TransferWords(buf[..], packets, 1)
                 == eb.Codes(old(Waveform(b, dev.captureO, packets * SAMPLES_PER_PACKET, sinTurns)))
  {
    hide TransferWords, ModesSent, Encoding.Codes, Waveform, OutputSource.Valid, OutputSource.ValueAt;
    buf := new Byte[packets * OUT_PACKET_SIZE](_ => 0);
    if a != null && b != null {
      FillFromSources(dev, buf, packets, a, b, ea, eb, sinTurns);
    }
  }

  const N_TRANSFERS: nat := 4

  ghost predicate Sized(transfers: seq<seq<Byte>>, packets: nat) {
    forall t :: 0 <= t < |transfers| ==> |transfers[t]| == packets * OUT_PACKET_SIZE
  }

  /** A channel's samples in a sequence of transfers. */
  ghost function StreamWords(transfers: seq<seq<Byte>>, packets: nat, channel: nat): seq<int>
    requires Sized(transfers, packets)
  {
    if transfers == [] then []
    else StreamWords(transfers[..|transfers| - 1], packets, channel)
         + TransferWords(transfers[|transfers| - 1], packets, channel)
  }

  /** Every packet of every transfer starts with the two channel modes. */
  ghost predicate AllModesSent(transfers: seq<seq<Byte>>, packets: nat, a: Encoding, b: Encoding)
    requires Sized(transfers, packets)
  {
    forall t :: 0 <= t < |transfers| ==> ModesSent(transfers[t], packets, a, b)
  }

  /** Samples in a number of transfers. */
  function Covered(packets: nat, transfers: nat): nat {
    transfers * (packets * SAMPLES_PER_PACKET)
  }

  lemma CoveredNone(packets: nat)
    ensures Covered(packets, 0) == 0
  {
  }

  lemma CoveredNext(packets: nat, transfers: nat)
    ensures Covered(packets, transfers + 1) == Covered(packets, transfers) + packets * SAMPLES_PER_PACKET
  {
  }

  lemma NothingSent(packets: nat, ea: Encoding, eb: Encoding)
    ensures Sized([], packets) && AllModesSent([], packets, ea, eb)
    ensures StreamWords([], packets, 0) == ea.Codes([]) && StreamWords([], packets, 1) == eb.Codes([])
  {
  }

  lemma OneMoreSent(sent: seq<seq<Byte>>, buf: seq<Byte>, packets: nat, ea: Encoding, eb: Encoding)
    requires Sized(sent, packets) && |buf| == packets * OUT_PACKET_SIZE
    requires AllModesSent(sent, packets, ea, eb) && ModesSent(buf, packets, ea, eb)
    ensures Sized(sent + [buf], packets) && AllModesSent(sent + [buf], packets, ea, eb)
    ensures forall c :: 0 <= c < 2 ==>
              StreamWords(sent + [buf], packets, c) == StreamWords(sent, packets, c) + TransferWords(buf, packets, c)
  {
    assert (sent + [buf])[..|sent|] == sent;
  }

  /** Submit the transfer that follows those of `sent`, which carry `sentA` and `sentB`. */
  method SendNext(dev: Device, packets: nat, a: OutputSource, b: OutputSource, ea: Encoding, eb: Encoding,
                  sinTurns: real -> real, sent: seq<seq<Byte>>, ghost sentA: seq<real>, ghost sentB: seq<real>)
    returns (next: seq<seq<Byte>>)
    requires Sized(sent, packets) && AllModesSent(sent, packets, ea, eb)
    requires a != b && a.Valid() && b.Valid() && a.lastQuery <= dev.captureO && b.lastQuery <= dev.captureO
    requires StreamWords(sent, packets, 0) == ea.Codes(sentA) && StreamWords(sent, packets, 1) == eb.Codes(sentB)
    modifies dev`captureO, a`kind, a`passesDone, a`lastQuery, b`kind, b`passesDone, b`lastQuery
    ensures |next| == |sent| + 1 && Sized(next, packets) && AllModesSent(next, packets, ea, eb)
    ensures dev.captureO == old(dev.captureO) + packets * SAMPLES_PER_PACKET
    ensures a.Valid() && b.Valid() && a.lastQuery <= dev.captureO && b.lastQuery <= dev.captureO
    ensures forall n: nat :: a.ValueAt(n, sinTurns) == old(a.ValueAt(n, sinTurns))
    ensures forall n: nat :: b.ValueAt(n, sinTurns) == old(b.ValueAt(n, sinTurns))
    ensures StreamWords(next, packets, 0)
         == ea.Codes(sentA + old(Waveform(a, dev.captureO, packets * SAMPLES_PER_PACKET, sinTurns)))
    ensures StreamWords(next, packets, 1)
         == eb.Codes(sentB + old(Waveform(b, dev.captureO, packets * SAMPLES_PER_PACKET, sinTurns)))
  {
    hide TransferWords, StreamWords, Sized, AllModesSent, ModesSent, Waveform;
    hide Encoding.Codes, OutputSource.Valid, OutputSource.ValueAt;
    CodesJoin(ea, sentA, Waveform(a, dev.captureO, packets * SAMPLES_PER_PACKET, sinTurns));
    CodesJoin(eb, sentB, Waveform(b, dev.captureO, packets * SAMPLES_PER_PACKET, sinTurns));
    var buf := FillOutTransfer(dev, packets, a, b, ea, eb, sinTurns);
    OneMoreSent(sent, buf[..], packets, ea, eb);
    next := sent + [buf[..]];
  }

  /** The OUT pipeline over `completions` completed transfers: N_TRANSFERS are queued at
      once, then one more for every completion, for as long as the capture runs. They
      decode to both waveforms at consecutive sample numbers, without gap or repeat. */
  method OutPipeline(dev: Device, packets: nat, a: OutputSource, b: OutputSource, ea: Encoding, eb: Encoding,
                     sinTurns: real -> real, completions: nat) returns (sent: seq<seq<Byte>>)
    requires a != b && a.Valid() && b.Valid() && a.lastQuery <= dev.captureO && b.lastQuery <= dev.captureO
    modifies dev`captureO, a`kind, a`passesDone, a`lastQuery, b`kind, b`passesDone, b`lastQuery
    ensures |sent| == N_TRANSFERS + completions && Sized(sent, packets) && AllModesSent(sent, packets, ea, eb)
    ensures dev.captureO == old(dev.captureO) + Covered(packets, |sent|)
    ensures StreamWords(sent, packets, 0)
         == ea.Codes(old(Waveform(a, dev.captureO, Covered(packets, |sent|), sinTurns)))
    ensures StreamWords(sent, packets, 1)
         == eb.Codes(old(Waveform(b, dev.captureO, Covered(packets, |sent|), sinTurns)))
  {
    hide Covered, StreamWords, Sized, AllModesSent, Encoding.Codes, OutputSource.Valid, OutputSource.ValueAt;
    CoveredNone(packets);
    NothingSent(packets, ea, eb);
    ghost var sentA: seq<real>, sentB: seq<real> := [], [];
    sent := [];
    for t := 0 to N_TRANSFERS + completions
      invariant |sent| == t && Sized(sent, packets) && AllModesSent(sent, packets, ea, eb)
      invariant dev.captureO == old(dev.captureO) + Covered(packets, t)
      invariant a.Valid() && b.Valid() && a.lastQuery <= dev.captureO && b.lastQuery <= dev.captureO
      invariant forall n: nat :: a.ValueAt(n, sinTurns) == old(a.ValueAt(n, sinTurns))
      invariant forall n: nat :: b.ValueAt(n, sinTurns) == old(b.ValueAt(n, sinTurns))
      invariant sentA == old(Waveform(a, dev.captureO, Covered(packets, t), sinTurns))
      invariant sentB == old(Waveform(b, dev.captureO, Covered(packets, t), sinTurns))
      invariant StreamWords(sent, packets, 0) == ea.Codes(sentA) && StreamWords(sent, packets, 1) == eb.Codes(sentB)
    {
      CoveredNext(packets, t);
      ghost var nextA := Waveform(a, dev.captureO, packets * SAMPLES_PER_PACKET, sinTurns);
      ghost var nextB := Waveform(b, dev.captureO, packets * SAMPLES_PER_PACKET, sinTurns);
      sent := SendNext(dev, packets, a, b, ea, eb, sinTurns, sent, sentA, sentB);
      sentA, sentB := sentA + nextA, sentB + nextB;
    }
  }
}
