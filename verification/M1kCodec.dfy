/** M1K bulk transfers (src/usb/m1k.rs). Samples are 16-bit big-endian words in one of
    two layouts: interleaved per sample (firmware 2.0 on), or in blocks per channel. */
module M1kCodec {
  import opened Common
  import opened Samples
  import opened Sources
  import opened RingBuffer
  import opened Frames
  import opened Transfers
  import R = LeadResync

  const CHUNK_SIZE: nat := 256
  const IN_PACKET_SIZE: nat := 2048
  const OUT_PACKET_SIZE: nat := 1024

  function BigEndian(hi: Byte, lo: Byte): Word16 {
    hi * 256 + lo
  }

  // ---- IN transfers ----

  /** Byte offset of word k of sample i within a packet. */
  function InOffset(interleaved: bool, i: nat, k: nat): nat {
    if interleaved then i * 8 + k * 2 else (i + CHUNK_SIZE * k) * 2
  }

  function InWord(buf: seq<Byte>, interleaved: bool, i: nat, k: nat): Word16
    requires |buf| == IN_PACKET_SIZE && i < CHUNK_SIZE && k < 4
  {
    BigEndian(buf[InOffset(interleaved, i, k)], buf[InOffset(interleaved, i, k) + 1])
  }

  function InQuad(buf: seq<Byte>, interleaved: bool, i: nat): Quad<Word16>
    requires |buf| == IN_PACKET_SIZE && i < CHUNK_SIZE
  {
    Quad(InWord(buf, interleaved, i, 0), InWord(buf, interleaved, i, 1),
         InWord(buf, interleaved, i, 2), InWord(buf, interleaved, i, 3))
  }

  /** The samples of one packet, in order. */
  function PacketQuads(buf: seq<Byte>, interleaved: bool): (r: seq<Quad<Word16>>)
    requires |buf| == IN_PACKET_SIZE
    ensures |r| == CHUNK_SIZE && forall i :: 0 <= i < CHUNK_SIZE ==> r[i] == InQuad(buf, interleaved, i)
  {
    seq(CHUNK_SIZE, i requires 0 <= i < CHUNK_SIZE => InQuad(buf, interleaved, i))
  }

  /** The samples of the first `packets` packets of a transfer, stopping early when the
      buffer is short. */
  function TransferQuads(buf: seq<Byte>, interleaved: bool, packets: nat): seq<Quad<Word16>> {
    if packets == 0 || |buf| < IN_PACKET_SIZE then []
    else
      PacketQuads(buf[..IN_PACKET_SIZE], interleaved) + TransferQuads(buf[IN_PACKET_SIZE..], interleaved, packets - 1)
  }

  /** Per-channel calibration; entries 0-3 are channel A, 4-7 channel B. */
  datatype Calibration = Calibration(offset: seq<real>, gainP: seq<real>, gainN: seq<real>)
  {
    predicate Valid() {
      |offset| == |gainP| == |gainN| == 8
    }

    function OutVolts(channel: nat, val: real): real
      requires Valid() && channel < 2
    {
      (val - offset[channel * 4 + 2]) * gainP[channel * 4 + 2]
    }

    function OutAmps(channel: nat, val: real): real
      requires Valid() && channel < 2
    {
      var amps := val / 1000.0;
      (amps - offset[channel * 4 + 3]) * (if amps > 0.0 then gainP[channel * 4 + 3] else gainN[channel * 4 + 3])
    }
  }

  function ConvertVoltage(cal: Calibration, channel: nat, raw: Word16): real
    requires cal.Valid() && channel < 2
  {
    (raw as real * (5.0 / 65536.0) - cal.offset[channel * 4]) * cal.gainP[channel * 4]
  }

  function ConvertCurrent(cal: Calibration, channel: nat, raw: Word16): real
    requires cal.Valid() && channel < 2
  {
    var v := (raw as real * (0.4 / 65536.0) - 0.195) * 1.25;
    var g := if v > 0.0 then cal.gainP[channel * 4 + 1] else cal.gainN[channel * 4 + 1];
    (v - cal.offset[channel * 4 + 1]) * g * 1000.0
  }

  /** Raw counts to volts and milliamps, or the counts themselves in raw mode. */
  function Convert(cal: Calibration, rawMode: bool, q: Quad<Word16>): Quad<Sample>
    requires cal.Valid()
  {
    if rawMode then Quad(Num(q.av as real), Num(q.ai as real), Num(q.bv as real), Num(q.bi as real))
    else Quad(Num(ConvertVoltage(cal, 0, q.av)), Num(ConvertCurrent(cal, 0, q.ai)),
              Num(ConvertVoltage(cal, 1, q.bv)), Num(ConvertCurrent(cal, 1, q.bi)))
  }

  function ConvertAll(cal: Calibration, rawMode: bool, quads: seq<Quad<Word16>>): (r: seq<Quad<Sample>>)
    requires cal.Valid()
    ensures |r| == |quads| && forall i :: 0 <= i < |r| ==> r[i] == Convert(cal, rawMode, quads[i])
  {
    seq(|quads|, i requires 0 <= i < |quads| => Convert(cal, rawMode, quads[i]))
  }

  lemma ConvertNothing(cal: Calibration, rawMode: bool)
    requires cal.Valid()
    ensures ConvertAll(cal, rawMode, []) == []
  {
  }

  lemma ConvertJoin(cal: Calibration, rawMode: bool, a: seq<Quad<Word16>>, b: seq<Quad<Word16>>)
    requires cal.Valid()
    ensures ConvertAll(cal, rawMode, a + b) == ConvertAll(cal, rawMode, a) + ConvertAll(cal, rawMode, b)
  {
  }

  method HandlePacket(dev: Device, cal: Calibration, rawMode: bool, interleaved: bool, buf: seq<Byte>)
    requires dev.Valid() && dev.Settled() && TwoByTwo(dev) && cal.Valid() && |buf| == IN_PACKET_SIZE
    modifies dev`captureI, dev`history, dev`pending, dev.Repr - {dev}
    ensures dev.Valid() && dev.Settled() && TwoByTwo(dev)
    ensures dev.captureI == old(dev.captureI) + CHUNK_SIZE
    ensures Received(old(dev.history), dev.history, ConvertAll(cal, rawMode, PacketQuads(buf, interleaved)))
  {
    hide Agrees, Received, Calibration.Valid, Convert, InQuad;
    ghost var quads := ConvertAll(cal, rawMode, PacketQuads(buf, interleaved));
    ReceivedNothing(dev.history);
    for i := 0 to CHUNK_SIZE
      invariant dev.Valid() && dev.Settled() && TwoByTwo(dev)
      invariant dev.captureI == old(dev.captureI) + i
      invariant Received(old(dev.history), dev.history, quads[..i])
    {
      ghost var mid := dev.history;
      PutQuad(dev, Convert(cal, rawMode, InQuad(buf, interleaved, i)));
      ReceivedJoin(old(dev.history), mid, dev.history, quads[..i], [quads[i]]);
      assert quads[..i + 1] == quads[..i] + [quads[i]];
    }
    assert quads[..CHUNK_SIZE] == quads;
  }

  /** Appending the samples of packet p to those already taken from the buffer. */
  lemma NextPacket(buffer: seq<Byte>, interleaved: bool, packets: nat, p: nat, got: seq<Quad<Word16>>)
    requires p < packets && p * IN_PACKET_SIZE + IN_PACKET_SIZE <= |buffer|
    ensures got + TransferQuads(buffer[p * IN_PACKET_SIZE..], interleaved, packets - p)
         == got + PacketQuads(buffer[p * IN_PACKET_SIZE..p * IN_PACKET_SIZE + IN_PACKET_SIZE], interleaved)
            + TransferQuads(buffer[(p + 1) * IN_PACKET_SIZE..], interleaved, packets - (p + 1))
  {
    var rest := buffer[p * IN_PACKET_SIZE..];
    assert rest[..IN_PACKET_SIZE] == buffer[p * IN_PACKET_SIZE..p * IN_PACKET_SIZE + IN_PACKET_SIZE];
    assert rest[IN_PACKET_SIZE..] == buffer[(p + 1) * IN_PACKET_SIZE..];
  }

  /** One IN transfer: every complete packet's samples are appended to the streams. */
  method HandleInTransfer(dev: Device, cal: Calibration, rawMode: bool, interleaved: bool, packets: nat,
                          buffer: seq<Byte>)
    requires dev.Valid() && dev.Settled() && TwoByTwo(dev) && cal.Valid()
    modifies dev`captureI, dev`history, dev`pending, dev.Repr - {dev}
    ensures dev.Valid() && dev.Settled() && TwoByTwo(dev)
    ensures dev.captureI == old(dev.captureI) + |TransferQuads(buffer, interleaved, packets)|
    ensures Received(old(dev.history), dev.history,
                     ConvertAll(cal, rawMode, TransferQuads(buffer, interleaved, packets)))
  {
    hide Agrees, PacketQuads, Received, Calibration.Valid, ConvertAll;
    ghost var got: seq<Quad<Word16>> := [];
    ReceivedNothing(dev.history);
    ConvertNothing(cal, rawMode);
    var p := 0;
    while p < packets
      invariant 0 <= p <= packets && p * IN_PACKET_SIZE <= |buffer|
      invariant dev.Valid() && dev.Settled() && TwoByTwo(dev)
      invariant dev.captureI == old(dev.captureI) + |got|
      invariant TransferQuads(buffer, interleaved, packets)
             == got + TransferQuads(buffer[p * IN_PACKET_SIZE..], interleaved, packets - p)
      invariant Received(old(dev.history), dev.history, ConvertAll(cal, rawMode, got))
    {
      var base := p * IN_PACKET_SIZE;
      if base + IN_PACKET_SIZE > |buffer| {
        break;
      }
      var buf := buffer[base..base + IN_PACKET_SIZE];
      ghost var mid, quads := dev.history, PacketQuads(buf, interleaved);
      HandlePacket(dev, cal, rawMode, interleaved, buf);
      ReceivedJoin(old(dev.history), mid, dev.history, ConvertAll(cal, rawMode, got), ConvertAll(cal, rawMode, quads));
      ConvertJoin(cal, rawMode, got, quads);
      NextPacket(buffer, interleaved, packets, p, got);
      got := got + quads;
      p := p + 1;
    }
    assert TransferQuads(buffer[p * IN_PACKET_SIZE..], interleaved, packets - p) == [];
    assert got + [] == got;
  }

  /** A whole IN transfer of a running capture: store its samples, pause when they
      complete a finite capture, then re-anchor the output counter. The device counter
      stays a natural number: the correction never overshoots zero. */
  method InTransfer(dev: Device, tracker: R.LeadTracker, cal: Calibration, rawMode: bool, interleaved: bool,
                    packets: nat, buffer: seq<Byte>) returns (ends: bool)
    requires dev.Valid() && dev.Settled() && TwoByTwo(dev) && cal.Valid()
    requires (tracker as object) !in dev.Repr && R.Sound(tracker.State(dev.captureI, dev.captureO))
    modifies dev`captureI, dev`captureO, dev`history, dev`pending, dev.Repr - {dev}, tracker
    ensures dev.Valid() && dev.Settled() && TwoByTwo(dev)
    ensures Received(old(dev.history), dev.history,
                     ConvertAll(cal, rawMode, TransferQuads(buffer, interleaved, packets)))
    ensures ends <==> !dev.captureContinuous && dev.captureI >= dev.captureSamples
    ensures tracker.State(dev.captureI, dev.captureO)
         == R.AfterIn(old(tracker.State(dev.captureI, dev.captureO)), |TransferQuads(buffer, interleaved, packets)|,
                      ends)
    ensures R.Sound(tracker.State(dev.captureI, dev.captureO))
  {
    hide Agrees, Received, ConvertAll, TransferQuads, Calibration.Valid, R.Sound, R.Resync;
    ghost var before, n := tracker.State(dev.captureI, dev.captureO), |TransferQuads(buffer, interleaved, packets)|;
    HandleInTransfer(dev, cal, rawMode, interleaved, packets, buffer);
    ends := !dev.captureContinuous && dev.captureI >= dev.captureSamples;
    if ends {
      dev.captureO := dev.captureI;
    }
    R.SoundAfterIn(before, n, ends);
    R.SoundTracks(before);
    var o := tracker.AfterInTransfer(dev.captureI, dev.captureO);
    dev.captureO := o;
  }

  // ---- the two layouts carry the same samples ----

  function HighByte(x: Word16): Byte { x / 256 }

  function LowByte(x: Word16): Byte { x % 256 }

  function WordOf(q: Quad<Word16>, k: int): Word16 {
    if k == 0 then q.av else if k == 1 then q.ai else if k == 2 then q.bv else q.bi
  }

  /** The sample and word that byte j of a packet belongs to. */
  function Sent(interleaved: bool, j: nat): (r: (nat, nat))
    requires j < IN_PACKET_SIZE
    ensures r.0 < CHUNK_SIZE
  {
    if interleaved then (j / 8, j % 8 / 2) else (j / 2 % CHUNK_SIZE, j / 2 / CHUNK_SIZE)
  }

  /** A packet as firmware of either kind sends it. */
  function Pack(quads: seq<Quad<Word16>>, interleaved: bool): (b: seq<Byte>)
    requires |quads| == CHUNK_SIZE
    ensures |b| == IN_PACKET_SIZE
  {
    seq(IN_PACKET_SIZE, j requires 0 <= j < IN_PACKET_SIZE =>
      var (i, k) := Sent(interleaved, j);
      if j % 2 == 0 then HighByte(WordOf(quads[i], k)) else LowByte(WordOf(quads[i], k)))
  }

  /** The two bytes at the offset of word k of sample i. */
  lemma SentAt(interleaved: bool, i: nat, k: nat)
    requires i < CHUNK_SIZE && k < 4
    ensures var o := InOffset(interleaved, i, k);
            o + 1 < IN_PACKET_SIZE && o % 2 == 0 && (o + 1) % 2 == 1
            && Sent(interleaved, o) == (i, k) && Sent(interleaved, o + 1) == (i, k)
  {
    if interleaved {
      DivModUnique(i * 8 + k * 2, 8, i, k * 2);
      DivModUnique(i * 8 + k * 2 + 1, 8, i, k * 2 + 1);
    } else {
      DivModUnique(i + CHUNK_SIZE * k, CHUNK_SIZE, k, i);
    }
  }

  lemma PackedWord(quads: seq<Quad<Word16>>, interleaved: bool, i: nat, k: nat)
    requires |quads| == CHUNK_SIZE && i < CHUNK_SIZE && k < 4
    ensures InWord(Pack(quads, interleaved), interleaved, i, k) == WordOf(quads[i], k)
  {
    hide InOffset, Sent, WordOf;
    SentAt(interleaved, i, k);
  }

  /** Packing and decoding a packet is the identity in either layout. */
  lemma PacketRoundTrip(quads: seq<Quad<Word16>>, interleaved: bool)
    requires |quads| == CHUNK_SIZE
    ensures PacketQuads(Pack(quads, interleaved), interleaved) == quads
  {
    forall i | 0 <= i < CHUNK_SIZE
      ensures InQuad(Pack(quads, interleaved), interleaved, i) == quads[i]
    {
      PackedWord(quads, interleaved, i, 0);
      PackedWord(quads, interleaved, i, 1);
      PackedWord(quads, interleaved, i, 2);
      PackedWord(quads, interleaved, i, 3);
    }
  }

  type Chunk = q: seq<Quad<Word16>> | |q| == CHUNK_SIZE witness seq(CHUNK_SIZE, _ => Quad(0, 0, 0, 0))

  /** Several packets as one transfer of the given layout. */
  function PackAll(chunks: seq<Chunk>, interleaved: bool): seq<Byte> {
    if chunks == [] then [] else Pack(chunks[0], interleaved) + PackAll(chunks[1..], interleaved)
  }

  function Flatten(chunks: seq<Chunk>): seq<Quad<Word16>> {
    if chunks == [] then [] else chunks[0] + Flatten(chunks[1..])
  }

  /** A whole transfer round-trips in either layout, so old and new firmware sending
      the same samples give every stream the same contents. */
  lemma {:induction false} LayoutsAgree(chunks: seq<Chunk>, interleaved: bool)
    ensures TransferQuads(PackAll(chunks, interleaved), interleaved, |chunks|) == Flatten(chunks)
  {
    hide Pack, PacketQuads;
    if chunks != [] {
      var first, rest := Pack(chunks[0], interleaved), PackAll(chunks[1..], interleaved);
      PacketRoundTrip(chunks[0], interleaved);
      LayoutsAgree(chunks[1..], interleaved);
      assert (first + rest)[..IN_PACKET_SIZE] == first && (first + rest)[IN_PACKET_SIZE..] == rest;
    }
  }

  // ---- OUT transfers ----

  const SVMI: nat := 1
  const SIMV: nat := 2
  const SVMI_SPLIT: nat := 4
  const SIMV_SPLIT: nat := 5

  /** A source value as a 16-bit DAC code. */
  function EncodeOut(mode: nat, cal: Calibration, rawMode: bool, channel: nat, val: real): Word16
    requires cal.Valid() && channel < 2
  {
    if rawMode then Clamp(val, 0.0, 65535.0).Floor
    else
      var v :=
        if mode == SVMI || mode == SVMI_SPLIT then
          Trunc(Clamp(cal.OutVolts(channel, val), 0.0, 5.0) * (65536.0 / 5.0))
        else if mode == SIMV || mode == SIMV_SPLIT then
          Trunc(65536.0 * (0.4 + 1.6 * Clamp(cal.OutAmps(channel, val), -0.2, 0.2)))
        else 26214;
      Max(0, Min(65535, v))
  }

  /** An ideally calibrated channel reads back a sourced voltage to within one count,
      from below, over the whole output range. */
  lemma SourcedVoltageReadsBack(cal: Calibration, channel: nat, split: bool, volts: real)
    requires cal.Valid() && channel < 2 && 0.0 <= volts <= 5.0
    requires cal.offset[channel * 4] == cal.offset[channel * 4 + 2] == 0.0
    requires cal.gainP[channel * 4] == cal.gainP[channel * 4 + 2] == 1.0
    ensures var code := EncodeOut(if split then SVMI_SPLIT else SVMI, cal, false, channel, volts);
            var seen := ConvertVoltage(cal, channel, code);
            volts - 5.0 / 65536.0 <= seen <= volts
  {
  }

  /** How a channel's source values are encoded. */
  datatype Encoding = Encoding(cal: Calibration, rawMode: bool, mode: nat, channel: nat)
  {
    predicate Valid() { cal.Valid() && channel < 2 }

    function Code(val: real): Word16
      requires Valid()
    {
      EncodeOut(mode, cal, rawMode, channel, val)
    }

    function Codes(vals: seq<real>): (r: seq<Word16>)
      requires Valid()
      ensures |r| == |vals| && forall i :: 0 <= i < |r| ==> r[i] == Code(vals[i])
    {
      seq(|vals|, i requires 0 <= i < |vals| => Code(vals[i]))
    }
  }

  function OutOffset(interleaved: bool, i: nat, channel: nat): nat {
    if interleaved then i * 4 + channel * 2 else (i + CHUNK_SIZE * channel) * 2
  }

  /** Word of sample i and channel of the packet starting at `pkt`. */
  function OutWord(buf: seq<Byte>, pkt: nat, interleaved: bool, i: nat, channel: nat): Word16
    requires pkt + OUT_PACKET_SIZE <= |buf| && i < CHUNK_SIZE && channel < 2
  {
    BigEndian(buf[pkt + OutOffset(interleaved, i, channel)], buf[pkt + OutOffset(interleaved, i, channel) + 1])
  }

  /** A channel's samples in the packet starting at `pkt`, as the device reads them. */
  function PacketWords(buf: seq<Byte>, pkt: nat, interleaved: bool, channel: nat): (r: seq<Word16>)
    requires pkt + OUT_PACKET_SIZE <= |buf| && channel < 2
    ensures |r| == CHUNK_SIZE && forall i :: 0 <= i < CHUNK_SIZE ==> r[i] == OutWord(buf, pkt, interleaved, i, channel)
  {
    seq(CHUNK_SIZE, i requires 0 <= i < CHUNK_SIZE => OutWord(buf, pkt, interleaved, i, channel))
  }

  /** A channel's samples in the first `packets` packets of a transfer. */
  function TransferWords(buf: seq<Byte>, packets: nat, interleaved: bool, channel: nat): seq<Word16>
    requires packets * OUT_PACKET_SIZE <= |buf| && channel < 2
  {
    if packets == 0 then []
    else TransferWords(buf, packets - 1, interleaved, channel)
         + PacketWords(buf, (packets - 1) * OUT_PACKET_SIZE, interleaved, channel)
  }

  lemma {:induction false} EarlierPackets(a: seq<Byte>, b: seq<Byte>, packets: nat, interleaved: bool, channel: nat)
    requires packets * OUT_PACKET_SIZE <= |a| == |b| && channel < 2
    requires a[..packets * OUT_PACKET_SIZE] == b[..packets * OUT_PACKET_SIZE]
    ensures TransferWords(a, packets, interleaved, channel) == TransferWords(b, packets, interleaved, channel)
  {
    if packets > 0 {
      var pkt := (packets - 1) * OUT_PACKET_SIZE;
      assert a[..pkt] == a[..packets * OUT_PACKET_SIZE][..pkt] && b[..pkt] == b[..packets * OUT_PACKET_SIZE][..pkt];
      EarlierPackets(a, b, packets - 1, interleaved, channel);
      forall j | pkt <= j < pkt + OUT_PACKET_SIZE
        ensures a[j] == b[j]
      {
        assert a[j] == a[..packets * OUT_PACKET_SIZE][j];
      }
      assert PacketWords(a, pkt, interleaved, channel) == PacketWords(b, pkt, interleaved, channel);
    }
  }

  /** The packet at pkt starts with samples `words` of a channel. */
  ghost predicate Holds(buf: seq<Byte>, pkt: nat, interleaved: bool, channel: nat, words: seq<Word16>)
    requires pkt + OUT_PACKET_SIZE <= |buf| && channel < 2 && |words| <= CHUNK_SIZE
  {
    forall i :: 0 <= i < |words| ==> OutWord(buf, pkt, interleaved, i, channel) == words[i]
  }

  lemma HoldsNothing(buf: seq<Byte>, pkt: nat, interleaved: bool, channel: nat, words: seq<Word16>)
    requires pkt + OUT_PACKET_SIZE <= |buf| && channel < 2
    ensures Holds(buf, pkt, interleaved, channel, words[..0])
  {
  }

  lemma HoldsNext(x: seq<Byte>, y: seq<Byte>, pkt: nat, interleaved: bool, channel: nat, words: seq<Word16>, i: nat)
    requires pkt + OUT_PACKET_SIZE <= |x| && pkt + OUT_PACKET_SIZE <= |y| && channel < 2
    requires i < |words| <= CHUNK_SIZE && Holds(x, pkt, interleaved, channel, words[..i])
    requires forall j :: 0 <= j < i ==>
               OutWord(y, pkt, interleaved, j, channel) == OutWord(x, pkt, interleaved, j, channel)
    requires OutWord(y, pkt, interleaved, i, channel) == words[i]
    ensures Holds(y, pkt, interleaved, channel, words[..i + 1])
  {
    hide OutWord;
  }

  lemma HoldsAll(buf: seq<Byte>, pkt: nat, interleaved: bool, channel: nat, words: seq<Word16>)
    requires pkt + OUT_PACKET_SIZE <= |buf| && channel < 2 && |words| == CHUNK_SIZE
    requires Holds(buf, pkt, interleaved, channel, words[..CHUNK_SIZE])
    ensures PacketWords(buf, pkt, interleaved, channel) == words
  {
    hide OutWord;
    assert words[..CHUNK_SIZE] == words;
  }

  method PutWord(buf: array<Byte>, pkt: nat, interleaved: bool, i: nat, channel: nat, w: Word16)
    requires pkt + OUT_PACKET_SIZE <= buf.Length && i < CHUNK_SIZE && channel < 2
    modifies buf
    ensures OutWord(buf[..], pkt, interleaved, i, channel) == w
    ensures forall j, c :: 0 <= j < CHUNK_SIZE && 0 <= c < 2 && (j, c) != (i, channel) ==>
              OutWord(buf[..], pkt, interleaved, j, c) == OutWord(old(buf[..]), pkt, interleaved, j, c)
    ensures buf[..pkt] == old(buf[..pkt])
  {
    var at := pkt + OutOffset(interleaved, i, channel);
    buf[at] := HighByte(w);
    buf[at + 1] := LowByte(w);
  }

  /** Encode the next CHUNK_SIZE values of both sources into the packet at `pkt`. */
  method FillPacket(buf: array<Byte>, pkt: nat, interleaved: bool, a: OutputSource, b: OutputSource,
                    ea: Encoding, eb: Encoding, o: nat, sinTurns: real -> real)
    requires pkt + OUT_PACKET_SIZE <= buf.Length && ea.Valid() && eb.Valid()
    requires a != b && a.Valid() && b.Valid() && a.lastQuery <= o && b.lastQuery <= o
    modifies buf, a`kind, a`passesDone, a`lastQuery, b`kind, b`passesDone, b`lastQuery
    ensures a.Valid() && b.Valid() && a.lastQuery < o + CHUNK_SIZE && b.lastQuery < o + CHUNK_SIZE
    ensures forall n: nat :: a.ValueAt(n, sinTurns) == old(a.ValueAt(n, sinTurns))
    ensures forall n: nat :: b.ValueAt(n, sinTurns) == old(b.ValueAt(n, sinTurns))
    ensures PacketWords(buf[..], pkt, interleaved, 0) == ea.Codes(old(Waveform(a, o, CHUNK_SIZE, sinTurns)))
    ensures PacketWords(buf[..], pkt, interleaved, 1) == eb.Codes(old(Waveform(b, o, CHUNK_SIZE, sinTurns)))
    ensures buf[..pkt] == old(buf[..pkt])
  {
    hide OutWord, PacketWords, Holds, EncodeOut, Encoding.Valid, OutputSource.Valid, OutputSource.ValueAt;
    ghost var wordsA := ea.Codes(Waveform(a, o, CHUNK_SIZE, sinTurns));
    ghost var wordsB := eb.Codes(Waveform(b, o, CHUNK_SIZE, sinTurns));
    HoldsNothing(buf[..], pkt, interleaved, 0, wordsA);
    HoldsNothing(buf[..], pkt, interleaved, 1, wordsB);
    for i := 0 to CHUNK_SIZE
      invariant a.Valid() && b.Valid() && a.lastQuery <= o + i && b.lastQuery <= o + i
      invariant i == CHUNK_SIZE ==> a.lastQuery < o + i && b.lastQuery < o + i
      invariant forall n: nat :: a.ValueAt(n, sinTurns) == old(a.ValueAt(n, sinTurns))
      invariant forall n: nat :: b.ValueAt(n, sinTurns) == old(b.ValueAt(n, sinTurns))
      invariant Holds(buf[..], pkt, interleaved, 0, wordsA[..i]) && Holds(buf[..], pkt, interleaved, 1, wordsB[..i])
      invariant buf[..pkt] == old(buf[..pkt])
    {
      ghost var before := buf[..];
      var av := a.GetValue(o + i, sinTurns);
      var bv := b.GetValue(o + i, sinTurns);
      PutWord(buf, pkt, interleaved, i, 0, ea.Code(av));
      PutWord(buf, pkt, interleaved, i, 1, eb.Code(bv));
      HoldsNext(before, buf[..], pkt, interleaved, 0, wordsA, i);
      HoldsNext(before, buf[..], pkt, interleaved, 1, wordsB, i);
    }
    HoldsAll(buf[..], pkt, interleaved, 0, wordsA);
    HoldsAll(buf[..], pkt, interleaved, 1, wordsB);
  }

  lemma CodesJoin(e: Encoding, x: seq<real>, y: seq<real>)
    requires e.Valid()
    ensures e.Codes(x + y) == e.Codes(x) + e.Codes(y)
  {
  }

  /** Encode the next packet after p packets that carry `sentA` and `sentB`. */
  method AppendPacket(buf: array<Byte>, p: nat, interleaved: bool, a: OutputSource, b: OutputSource,
                      ea: Encoding, eb: Encoding, o: nat, sinTurns: real -> real,
                      ghost sentA: seq<real>, ghost sentB: seq<real>)
    requires (p + 1) * OUT_PACKET_SIZE <= buf.Length && ea.Valid() && eb.Valid()
    requires a != b && a.Valid() && b.Valid() && a.lastQuery <= o && b.lastQuery <= o
    requires TransferWords(buf[..], p, interleaved, 0) == ea.Codes(sentA)
    requires TransferWords(buf[..], p, interleaved, 1) == eb.Codes(sentB)
    modifies buf, a`kind, a`passesDone, a`lastQuery, b`kind, b`passesDone, b`lastQuery
    ensures a.Valid() && b.Valid() && a.lastQuery < o + CHUNK_SIZE && b.lastQuery < o + CHUNK_SIZE
    ensures forall n: nat :: a.ValueAt(n, sinTurns) == old(a.ValueAt(n, sinTurns))
    ensures forall n: nat :: b.ValueAt(n, sinTurns) == old(b.ValueAt(n, sinTurns))
    ensures TransferWords(buf[..], p + 1, interleaved, 0) == ea.Codes(sentA + old(Waveform(a, o, CHUNK_SIZE, sinTurns)))
    ensures TransferWords(buf[..], p + 1, interleaved, 1) == eb.Codes(sentB + old(Waveform(b, o, CHUNK_SIZE, sinTurns)))
  {
    hide PacketWords, Encoding.Codes, Encoding.Valid, Waveform, OutputSource.Valid, OutputSource.ValueAt;
    ghost var before := buf[..];
    ghost var nextA, nextB := Waveform(a, o, CHUNK_SIZE, sinTurns), Waveform(b, o, CHUNK_SIZE, sinTurns);
    FillPacket(buf, p * OUT_PACKET_SIZE, interleaved, a, b, ea, eb, o, sinTurns);
    EarlierPackets(before, buf[..], p, interleaved, 0);
    EarlierPackets(before, buf[..], p, interleaved, 1);
    CodesJoin(ea, sentA, nextA);
    CodesJoin(eb, sentB, nextB);
  }

  lemma NothingFilled(buf: seq<Byte>, interleaved: bool, ea: Encoding, eb: Encoding)
    requires ea.Valid() && eb.Valid()
    ensures TransferWords(buf, 0, interleaved, 0) == ea.Codes([])
    ensures TransferWords(buf, 0, interleaved, 1) == eb.Codes([])
  {
  }

  /** Encode `packets` packets from the output counter on. */
  method FillFromSources(dev: Device, buf: array<Byte>, packets: nat, interleaved: bool, a: OutputSource,
                         b: OutputSource, ea: Encoding, eb: Encoding, sinTurns: real -> real)
    requires buf.Length == packets * OUT_PACKET_SIZE && ea.Valid() && eb.Valid()
    requires a != b && a.Valid() && b.Valid() && a.lastQuery <= dev.captureO && b.lastQuery <= dev.captureO
    modifies buf, dev`captureO, a`kind, a`passesDone, a`lastQuery, b`kind, b`passesDone, b`lastQuery
    ensures dev.captureO == old(dev.captureO) + packets * CHUNK_SIZE
    ensures a.Valid() && b.Valid() && a.lastQuery <= dev.captureO && b.lastQuery <= dev.captureO
    ensures forall n: nat :: a.ValueAt(n, sinTurns) == old(a.ValueAt(n, sinTurns))
    ensures forall n: nat :: b.ValueAt(n, sinTurns) == old(b.ValueAt(n, sinTurns))
    ensures TransferWords(buf[..], packets, interleaved, 0)
         == ea.Codes(old(Waveform(a, dev.captureO, packets * CHUNK_SIZE, sinTurns)))
    ensures TransferWords(buf[..], packets, interleaved, 1)
         == eb.Codes(old(Waveform(b, dev.captureO, packets * CHUNK_SIZE, sinTurns)))
  {
    hide TransferWords, Encoding.Codes, Encoding.Valid, OutputSource.Valid, OutputSource.ValueAt;
    var o := dev.captureO;
    ghost var sentA: seq<real>, sentB: seq<real> := [], [];
    NothingFilled(buf[..], interleaved, ea, eb);
    for p := 0 to packets
      invariant o == dev.captureO + p * CHUNK_SIZE && dev.captureO == old(dev.captureO)
      invariant a.Valid() && b.Valid() && a.lastQuery <= o && b.lastQuery <= o
      invariant forall n: nat :: a.ValueAt(n, sinTurns) == old(a.ValueAt(n, sinTurns))
      invariant forall n: nat :: b.ValueAt(n, sinTurns) == old(b.ValueAt(n, sinTurns))
      invariant sentA == old(Waveform(a, dev.captureO, p * CHUNK_SIZE, sinTurns))
      invariant sentB == old(Waveform(b, dev.captureO, p * CHUNK_SIZE, sinTurns))
      invariant TransferWords(buf[..], p, interleaved, 0) == ea.Codes(sentA)
      invariant TransferWords(buf[..], p, interleaved, 1) == eb.Codes(sentB)
    {
      ghost var nextA, nextB := Waveform(a, o, CHUNK_SIZE, sinTurns), Waveform(b, o, CHUNK_SIZE, sinTurns);
      AppendPacket(buf, p, interleaved, a, b, ea, eb, o, sinTurns, sentA, sentB);
      sentA, sentB := sentA + nextA, sentB + nextB;
      o := o + CHUNK_SIZE;
    }
    dev.captureO := o;
  }

  /** One OUT transfer. With a source on each channel it carries both waveforms from
      the output counter on, which advances past them; otherwise it is all zero. */
  method FillOutTransfer(dev: Device, packets: nat, interleaved: bool, a: OutputSource?, b: OutputSource?,
                         ea: Encoding, eb: Encoding, sinTurns: real -> real) returns (buf: array<Byte>)
    requires ea.Valid() && eb.Valid()
    requires a != null && b != null ==>
               a != b && a.Valid() && b.Valid() && a.lastQuery <= dev.captureO && b.lastQuery <= dev.captureO
    modifies dev`captureO, Present(a, b)`kind, Present(a, b)`passesDone, Present(a, b)`lastQuery
    ensures fresh(buf) && buf.Length == packets * OUT_PACKET_SIZE
    ensures a == null || b == null ==>
              dev.captureO == old(dev.captureO) && forall j :: 0 <= j < buf.Length ==> buf[j] == 0
    ensures a != null && b != null ==>
              && dev.captureO == old(dev.captureO) + packets * CHUNK_SIZE
              && a.Valid() && b.Valid() && a.lastQuery <= dev.captureO && b.lastQuery <= dev.captureO
              && (forall n: nat :: a.ValueAt(n, sinTurns) == old(a.ValueAt(n, sinTurns)))
              && (forall n: nat :: b.ValueAt(n, sinTurns) == old(b.ValueAt(n, sinTurns)))
              && TransferWords(buf[..], packets, interleaved, 0)
                 == ea.Codes(old(Waveform(a, dev.captureO, packets * CHUNK_SIZE, sinTurns)))
              && TransferWords(buf[..], packets, interleaved, 1)
                 == eb.Codes(old(Waveform(b, dev.captureO, packets * CHUNK_SIZE, sinTurns)))
  {
    hide TransferWords, Encoding.Codes, Waveform, Encoding.Valid, OutputSource.Valid, OutputSource.ValueAt;
    buf := new Byte[packets * OUT_PACKET_SIZE](_ => 0);
    if a != null && b != null {
      FillFromSources(dev, buf, packets, interleaved, a, b, ea, eb, sinTurns);
    }
  }

  const N_TRANSFERS: nat := 2

  ghost predicate Sized(transfers: seq<seq<Byte>>, packets: nat) {
    forall t :: 0 <= t < |transfers| ==> |transfers[t]| == packets * OUT_PACKET_SIZE
  }

  /** A channel's samples in a sequence of transfers. */
  ghost function StreamWords(transfers: seq<seq<Byte>>, packets: nat, interleaved: bool, channel: nat): seq<Word16>
    requires channel < 2 && Sized(transfers, packets)
  {
    if transfers == [] then []
    else StreamWords(transfers[..|transfers| - 1], packets, interleaved, channel)
         + TransferWords(transfers[|transfers| - 1], packets, interleaved, channel)
  }

  /** Samples in a number of transfers. */
  function Covered(packets: nat, transfers: nat): nat {
    transfers * (packets * CHUNK_SIZE)
  }

  lemma CoveredNone(packets: nat)
    ensures Covered(packets, 0) == 0
  {
  }

  lemma CoveredNext(packets: nat, transfers: nat)
    ensures Covered(packets, transfers + 1) == Covered(packets, transfers) + packets * CHUNK_SIZE
  {
  }

  lemma NothingSent(packets: nat, interleaved: bool, ea: Encoding, eb: Encoding)
    requires ea.Valid() && eb.Valid()
    ensures Sized([], packets)
    ensures StreamWords([], packets, interleaved, 0) == ea.Codes([])
    ensures StreamWords([], packets, interleaved, 1) == eb.Codes([])
  {
  }

  lemma OneMoreSent(sent: seq<seq<Byte>>, buf: seq<Byte>, packets: nat, interleaved: bool)
    requires Sized(sent, packets) && |buf| == packets * OUT_PACKET_SIZE
    ensures Sized(sent + [buf], packets)
    ensures forall c :: 0 <= c < 2 ==>
              StreamWords(sent + [buf], packets, interleaved, c)
              == StreamWords(sent, packets, interleaved, c) + TransferWords(buf, packets, interleaved, c)
  {
    assert (sent + [buf])[..|sent|] == sent;
  }

  /** Submit the transfer that follows those of `sent`, which carry `sentA` and `sentB`. */
  method SendNext(dev: Device, packets: nat, interleaved: bool, a: OutputSource, b: OutputSource,
                  ea: Encoding, eb: Encoding, sinTurns: real -> real, sent: seq<seq<Byte>>,
                  ghost sentA: seq<real>, ghost sentB: seq<real>) returns (next: seq<seq<Byte>>)
    requires ea.Valid() && eb.Valid() && Sized(sent, packets)
    requires a != b && a.Valid() && b.Valid() && a.lastQuery <= dev.captureO && b.lastQuery <= dev.captureO
    requires StreamWords(sent, packets, interleaved, 0) == ea.Codes(sentA)
    requires StreamWords(sent, packets, interleaved, 1) == eb.Codes(sentB)
    modifies dev`captureO, a`kind, a`passesDone, a`lastQuery, b`kind, b`passesDone, b`lastQuery
    ensures |next| == |sent| + 1 && Sized(next, packets)
    ensures dev.captureO == old(dev.captureO) + packets * CHUNK_SIZE
    ensures a.Valid() && b.Valid() && a.lastQuery <= dev.captureO && b.lastQuery <= dev.captureO
    ensures forall n: nat :: a.ValueAt(n, sinTurns) == old(a.ValueAt(n, sinTurns))
    ensures forall n: nat :: b.ValueAt(n, sinTurns) == old(b.ValueAt(n, sinTurns))
    ensures StreamWords(next, packets, interleaved, 0)
         == ea.Codes(sentA + old(Waveform(a, dev.captureO, packets * CHUNK_SIZE, sinTurns)))
    ensures StreamWords(next, packets, interleaved, 1)
         == eb.Codes(sentB + old(Waveform(b, dev.captureO, packets * CHUNK_SIZE, sinTurns)))
  {
    hide TransferWords, StreamWords, Sized, Waveform;
    hide Encoding.Codes, Encoding.Valid, OutputSource.Valid, OutputSource.ValueAt;
    CodesJoin(ea, sentA, Waveform(a, dev.captureO, packets * CHUNK_SIZE, sinTurns));
    CodesJoin(eb, sentB, Waveform(b, dev.captureO, packets * CHUNK_SIZE, sinTurns));
    var buf := FillOutTransfer(dev, packets, interleaved, a, b, ea, eb, sinTurns);
    OneMoreSent(sent, buf[..], packets, interleaved);
    next := sent + [buf[..]];
  }

  /** The OUT pipeline over `completions` completed transfers: N_TRANSFERS are queued at
      once, then one more for every completion while the capture needs samples. The
      transfers decode to both waveforms at consecutive sample numbers, without gap or
      repeat, and stop only when they cover a finite capture. */
  method OutPipeline(dev: Device, packets: nat, interleaved: bool, a: OutputSource, b: OutputSource,
                     ea: Encoding, eb: Encoding, sinTurns: real -> real, completions: nat)
    returns (sent: seq<seq<Byte>>)
    requires ea.Valid() && eb.Valid()
    requires a != b && a.Valid() && b.Valid() && a.lastQuery <= dev.captureO && b.lastQuery <= dev.captureO
    modifies dev`captureO, a`kind, a`passesDone, a`lastQuery, b`kind, b`passesDone, b`lastQuery
    ensures Sized(sent, packets) && N_TRANSFERS <= |sent| <= N_TRANSFERS + completions
    ensures |sent| < N_TRANSFERS + completions ==>
              !dev.captureContinuous && Covered(packets, |sent|) >= dev.captureSamples
    ensures |sent| > N_TRANSFERS ==> dev.captureContinuous || Covered(packets, |sent| - 1) < dev.captureSamples
    ensures dev.captureO == old(dev.captureO) + Covered(packets, |sent|)
    ensures StreamWords(sent, packets, interleaved, 0)
         == ea.Codes(old(Waveform(a, dev.captureO, Covered(packets, |sent|), sinTurns)))
    ensures StreamWords(sent, packets, interleaved, 1)
         == eb.Codes(old(Waveform(b, dev.captureO, Covered(packets, |sent|), sinTurns)))
  {
    hide Covered, StreamWords, Sized, Encoding.Codes, Encoding.Valid, OutputSource.Valid, OutputSource.ValueAt;
    CoveredNone(packets);
    NothingSent(packets, interleaved, ea, eb);
    ghost var sentA: seq<real>, sentB: seq<real> := [], [];
    sent := [];
    while |sent| < N_TRANSFERS + completions
      invariant |sent| <= N_TRANSFERS + completions && Sized(sent, packets)
      invariant |sent| > N_TRANSFERS ==> dev.captureContinuous || Covered(packets, |sent| - 1) < dev.captureSamples
      invariant dev.captureO == old(dev.captureO) + Covered(packets, |sent|)
      invariant a.Valid() && b.Valid() && a.lastQuery <= dev.captureO && b.lastQuery <= dev.captureO
      invariant forall n: nat :: a.ValueAt(n, sinTurns) == old(a.ValueAt(n, sinTurns))
      invariant forall n: nat :: b.ValueAt(n, sinTurns) == old(b.ValueAt(n, sinTurns))
      invariant sentA == old(Waveform(a, dev.captureO, Covered(packets, |sent|), sinTurns))
      invariant sentB == old(Waveform(b, dev.captureO, Covered(packets, |sent|), sinTurns))
      invariant StreamWords(sent, packets, interleaved, 0) == ea.Codes(sentA)
      invariant StreamWords(sent, packets, interleaved, 1) == eb.Codes(sentB)
    {
      if |sent| >= N_TRANSFERS && !dev.captureContinuous && Covered(packets, |sent|) >= dev.captureSamples {
        break;
      }
      CoveredNext(packets, |sent|);
      ghost var nextA := Waveform(a, dev.captureO, packets * CHUNK_SIZE, sinTurns);
      ghost var nextB := Waveform(b, dev.captureO, packets * CHUNK_SIZE, sinTurns);
      sent := SendNext(dev, packets, interleaved, a, b, ea, eb, sinTurns, sent, sentA, sentB);
      sentA, sentB := sentA + nextA, sentB + nextB;
    }
  }
}
