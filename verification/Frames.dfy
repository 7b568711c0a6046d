/** The two WebSocket renderings of a listener update (src/listener.rs): the binary
    frame, little-endian throughout, and the JSON object. The 32-bit pattern of a
    float is a parameter `bits` of the encoding. */
module Frames {
  import opened Common
  import opened Samples
  import opened ListenerModel

  type Byte = x: int | 0 <= x < 256
  type Word32 = x: int | 0 <= x < 0x1_0000_0000

  const HEADER: nat := 24

  function Pow256(n: nat): (p: nat)
    ensures p > 0
  {
    if n == 0 then 1 else 256 * Pow256(n - 1)
  }

  lemma Pow256Values()
    ensures Pow256(1) == 0x100 && Pow256(2) == 0x1_0000 && Pow256(4) == 0x1_0000_0000
  {
    assert Pow256(3) == 0x100_0000;
  }

  /** The low `width` bytes of x, least significant first: what an integer cast
      followed by a little-endian dump produces, for negative x as well. */
  function LittleEndian(x: int, width: nat): (b: seq<Byte>)
    ensures |b| == width
    decreases width
  {
    if width == 0 then [] else [x % 256] + LittleEndian(x / 256, width - 1)
  }

  function FromLittleEndian(b: seq<Byte>): nat {
    if b == [] then 0 else b[0] + 256 * FromLittleEndian(b[1..])
  }

  /** Reading back gives the value modulo the field width. */
  lemma {:induction false} LittleEndianRoundTrip(x: int, width: nat)
    ensures FromLittleEndian(LittleEndian(x, width)) == x % Pow256(width)
    decreases width
  {
    if width > 0 {
      var b := LittleEndian(x, width);
      assert b[1..] == LittleEndian(x / 256, width - 1);
      LittleEndianRoundTrip(x / 256, width - 1);
      SplitLowByte(x, Pow256(width - 1));
    }
  }

  lemma SplitLowByte(x: int, p: int)
    requires p > 0
    ensures x % (256 * p) == x % 256 + 256 * (x / 256 % p)
  {
    var q := x / 256 / p;
    assert x / 256 == q * p + x / 256 % p;
    assert x == q * (256 * p) + (x % 256 + 256 * (x / 256 % p));
    DivModUnique(x, 256 * p, q, x % 256 + 256 * (x / 256 % p));
  }

  const HALF: nat := 2
  const WORD: nat := 4

  /** A 16-bit field. */
  function Half(x: int): (b: seq<Byte>)
    ensures |b| == 2 && FromLittleEndian(b) == x % 0x1_0000
  {
    LittleEndianRoundTrip(x, HALF);
    Pow256Values();
    LittleEndian(x, HALF)
  }

  /** A 32-bit field. */
  function Word(x: int): (b: seq<Byte>)
    ensures |b| == 4 && FromLittleEndian(b) == x % 0x1_0000_0000
  {
    LittleEndianRoundTrip(x, WORD);
    Pow256Values();
    LittleEndian(x, WORD)
  }

  // ---- encoding ----

  /** The done, forced and subsample-valid bits. */
  function Flags(f: Frame): Byte {
    (if f.done then 1 else 0) + (if f.forced then 2 else 0) + (if f.triggered then 4 else 0)
  }

  function Header(cfg: Config, f: Frame, bits: Sample -> Word32): (b: seq<Byte>)
    ensures |b| == HEADER
  {
    [1, Flags(f)] + Half(|f.data|) + Word(cfg.id) + Word(f.idx)
    + Word(f.sampleIndex) + Word(bits(Num(f.subsample))) + Word(f.nchunks)
  }

  function StreamBytes(s: seq<Sample>, bits: Sample -> Word32): (b: seq<Byte>)
    ensures |b| == 4 * |s|
  {
    if s == [] then [] else StreamBytes(s[..|s| - 1], bits) + Word(bits(s[|s| - 1]))
  }

  function DataBytes(data: seq<seq<Sample>>, bits: Sample -> Word32): (b: seq<Byte>) {
    if data == [] then [] else DataBytes(data[..|data| - 1], bits) + StreamBytes(data[|data| - 1], bits)
  }

  function Encode(cfg: Config, f: Frame, bits: Sample -> Word32): seq<Byte> {
    Header(cfg, f, bits) + DataBytes(f.data, bits)
  }

  lemma StreamBytesSnoc(s: seq<Sample>, k: nat, bits: Sample -> Word32)
    requires k < |s|
    ensures StreamBytes(s[..k + 1], bits) == StreamBytes(s[..k], bits) + Word(bits(s[k]))
  {
    assert s[..k + 1][..k] == s[..k];
  }

  lemma DataBytesSnoc(data: seq<seq<Sample>>, x: nat, bits: Sample -> Word32)
    requires x < |data|
    ensures DataBytes(data[..x + 1], bits) == DataBytes(data[..x], bits) + StreamBytes(data[x], bits)
  {
    assert data[..x + 1][..x] == data[..x];
  }

  lemma {:induction false} DataBytesSize(data: seq<seq<Sample>>, n: nat, bits: Sample -> Word32)
    requires forall x :: 0 <= x < |data| ==> |data[x]| == n
    ensures |DataBytes(data, bits)| == |data| * n * 4
  {
    if data != [] {
      DataBytesSize(data[..|data| - 1], n, bits);
      assert |data| * n == (|data| - 1) * n + n;
    }
  }

  // ---- decoding by the documented layout ----

  datatype Decoded = Decoded(kind: Byte, flags: Byte, nstreams: nat, id: nat, idx: nat, sampleIndex: nat,
                             subsample: nat, nchunks: nat, data: seq<seq<nat>>)

  function DecodeWords(b: seq<Byte>, n: nat): seq<nat>
    requires |b| >= 4 * n
  {
    if n == 0 then [] else [FromLittleEndian(b[..4])] + DecodeWords(b[4..], n - 1)
  }

  function DecodeData(b: seq<Byte>, nstreams: nat, n: nat): Option<seq<seq<nat>>> {
    if nstreams == 0 then Some([])
    else if |b| < 4 * n then None
    else match DecodeData(b[4 * n..], nstreams - 1, n)
      case None => None
      case Some(rest) => Some([DecodeWords(b, n)] + rest)
  }

  function Decode(b: seq<Byte>): Option<Decoded> {
    if |b| < HEADER then None
    else
      var nstreams, nchunks := FromLittleEndian(b[2..4]), FromLittleEndian(b[20..24]);
      match DecodeData(b[24..], nstreams, nchunks)
      case None => None
      case Some(data) =>
        Some(Decoded(b[0], b[1], nstreams, FromLittleEndian(b[4..8]), FromLittleEndian(b[8..12]),
                     FromLittleEndian(b[12..16]), FromLittleEndian(b[16..20]), nchunks, data))
  }

  function Words(s: seq<Sample>, bits: Sample -> Word32): (w: seq<nat>)
    ensures |w| == |s| && forall k :: 0 <= k < |s| ==> w[k] == bits(s[k])
  {
    seq(|s|, k requires 0 <= k < |s| => bits(s[k]))
  }

  function Matrix(data: seq<seq<Sample>>, bits: Sample -> Word32): (m: seq<seq<nat>>)
    ensures |m| == |data| && forall x :: 0 <= x < |data| ==> m[x] == Words(data[x], bits)
  {
    seq(|data|, x requires 0 <= x < |data| => Words(data[x], bits))
  }

  lemma {:induction false} StreamBytesCons(s: seq<Sample>, bits: Sample -> Word32)
    requires s != []
    ensures StreamBytes(s, bits) == Word(bits(s[0])) + StreamBytes(s[1..], bits)
  {
    hide Word, FromLittleEndian;
    if |s| > 1 {
      StreamBytesCons(s[..|s| - 1], bits);
      assert s[..|s| - 1][1..] == s[1..][..|s| - 2];
    }
  }

  lemma {:induction false} DataBytesCons(data: seq<seq<Sample>>, bits: Sample -> Word32)
    requires data != []
    ensures DataBytes(data, bits) == StreamBytes(data[0], bits) + DataBytes(data[1..], bits)
  {
    hide StreamBytes, FromLittleEndian;
    if |data| > 1 {
      DataBytesCons(data[..|data| - 1], bits);
      assert data[..|data| - 1][1..] == data[1..][..|data| - 2];
    }
  }

  lemma {:induction false} WordsRoundTrip(s: seq<Sample>, tail: seq<Byte>, bits: Sample -> Word32)
    ensures DecodeWords(StreamBytes(s, bits) + tail, |s|) == Words(s, bits)
  {
    if s == [] {
      NoWords(tail, bits);
    } else {
      hide StreamBytes, Word, Words, DecodeWords, LittleEndian, FromLittleEndian;
      StreamBytesCons(s, bits);
      WordsRoundTrip(s[1..], tail, bits);
      ConsRoundTrip(Word(bits(s[0])), StreamBytes(s[1..], bits), tail, s, bits);
    }
  }

  lemma NoWords(tail: seq<Byte>, bits: Sample -> Word32)
    ensures DecodeWords(StreamBytes([], bits) + tail, 0) == Words([], bits)
  {
  }

  lemma ConsRoundTrip(first: seq<Byte>, rest: seq<Byte>, tail: seq<Byte>, s: seq<Sample>, bits: Sample -> Word32)
    requires s != [] && |first| == 4 && FromLittleEndian(first) == bits(s[0]) && |rest| == 4 * (|s| - 1)
    requires DecodeWords(rest + tail, |s| - 1) == Words(s[1..], bits)
    ensures DecodeWords(first + rest + tail, |s|) == Words(s, bits)
  {
    var b := first + rest + tail;
    assert b[..4] == first && b[4..] == rest + tail;
    WordsCons(s, bits);
  }

  lemma WordsCons(s: seq<Sample>, bits: Sample -> Word32)
    requires s != []
    ensures Words(s, bits) == [bits(s[0])] + Words(s[1..], bits)
  {
  }

  lemma {:induction false} DataRoundTrip(data: seq<seq<Sample>>, n: nat, bits: Sample -> Word32)
    requires forall x :: 0 <= x < |data| ==> |data[x]| == n
    ensures DecodeData(DataBytes(data, bits), |data|, n) == Some(Matrix(data, bits))
  {
    if data != [] {
      DataBytesCons(data, bits);
      var b := DataBytes(data, bits);
      WordsRoundTrip(data[0], DataBytes(data[1..], bits), bits);
      assert b[4 * n..] == DataBytes(data[1..], bits);
      DataRoundTrip(data[1..], n, bits);
      assert Matrix(data, bits) == [Matrix(data, bits)[0]] + Matrix(data[1..], bits);
    }
  }

  /** Decoding an encoded frame returns every header field modulo its width and the
      whole data matrix, for any number of streams and samples the two counts can name. */
  lemma FrameRoundTrip(cfg: Config, f: Frame, bits: Sample -> Word32)
    requires forall x :: 0 <= x < |f.data| ==> |f.data[x]| == f.nchunks
    requires |f.data| < 0x1_0000 && f.nchunks < 0x1_0000_0000
    ensures Decode(Encode(cfg, f, bits)) ==
            Some(Decoded(1, Flags(f), |f.data|, cfg.id % 0x1_0000_0000, f.idx % 0x1_0000_0000,
                         f.sampleIndex % 0x1_0000_0000, bits(Num(f.subsample)), f.nchunks, Matrix(f.data, bits)))
  {
    HeaderRoundTrip(cfg, f, bits);
    DecodeFrame(cfg, f, bits, Header(cfg, f, bits));
  }

  lemma DecodeFrame(cfg: Config, f: Frame, bits: Sample -> Word32, h: seq<Byte>)
    requires forall x :: 0 <= x < |f.data| ==> |f.data[x]| == f.nchunks
    requires |f.data| < 0x1_0000 && f.nchunks < 0x1_0000_0000
    requires Carries(h, cfg, f, bits)
    ensures Decode(h + DataBytes(f.data, bits)) ==
            Some(Decoded(1, Flags(f), |f.data|, cfg.id % 0x1_0000_0000, f.idx % 0x1_0000_0000,
                         f.sampleIndex % 0x1_0000_0000, bits(Num(f.subsample)), f.nchunks, Matrix(f.data, bits)))
  {
    var m, n := FromLittleEndian(h[2..4]), FromLittleEndian(h[20..24]);
    assert m == |f.data| && n == f.nchunks;
    DataRoundTrip(f.data, n, bits);
    assert DecodeData(DataBytes(f.data, bits), m, n) == Some(Matrix(f.data, bits));
    DecodeSplit(h, DataBytes(f.data, bits), Matrix(f.data, bits));
  }

  /** h holds the fields of f at the documented offsets, each modulo its width. */
  predicate Carries(h: seq<Byte>, cfg: Config, f: Frame, bits: Sample -> Word32) {
    && |h| == HEADER
    && h[0] == 1 && h[1] == Flags(f)
    && FromLittleEndian(h[2..4]) == |f.data| % 0x1_0000
    && FromLittleEndian(h[4..8]) == cfg.id % 0x1_0000_0000
    && FromLittleEndian(h[8..12]) == f.idx % 0x1_0000_0000
    && FromLittleEndian(h[12..16]) == f.sampleIndex % 0x1_0000_0000
    && FromLittleEndian(h[16..20]) == bits(Num(f.subsample))
    && FromLittleEndian(h[20..24]) == f.nchunks % 0x1_0000_0000
  }

  lemma DecodeSplit(h: seq<Byte>, tail: seq<Byte>, data: seq<seq<nat>>)
    requires |h| == HEADER
    requires DecodeData(tail, FromLittleEndian(h[2..4]), FromLittleEndian(h[20..24])) == Some(data)
    ensures Decode(h + tail) ==
            Some(Decoded(h[0], h[1], FromLittleEndian(h[2..4]), FromLittleEndian(h[4..8]), FromLittleEndian(h[8..12]),
                         FromLittleEndian(h[12..16]), FromLittleEndian(h[16..20]), FromLittleEndian(h[20..24]), data))
  {
    PrefixSlice(h, tail, 2, 4);
    PrefixSlice(h, tail, 4, 8);
    PrefixSlice(h, tail, 8, 12);
    PrefixSlice(h, tail, 12, 16);
    PrefixSlice(h, tail, 16, 20);
    PrefixSlice(h, tail, 20, 24);
    assert (h + tail)[24..] == tail;
  }

  lemma PrefixSlice(h: seq<Byte>, tail: seq<Byte>, i: nat, j: nat)
    requires i <= j <= |h|
    ensures (h + tail)[i..j] == h[i..j]
  {
  }

  lemma HeaderRoundTrip(cfg: Config, f: Frame, bits: Sample -> Word32)
    ensures Carries(Header(cfg, f, bits), cfg, f, bits)
  {
    hide FromLittleEndian, LittleEndian, Half, Word, Flags;
    var a, b, c := Half(|f.data|), Word(cfg.id), Word(f.idx);
    var d, e, g := Word(f.sampleIndex), Word(bits(Num(f.subsample))), Word(f.nchunks);
    FieldSlices([1, Flags(f)], a, b, c, d, e, g);
  }

  lemma FieldSlices(z: seq<Byte>, a: seq<Byte>, b: seq<Byte>, c: seq<Byte>, d: seq<Byte>, e: seq<Byte>, g: seq<Byte>)
    requires |z| == |a| == 2 && |b| == |c| == |d| == |e| == |g| == 4
    ensures var h := z + a + b + c + d + e + g;
            h[0] == z[0] && h[1] == z[1] && h[2..4] == a && h[4..8] == b && h[8..12] == c
            && h[12..16] == d && h[16..20] == e && h[20..24] == g
  {
  }

  // ---- the JSON rendering ----

  /** Optional members are absent, not null; a NaN sample is null (None). */
  datatype JsonUpdate = JsonUpdate(id: int, idx: nat, triggerForced: bool, subsample: Option<real>,
                                   sampleIndex: Option<nat>, data: seq<seq<Option<real>>>, done: bool)

  function FloatJson(x: Sample): Option<real> {
    match x case NaN => None case Num(v) => Some(v)
  }

  function Json(cfg: Config, f: Frame): JsonUpdate {
    JsonUpdate(cfg.id, f.idx, f.idx == 0 && f.forced,
               if f.idx == 0 && f.triggered then Some(f.subsample) else None,
               if f.idx == 0 then Some(f.sampleIndex) else None,
               seq(|f.data|, x requires 0 <= x < |f.data| =>
                 seq(|f.data[x]|, k requires 0 <= k < |f.data[x]| => FloatJson(f.data[x][k]))),
               f.done)
  }

  predicate Bit(flags: Byte, weight: nat)
    requires weight > 0
  {
    flags / weight % 2 == 1
  }

  /** A client that decodes binary frames and one that reads JSON learn the same
      update: the same matrix entry for entry, the same done and forced indications,
      and the same subsample error when there is one. */
  lemma BinaryAndJsonAgree(cfg: Config, f: Frame, bits: Sample -> Word32)
    requires forall x :: 0 <= x < |f.data| ==> |f.data[x]| == f.nchunks
    requires |f.data| < 0x1_0000 && f.nchunks < 0x1_0000_0000
    requires f.forced || f.triggered ==> f.idx == 0
    ensures Decode(Encode(cfg, f, bits)).Some?
    ensures var d, j := Decode(Encode(cfg, f, bits)).value, Json(cfg, f);
            && |d.data| == |j.data| == |f.data|
            && (forall x, k :: 0 <= x < |f.data| && 0 <= k < f.nchunks ==>
                  |d.data[x]| == |j.data[x]| == f.nchunks
                  && j.data[x][k] == FloatJson(f.data[x][k]) && d.data[x][k] == bits(f.data[x][k]))
            && (Bit(d.flags, 1) <==> j.done) && (Bit(d.flags, 2) <==> j.triggerForced)
            && (Bit(d.flags, 4) <==> j.subsample.Some?)
            && (j.subsample.Some? ==> d.subsample == bits(Num(j.subsample.value)))
            && d.idx == j.idx % 0x1_0000_0000 && d.id == j.id % 0x1_0000_0000
            && (j.sampleIndex.Some? ==> d.sampleIndex == j.sampleIndex.value % 0x1_0000_0000)
  {
    hide Decode, Encode;
    FrameRoundTrip(cfg, f, bits);
  }
}
