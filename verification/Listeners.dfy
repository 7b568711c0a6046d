/** The listener object (src/listener.rs): its cursor fields are updated in place,
    and every method is proved against the functions of ListenerModel. Sending is
    appending to `outbox`; a REST stream's state is the parameter `link`. */
module Listeners {
  import opened Common
  import opened Samples
  import opened Sources
  import opened RingBuffer
  import opened ListenerModel
  import opened Frames

  datatype Message =
    | Update(update: JsonUpdate)
    | Binary(bytes: seq<Byte>)
    | Csv(rows: seq<seq<Sample>>)

  /** CSV rows run over chunks, each row over streams. */
  function Rows(data: seq<seq<Sample>>, n: nat): (rows: seq<seq<Sample>>)
    requires forall x :: 0 <= x < |data| ==> |data[x]| == n
    ensures |rows| == n && forall k :: 0 <= k < n ==> |rows[k]| == |data|
    ensures forall k, x :: 0 <= k < n && 0 <= x < |data| ==> rows[k][x] == data[x][k]
  {
    seq(n, k requires 0 <= k < n => seq(|data|, x requires 0 <= x < |data| => data[x][k]))
  }

  function Render(cfg: Config, bits: Sample -> Word32, f: Frame): (m: Message)
    requires forall x :: 0 <= x < |f.data| ==> |f.data[x]| == f.nchunks
    ensures (m.Update? <==> cfg.sink.WsJson?) && (m.Binary? <==> cfg.sink.WsBinary?) && (m.Csv? <==> cfg.sink.Rest?)
  {
    match cfg.sink
    case WsJson => Update(Json(cfg, f))
    case WsBinary => Binary(Encode(cfg, f, bits))
    case Rest => Csv(Rows(f.data, f.nchunks))
  }

  ghost predicate Rectangular(fs: seq<Frame>) {
    forall i, x :: 0 <= i < |fs| && 0 <= x < |fs[i].data| ==> |fs[i].data[x]| == fs[i].nchunks
  }

  ghost function RenderAll(cfg: Config, bits: Sample -> Word32, fs: seq<Frame>): (r: seq<Message>)
    requires Rectangular(fs)
    ensures |r| == |fs| && forall i :: 0 <= i < |fs| ==> r[i] == Render(cfg, bits, fs[i])
  {
    seq(|fs|, i requires 0 <= i < |fs| => Render(cfg, bits, fs[i]))
  }

  class Listener {
    const cfg: Config
    const bits: Sample -> Word32
    var index: nat
    var outIndex: nat
    var triggered: bool
    var forceIndex: nat
    var subsample: real
    var outbox: seq<Message>

    constructor (cfg: Config, bits: Sample -> Word32, start: nat)
      ensures this.cfg == cfg && this.bits == bits && outbox == []
      ensures State()
           == ListenerModel.State(start, 0, false, if cfg.trigger.NoTrigger? then 0 else start + cfg.force, 0.0)
    {
      this.cfg, this.bits := cfg, bits;
      index, outIndex, triggered, subsample, outbox := start, 0, false, 0.0, [];
      forceIndex := if cfg.trigger.NoTrigger? then 0 else start + cfg.force;
    }

    ghost function State(): ListenerModel.State
      reads this
    {
      ListenerModel.State(index, outIndex, triggered, forceIndex, subsample)
    }

    /** The device is consistent, separate from the listener, has its streams, and
        shows it v. */
    ghost predicate Sees(dev: Device, v: View)
      reads dev, dev.Repr
    {
      dev.Valid() && (this as object) !in dev.Repr && v == dev.Snapshot() && InRange(cfg, v)
    }

    /** A capture reset rewinds the cursor; the trigger latch is left as it was. */
    method Reset()
      modifies this`index, this`outIndex
      ensures State() == old(State()).(index := 0, outIndex := 0)
    {
      index, outIndex := 0, 0;
    }

    /** Look for the trigger from the current index; latch it and move there if found. */
    method FindTrigger(dev: Device, ghost v: View) returns (found: bool)
      requires Sees(dev, v) && !triggered && Fits(cfg, v, State())
      modifies this`index, this`triggered, this`subsample
      ensures (State(), found) == ListenerModel.FindTrigger(cfg, v, old(State()))
      ensures cfg.trigger.OutSource? && v.sources[cfg.trigger.outChannel].Some? ==>
                forall z: real, n: nat ::
                  NextTo(n, z) && PhaseZeroAfter(v.sources[cfg.trigger.outChannel].value, old(index)) == Some(z) ==>
                    FiresAt(cfg, v, old(State()), z, n, State(), found)
    {
      hide FirstEdge, PhaseZeroAfter, FiresAt, Device.Snapshot, Device.Valid;
      if cfg.trigger.OutSource? && v.sources[cfg.trigger.outChannel].Some? {
        forall z: real, n: nat |
          NextTo(n, z) && PhaseZeroAfter(v.sources[cfg.trigger.outChannel].value, index) == Some(z)
          ensures var (st', f) := ListenerModel.FindTrigger(cfg, v, State()); FiresAt(cfg, v, State(), z, n, st', f)
        {
          OutSourceFires(cfg, v, State(), z, n);
        }
      }
      subsample := 0.0;
      found := false;
      match cfg.trigger
      case NoTrigger =>
      case InStream(c, s, level) =>
        var at := ScanEdge(dev, c, s, level, v);
        if at.Some? {
          index := WrappingAddSigned(at.value, cfg.offset);
          triggered := true;
          return true;
        }
        if cfg.force != 0 && index > forceIndex {
          triggered := true;
          return true;
        }
      case OutSource(c) =>
        if dev.sources[c].None? {
          return false;
        }
        var zero := PhaseZeroAfter(dev.sources[c].value, index);
        PhaseZeroNotBefore(dev.sources[c].value, index);
        if zero.Some? && dev.captureO >= Round(zero.value) {
          index := WrappingAddSigned(Round(zero.value), cfg.offset);
          subsample := zero.value - Round(zero.value) as real;
          triggered := true;
          return true;
        } else if cfg.force != 0 && dev.captureI >= forceIndex {
          index := forceIndex;
          triggered := true;
          return true;
        }
    }

    /** The scan: step forward until a sample above the level follows one that is not
        (NaN is not above). Stops at the first edge past the old index, or past the
        collected samples. */
    method ScanEdge(dev: Device, c: nat, s: nat, level: real, ghost v: View) returns (at: Option<nat>)
      requires Sees(dev, v) && dev.Has(c, s)
      modifies this`index
      ensures at == FirstEdge(v.streams[c][s], level, old(index) + 1)
      ensures index == if at.Some? then at.value else Max(old(index) + 1, dev.captureI)
    {
      hide FirstEdge, Sees;
      var i := index;
      var state := IsAbove(dev, c, s, i, level, v);
      ghost var seen := v.streams[c][s];
      while true
        invariant index <= i && (i > index ==> i < |seen|)
        invariant state == (i < |seen| && Above(seen[i], level))
        invariant FirstEdge(seen, level, index + 1) == FirstEdge(seen, level, i + 1)
        decreases |seen| - i
        modifies {}
      {
        i := i + 1;
        EdgeStep(seen, level, i);
        if i >= dev.captureI {
          at := None;
          break;
        }
        var newState := IsAbove(dev, c, s, i, level, v);
        if newState && !state {
          at := Some(i);
          break;
        }
        state := newState;
      }
      index := i;
    }

    method IsAbove(dev: Device, c: nat, s: nat, i: nat, level: real, ghost v: View) returns (b: bool)
      requires Sees(dev, v) && dev.Has(c, s)
      ensures v.Has(c, s) && |v.streams[c][s]| == dev.captureI
      ensures b == (i < |v.streams[c][s]| && Above(v.streams[c][s][i], level))
    {
      dev.GetIsSeen(c, s, i);
      b := Above(dev.Get(c, s, i), level);
    }

    /** Trigger first if still waiting for one, then count what can be delivered. */
    method HowManySamples(dev: Device, ghost v: View) returns (n: nat)
      requires Sees(dev, v) && ValidConfig(cfg) && Fits(cfg, v, State())
      modifies this`index, this`triggered, this`subsample
      ensures if cfg.trigger.NoTrigger? || old(triggered) then State() == old(State())
              else State() == ListenerModel.FindTrigger(cfg, v, old(State())).0
      ensures n == if cfg.trigger.NoTrigger? || old(triggered) || ListenerModel.FindTrigger(cfg, v, old(State())).1
                   then Available(cfg, dev.captureI, State()) else 0
    {
      if !cfg.trigger.NoTrigger? && !triggered {
        var found := FindTrigger(dev, v);
        if !found {
          return 0;
        }
      }
      if index + cfg.decimate >= dev.captureI {
        return 0;
      }
      n := (dev.captureI - index) / cfg.decimate;
      if cfg.count > 0 {
        var remaining := cfg.count - outIndex;
        if remaining >= 0 && remaining < n {
          n := remaining;
        }
      }
    }

    /** Chunk k of stream x, counted from the cursor. */
    method ChunkValue(dev: Device, x: nat, k: nat, ghost v: View) returns (y: Sample)
      requires Sees(dev, v) && x < |cfg.streams|
      ensures y == v.Resample(cfg.streams[x].0, cfg.streams[x].1, ChunkStart(cfg, index, k), cfg.decimate)
    {
      y := dev.Resample(cfg.streams[x].0, cfg.streams[x].1, ChunkStart(cfg, index, k), cfg.decimate);
    }

    /** The decimated values of one stream. */
    method StreamValues(dev: Device, x: nat, n: nat, ghost v: View) returns (data: seq<Sample>)
      requires Sees(dev, v) && x < |cfg.streams|
      ensures data == StreamChunks(cfg, v, x, index, n)
    {
      data := [];
      for k := 0 to n
        invariant data == StreamChunks(cfg, v, x, index, k)
      {
        var y := ChunkValue(dev, x, k, v);
        data := data + [y];
      }
    }

    /** The data matrix of an update, stream by stream. */
    method Collect(dev: Device, n: nat, ghost v: View) returns (data: seq<seq<Sample>>)
      requires Sees(dev, v)
      ensures data == Chunks(cfg, v, index, n)
    {
      data := [];
      for x := 0 to |cfg.streams|
        invariant |data| == x
        invariant forall y :: 0 <= y < x ==> data[y] == StreamChunks(cfg, v, y, index, n)
      {
        var d := StreamValues(dev, x, n, v);
        data := data + [d];
      }
    }

    method JsonUpdate(dev: Device, n: nat, willBeDone: bool, ghost v: View) returns (u: JsonUpdate)
      requires Sees(dev, v) && willBeDone == WillBeDone(cfg, State(), n)
      ensures u == Json(cfg, MakeFrame(cfg, v, State(), n))
    {
      var data := Collect(dev, n, v);
      var f := Frame(outIndex, index, n, outIndex == 0 && cfg.force != 0 && index > forceIndex,
                     outIndex == 0 && triggered, subsample, willBeDone && !cfg.repeat, data);
      return Json(cfg, f);
    }

    method CsvRows(dev: Device, n: nat, ghost v: View) returns (rows: seq<seq<Sample>>)
      requires Sees(dev, v)
      ensures rows == Rows(Chunks(cfg, v, index, n), n)
    {
      ghost var data := Chunks(cfg, v, index, n);
      rows := [];
      for k := 0 to n
        invariant |rows| == k && forall j :: 0 <= j < k ==> rows[j] == Rows(data, n)[j]
      {
        var row := [];
        for x := 0 to |cfg.streams|
          invariant |row| == x && forall y :: 0 <= y < x ==> row[y] == data[y][k]
        {
          var y := ChunkValue(dev, x, k, v);
          row := row + [y];
        }
        assert row == Rows(data, n)[k];
        rows := rows + [row];
      }
    }

    /** The binary frame, filled in place: header fields, then one word per sample. */
    method BinaryFrame(dev: Device, n: nat, willBeDone: bool, ghost v: View) returns (buf: array<Byte>)
      requires Sees(dev, v) && willBeDone == WillBeDone(cfg, State(), n)
      ensures fresh(buf) && buf[..] == Encode(cfg, MakeFrame(cfg, v, State(), n), bits)
    {
      var data := Collect(dev, n, v);
      ghost var f := MakeFrame(cfg, v, State(), n);
      TimesIsProduct(|data|, n);
      buf := new Byte[HEADER + |data| * n * 4](_ => 0);
      WriteHeader(buf, n, willBeDone, f);
      WriteData(buf, data, n);
    }

    method WriteData(buf: array<Byte>, data: seq<seq<Sample>>, n: nat)
      requires forall x :: 0 <= x < |data| ==> |data[x]| == n
      requires buf.Length == HEADER + Times(|data|, n) * 4
      modifies buf
      ensures buf[..] == old(buf[..HEADER]) + DataBytes(data, bits)
    {
      ghost var header := buf[..HEADER];
      assert DataBytes(data[..0], bits) == [];
      hide DataBytes, StreamBytes;
      var off: nat := HEADER;
      for x := 0 to |data|
        invariant HEADER <= off && off + Times(|data| - x, n) * 4 == buf.Length
        invariant buf[..off] == header + DataBytes(data[..x], bits)
      {
        Associative(header, DataBytes(data[..x], bits), StreamBytes(data[x], bits));
        WriteStream(buf, off, data[x]);
        off := off + n * 4;
        DataBytesSnoc(data, x, bits);
      }
      assert data[..|data|] == data && buf[..] == buf[..off];
    }

    method WriteHeader(buf: array<Byte>, n: nat, willBeDone: bool, ghost f: Frame)
      requires buf.Length >= HEADER
      requires |f.data| == |cfg.streams| && f.idx == outIndex && f.sampleIndex == index && f.nchunks == n
      requires f.subsample == subsample && f.done == (willBeDone && !cfg.repeat)
      requires f.forced == (outIndex == 0 && cfg.force != 0 && index > forceIndex)
      requires f.triggered == (outIndex == 0 && triggered)
      modifies buf
      ensures buf[..HEADER] == Header(cfg, f, bits)
    {
      hide Word, Half;
      var flags: Byte := 0;
      if willBeDone && !cfg.repeat {
        flags := flags + 1;
      }
      if outIndex == 0 && cfg.force != 0 && index > forceIndex {
        flags := flags + 2;
      }
      if outIndex == 0 && triggered {
        flags := flags + 4;
      }
      buf[0] := 1;
      buf[1] := flags;
      assert buf[..2] == [1, flags];
      CopyFromSlice(buf, 2, Half(|cfg.streams|));
      CopyFromSlice(buf, 4, Word(cfg.id));
      CopyFromSlice(buf, 8, Word(outIndex));
      CopyFromSlice(buf, 12, Word(index));
      CopyFromSlice(buf, 16, Word(bits(Num(subsample))));
      CopyFromSlice(buf, 20, Word(n));
    }

    method WriteStream(buf: array<Byte>, start: nat, data: seq<Sample>)
      requires start + |data| * 4 <= buf.Length
      modifies buf
      ensures buf[..start + |data| * 4] == old(buf[..start]) + StreamBytes(data, bits)
    {
      ghost var before, bytes := buf[..start], StreamBytes(data[..0], bits);
      var off := start;
      hide StreamBytes, Word;
      for k := 0 to |data|
        invariant off == start + k * 4 && bytes == StreamBytes(data[..k], bits)
        invariant buf[..off] == before + bytes
      {
        var word := Word(bits(data[k]));
        CopyFromSlice(buf, off, word);
        StreamBytesSnoc(data, k, bits);
        Associative(before, bytes, word);
        off, bytes := off + 4, bytes + word;
      }
      assert data[..|data|] == data;
    }

    /** Send one frame to the sink; false when the REST receiver is gone. */
    method Send(dev: Device, n: nat, willBeDone: bool, link: Link, ghost v: View) returns (ok: bool)
      requires Sees(dev, v) && willBeDone == WillBeDone(cfg, State(), n)
      modifies this`outbox
      ensures ok == !(cfg.sink.Rest? && link.sendFails)
      ensures outbox == if ok then old(outbox) + [Render(cfg, bits, MakeFrame(cfg, v, State(), n))] else old(outbox)
    {
      match cfg.sink
      case WsBinary =>
        var buf := BinaryFrame(dev, n, willBeDone, v);
        outbox := outbox + [Binary(buf[..])];
        return true;
      case WsJson =>
        var u := JsonUpdate(dev, n, willBeDone, v);
        outbox := outbox + [Update(u)];
        return true;
      case Rest =>
        var rows := CsvRows(dev, n, v);
        if link.sendFails {
          return false;
        }
        outbox := outbox + [Csv(rows)];
        return true;
    }

    /** Send the n available chunks and move the cursor past them; `again` when a
        completed sweep re-armed the trigger. */
    method DeliverChunks(dev: Device, n: nat, link: Link, ghost v: View) returns (again: bool, keep: bool)
      requires Sees(dev, v) && ValidConfig(cfg)
      requires n == Available(cfg, v.captureI, State()) && n > 0 && !(cfg.sink.Rest? && link.closed)
      modifies this
      ensures var pass := Deliver(cfg, v, link, old(State()));
              again == pass.Rearm? && State() == pass.st && (!again ==> keep == pass.keep)
              && Rectangular(pass.Sent()) && outbox == old(outbox) + RenderAll(cfg, bits, pass.Sent())
    {
      var willBeDone := cfg.count > 0 && outIndex + n >= cfg.count;
      var ok := Send(dev, n, willBeDone, link, v);
      if !ok {
        return false, false;
      }
      again, keep := Step(n, willBeDone);
    }

    /** Move the cursor past n delivered chunks. */
    method Step(n: nat, willBeDone: bool) returns (again: bool, keep: bool)
      requires willBeDone == WillBeDone(cfg, State(), n)
      modifies this`index, this`outIndex, this`triggered, this`forceIndex
      ensures (State(), again, keep) == Advance(cfg, old(State()), n)
    {
      Monotone(0, n, cfg.decimate);
      index := index + n * cfg.decimate;
      outIndex := outIndex + n;
      if cfg.sink.Rest? {
        return false, !(cfg.count > 0 && outIndex >= cfg.count);
      }
      if willBeDone && cfg.repeat {
        outIndex := 0;
        triggered := false;
        index := WrappingAddSigned(index, cfg.holdoff);
        forceIndex := index + cfg.force;
        return true, true;
      }
      return false, !willBeDone;
    }

    /** One turn of the delivery loop. */
    method TryDeliver(dev: Device, link: Link, ghost v: View) returns (again: bool, keep: bool, ghost pass: Pass)
      requires Sees(dev, v) && Callable(cfg, v, State())
      modifies this
      ensures pass == OnePass(cfg, v, link, old(State())) && Sees(dev, v)
      ensures again == pass.Rearm? && State() == pass.st && (!again ==> keep == pass.keep)
      ensures Rectangular(pass.Sent()) && outbox == old(outbox) + RenderAll(cfg, bits, pass.Sent())
    {
      pass := OnePass(cfg, v, link, State());
      if cfg.sink.Rest? && link.closed {
        return false, false, pass;
      }
      var n := HowManySamples(dev, v);
      if n == 0 {
        return false, true, pass;
      }
      again, keep := DeliverChunks(dev, n, link, v);
    }

    /** Deliver everything available, re-arming a repeating trigger as often as the
        collected data allows; false when the listener should be removed. */
    method HandleNewData(dev: Device, link: Link, ghost v: View) returns (keep: bool)
      requires Sees(dev, v) && Callable(cfg, v, State())
      modifies this
      ensures var (st, sent, k) := Handle(cfg, v, link, old(State()));
              State() == st && keep == k && Rectangular(sent) && outbox == old(outbox) + RenderAll(cfg, bits, sent)
    {
      hide *;
      ghost var whole, sent: seq<Frame> := Handle(cfg, v, link, State()), [];
      NothingSent(cfg, bits, whole);
      while true
        invariant Sees(dev, v) && Callable(cfg, v, State())
        invariant Rectangular(sent) && outbox == old(outbox) + RenderAll(cfg, bits, sent)
        invariant whole == Prepend(sent, Handle(cfg, v, link, State()))
        decreases if State().triggered then 1 else 0, Distance(cfg, v.captureI, State())
      {
        HandleTurn(cfg, v, link, State(), sent);
        var again;
        ghost var pass;
        again, keep, pass := TryDeliver(dev, link, v);
        RenderAppend(cfg, bits, sent, pass.Sent());
        sent := sent + pass.Sent();
        if !again {
          return;
        }
      }
    }
  }

  lemma NothingSent<A, B>(cfg: Config, bits: Sample -> Word32, r: (A, seq<Frame>, B))
    ensures Prepend([], r) == r && Rectangular([]) && RenderAll(cfg, bits, []) == []
  {
    assert [] + r.1 == r.1;
  }

  lemma RenderAppend(cfg: Config, bits: Sample -> Word32, a: seq<Frame>, b: seq<Frame>)
    requires Rectangular(a) && Rectangular(b)
    ensures Rectangular(a + b) && RenderAll(cfg, bits, a + b) == RenderAll(cfg, bits, a) + RenderAll(cfg, bits, b)
  {
  }

  lemma Associative(a: seq<Byte>, b: seq<Byte>, c: seq<Byte>)
    ensures a + b + c == a + (b + c)
  {
  }

  method CopyFromSlice(buf: array<Byte>, off: nat, b: seq<Byte>)
    requires off + |b| <= buf.Length
    modifies buf
    ensures buf[..off + |b|] == old(buf[..off]) + b
  {
    for i := 0 to |b|
      invariant buf[..off + i] == old(buf[..off]) + b[..i]
    {
      buf[off + i] := b[i];
    }
  }
}
