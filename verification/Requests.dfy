/** Turning a `listen` command into a listener (src/listener.rs), against the
    channels of a device (src/streaming.rs). */
module Requests {
  import opened Common
  import opened ListenerModel

  datatype Stream = Stream(id: string, gain: nat, normalGain: nat)

  /** An output source as clients know it. */
  datatype Output = Output(mode: nat, start: nat, effective: bool)

  datatype Channel = Channel(id: string, source: Option<Output>, streams: seq<Stream>)

  datatype StreamRef = StreamRef(channel: Option<string>, stream: Option<string>)

  /** A JSON property that is absent or of another type is None. */
  datatype TriggerRequest = TriggerRequest(kind: Option<string>, level: Option<real>, at: StreamRef,
                                           repeat: Option<bool>, holdoff: Option<int>, offset: Option<int>,
                                           force: Option<int>)

  datatype Request = Request(id: Option<int>, binary: Option<bool>, decimateFactor: Option<int>, start: Option<int>,
                             count: Option<int>, streams: Option<seq<StreamRef>>, trigger: Option<TriggerRequest>)

  function Or<T>(x: Option<T>, default: T): (r: T)
    ensures x.Some? ==> x == Some(r)
    ensures x.None? ==> r == default
  {
    if x.Some? then x.value else default
  }

  // ---- lookups ----

  /** The first channel with the id. */
  function ChannelById(channels: seq<Channel>, id: string): (r: Option<nat>)
    ensures r.Some? ==> r.value < |channels| && channels[r.value].id == id
                        && forall c :: 0 <= c < r.value ==> channels[c].id != id
    ensures r.None? ==> forall c :: 0 <= c < |channels| ==> channels[c].id != id
    decreases |channels|
  {
    if channels == [] then None
    else
      var before := ChannelById(channels[..|channels| - 1], id);
      if before.Some? then before
      else if channels[|channels| - 1].id == id then Some(|channels| - 1) else None
  }

  function StreamById(streams: seq<Stream>, id: string): (r: Option<nat>)
    ensures r.Some? ==> r.value < |streams| && streams[r.value].id == id
                        && forall s :: 0 <= s < r.value ==> streams[s].id != id
    ensures r.None? ==> forall s :: 0 <= s < |streams| ==> streams[s].id != id
    decreases |streams|
  {
    if streams == [] then None
    else
      var before := StreamById(streams[..|streams| - 1], id);
      if before.Some? then before
      else if streams[|streams| - 1].id == id then Some(|streams| - 1) else None
  }

  predicate HasStream(channels: seq<Channel>, at: (nat, nat)) {
    at.0 < |channels| && at.1 < |channels[at.0].streams|
  }

  /** The position is that of the first channel with the id, and in it of the first
      stream with the id. */
  predicate FirstNamed(channels: seq<Channel>, ref: StreamRef, at: (nat, nat)) {
    && HasStream(channels, at) && ref.channel == Some(channels[at.0].id)
    && (forall c :: 0 <= c < at.0 ==> Some(channels[c].id) != ref.channel)
    && ref.stream == Some(channels[at.0].streams[at.1].id)
    && forall s :: 0 <= s < at.1 ==> Some(channels[at.0].streams[s].id) != ref.stream
  }

  /** The first channel with the id has no stream with the other. */
  predicate Lacks(channels: seq<Channel>, c: nat, channel: string, stream: string) {
    && c < |channels| && channels[c].id == channel
    && (forall b :: 0 <= b < c ==> channels[b].id != channel)
    && forall s :: 0 <= s < |channels[c].streams| ==> channels[c].streams[s].id != stream
  }

  function FindStream(channels: seq<Channel>, ref: StreamRef): (r: Result<(nat, nat)>)
    ensures r.Ok? ==> FirstNamed(channels, ref, r.value)
    ensures ref.channel.None? ==> r == Err("JSON missing string property: channel")
    ensures ref.channel.Some? && ref.stream.None? ==> r == Err("JSON missing string property: stream")
    ensures ref.channel.Some? && ref.stream.Some? ==>
              if forall c :: 0 <= c < |channels| ==> channels[c].id != ref.channel.value then
                r == Err("Channel not found")
              else r.Err? ==>
                && r.message == "Stream not found"
                && exists c :: Lacks(channels, c, ref.channel.value, ref.stream.value)
  {
    if ref.channel.None? then Err("JSON missing string property: channel")
    else if ref.stream.None? then Err("JSON missing string property: stream")
    else
      var c := ChannelById(channels, ref.channel.value);
      if c.None? then Err("Channel not found")
      else
        var s := StreamById(channels[c.value].streams, ref.stream.value);
        if s.None? then
          assert Lacks(channels, c.value, ref.channel.value, ref.stream.value);
          Err("Stream not found")
        else Ok((c.value, s.value))
  }

  /** A stream is found exactly when there is one that the request names. */
  lemma FindStreamExact(channels: seq<Channel>, ref: StreamRef)
    ensures FindStream(channels, ref).Ok? <==> exists at: (nat, nat) :: FirstNamed(channels, ref, at)
  {
    if FindStream(channels, ref).Ok? {
      assert FirstNamed(channels, ref, FindStream(channels, ref).value);
    }
  }

  // ---- building the listener ----

  /** Negative starts count back from the latest sample: -1 is the next to come. */
  function ResolveStart(captureI: nat, start: int): (index: nat)
    ensures start >= 0 ==> index == start
    ensures start < 0 ==> index == Max(0, captureI + start + 1) <= captureI
  {
    Max(0, if start < 0 then captureI + start + 1 else start)
  }

  /** The stream positions a listener reads exist on the device. */
  predicate Reads(channels: seq<Channel>, cfg: Config) {
    && (forall x :: 0 <= x < |cfg.streams| ==> HasStream(channels, cfg.streams[x]))
    && (cfg.trigger.InStream? ==> HasStream(channels, (cfg.trigger.channel, cfg.trigger.stream)))
    && (cfg.trigger.OutSource? ==> cfg.trigger.outChannel < |channels|)
  }

  /** A trigger description that names an existing stream or channel. */
  predicate GoodTrigger(channels: seq<Channel>, t: TriggerRequest) {
    var kind := Or(t.kind, "in");
    if kind == "in" then t.level.Some? && FindStream(channels, t.at).Ok?
    else kind == "out" && t.at.channel.Some? && ChannelById(channels, t.at.channel.value).Some?
  }

  /** Exactly the requests that are accepted. */
  predicate Acceptable(channels: seq<Channel>, req: Request) {
    && req.id.Some? && req.count.Some? && req.streams.Some?
    && (forall x :: 0 <= x < |req.streams.value| ==> FindStream(channels, req.streams.value[x]).Ok?)
    && (req.trigger.Some? ==> GoodTrigger(channels, req.trigger.value))
  }

  /** The trigger is the one described, at the stream or channel it names. */
  predicate Describes(channels: seq<Channel>, t: TriggerRequest, trigger: Trigger) {
    match trigger
    case NoTrigger => false
    case InStream(c, s, level) =>
      Or(t.kind, "in") == "in" && FirstNamed(channels, t.at, (c, s)) && t.level == Some(level)
    case OutSource(c) =>
      && Or(t.kind, "in") == "out" && c < |channels| && t.at.channel == Some(channels[c].id)
      && forall b :: 0 <= b < c ==> Some(channels[b].id) != t.at.channel
  }

  /** Why a trigger description is refused: the first thing that is wrong with it. */
  predicate RefusesTrigger(channels: seq<Channel>, t: TriggerRequest, why: string) {
    if t.kind == None || t.kind == Some("in") then
      if t.level.None? then why == "JSON missing float property: level"
      else FindStream(channels, t.at) == Err(why)
    else if t.kind == Some("out") then
      why == if t.at.channel.None? then "JSON missing string property: channel" else "Trigger channel not found"
    else why == "Invalid trigger type"
  }

  /** The first stream of a request that is not found. */
  predicate FirstMissing(channels: seq<Channel>, refs: seq<StreamRef>, x: nat) {
    && x < |refs| && FindStream(channels, refs[x]).Err?
    && forall y :: 0 <= y < x ==> FindStream(channels, refs[y]).Ok?
  }

  /** Why a request is refused: the first thing that is wrong with it. */
  ghost predicate Refuses(channels: seq<Channel>, req: Request, why: string) {
    if req.id.None? then why == "JSON missing int property: id"
    else if req.count.None? then why == "JSON missing int property: count"
    else if req.streams.None? then why == "JSON missing property: streams"
    else if exists x: nat :: FirstMissing(channels, req.streams.value, x) then
      exists x: nat :: FirstMissing(channels, req.streams.value, x)
                       && FindStream(channels, req.streams.value[x]) == Err(why)
    else req.trigger.Some? && RefusesTrigger(channels, req.trigger.value, why)
  }

  method MakeTrigger(channels: seq<Channel>, t: TriggerRequest) returns (r: Result<Trigger>)
    ensures r.Ok? <==> GoodTrigger(channels, t)
    ensures r.Ok? ==> Describes(channels, t, r.value) && !r.value.NoTrigger?
    ensures r.Ok? && r.value.InStream? ==> HasStream(channels, (r.value.channel, r.value.stream))
    ensures r.Ok? && r.value.OutSource? ==> r.value.outChannel < |channels|
    ensures r.Err? ==> RefusesTrigger(channels, t, r.message)
  {
    var kind := Or(t.kind, "in");
    if kind == "in" {
      if t.level.None? {
        return Err("JSON missing float property: level");
      }
      var at := FindStream(channels, t.at);
      if at.Err? {
        return Err(at.message);
      }
      return Ok(InStream(at.value.0, at.value.1, t.level.value));
    }
    if kind == "out" {
      if t.at.channel.None? {
        return Err("JSON missing string property: channel");
      }
      var c := ChannelById(channels, t.at.channel.value);
      if c.None? {
        return Err("Trigger channel not found");
      }
      return Ok(OutSource(c.value));
    }
    return Err("Invalid trigger type");
  }

  method FindStreams(channels: seq<Channel>, refs: seq<StreamRef>) returns (r: Result<seq<(nat, nat)>>)
    ensures r.Ok? <==> forall x :: 0 <= x < |refs| ==> FindStream(channels, refs[x]).Ok?
    ensures r.Ok? ==>
              && |r.value| == |refs|
              && forall x :: 0 <= x < |refs| ==>
                   FirstNamed(channels, refs[x], r.value[x]) && HasStream(channels, r.value[x])
    ensures r.Err? ==> exists x: nat :: FirstMissing(channels, refs, x)
                                        && FindStream(channels, refs[x]) == Err(r.message)
  {
    var found := [];
    for i := 0 to |refs|
      invariant |found| == i && forall x :: 0 <= x < i ==> FindStream(channels, refs[x]) == Ok(found[x])
    {
      var at := FindStream(channels, refs[i]);
      if at.Err? {
        assert FirstMissing(channels, refs, i);
        return Err(at.message);
      }
      found := found + [at.value];
    }
    return Ok(found);
  }

  /** The listener that a request asks for: its streams and trigger are the ones named,
      every omitted property has its default, and a negative offset raises the holdoff. */
  predicate Asks(channels: seq<Channel>, req: Request, cfg: Config) {
    && req.id == Some(cfg.id) && req.count == Some(cfg.count) && !cfg.sink.Rest?
    && (cfg.sink.WsBinary? <==> Or(req.binary, false))
    && cfg.decimate == Max(1, Or(req.decimateFactor, 1))
    && req.streams.Some? && |cfg.streams| == |req.streams.value|
    && (forall x :: 0 <= x < |cfg.streams| ==> FirstNamed(channels, req.streams.value[x], cfg.streams[x]))
    && (req.trigger.None? ==>
          cfg.trigger.NoTrigger? && !cfg.repeat && cfg.offset == cfg.holdoff == cfg.force == 0)
    && (req.trigger.Some? ==>
          && Describes(channels, req.trigger.value, cfg.trigger)
          && cfg.offset == Or(req.trigger.value.offset, 0)
          && cfg.holdoff == (if cfg.offset < 0 then Max(-cfg.offset, Or(req.trigger.value.holdoff, 0))
                             else Or(req.trigger.value.holdoff, 0))
          && cfg.force == Max(0, Or(req.trigger.value.force, 0))
          && cfg.repeat == Or(req.trigger.value.repeat, true))
  }

  /** Build a listener and its cursor from a `listen` command. Whatever the request
      says, the listener decimates by at least one, only reads streams that exist,
      starts with a sound cursor, and cannot re-arm behind the sample it triggered on. */
  method MakeStreamListener(channels: seq<Channel>, captureI: nat, req: Request) returns (r: Result<(Config, State)>)
    ensures r.Ok? <==> Acceptable(channels, req)
    ensures r.Err? ==> Refuses(channels, req, r.message)
    ensures r.Ok? ==>
              var (cfg, st) := r.value;
              && ValidConfig(cfg) && Guarded(cfg) && StateOk(cfg, st) && Reads(channels, cfg)
              && Asks(channels, req, cfg)
              && st == State(ResolveStart(captureI, Or(req.start, -1)), 0, false,
                             if req.trigger.Some? then ResolveStart(captureI, Or(req.start, -1)) + cfg.force else 0,
                             0.0)
  {
    hide FindStream, ChannelById, StreamById, GoodTrigger, Describes, FirstNamed, HasStream, RefusesTrigger;
    if req.id.None? {
      return Err("JSON missing int property: id");
    }
    var df := Or(req.decimateFactor, 1);
    var decimate := if df < 1 then 1 else df;
    var index := ResolveStart(captureI, Or(req.start, -1));
    if req.count.None? {
      return Err("JSON missing int property: count");
    }
    if req.streams.None? {
      return Err("JSON missing property: streams");
    }
    var streams := FindStreams(channels, req.streams.value);
    if streams.Err? {
      return Err(streams.message);
    }
    var sink := if Or(req.binary, false) then WsBinary else WsJson;
    var cfg := Config(req.id.value, streams.value, decimate, req.count.value, sink, NoTrigger, false, 0, 0, 0);
    if req.trigger.None? {
      return Ok((cfg, State(index, 0, false, 0, 0.0)));
    }
    var t := req.trigger.value;
    var trigger := MakeTrigger(channels, t);
    if trigger.Err? {
      return Err(trigger.message);
    }
    var offset, holdoff := Or(t.offset, 0), Or(t.holdoff, 0);
    if offset < 0 && -offset >= holdoff {
      holdoff := -offset;
    }
    var force := if Or(t.force, 0) < 0 then 0 else Or(t.force, 0);
    cfg := cfg.(trigger := trigger.value, repeat := Or(t.repeat, true),
                holdoff := holdoff, offset := offset, force := force);
    return Ok((cfg, State(index, 0, false, index + force, 0.0)));
  }

  /** A REST listener follows every stream of one channel, untriggered. */
  method MakeRestListener(channels: seq<Channel>, captureI: nat, channel: nat, decimate: nat, start: int, count: int)
    returns (cfg: Config, st: State)
    requires channel < |channels|
    ensures ValidConfig(cfg) && Guarded(cfg) && Progress(cfg) && StateOk(cfg, st) && Reads(channels, cfg)
    ensures cfg.sink.Rest? && cfg.count == count && cfg.decimate == Max(1, decimate)
    ensures cfg.trigger.NoTrigger? && !cfg.repeat && cfg.offset == cfg.holdoff == cfg.force == 0
    ensures |cfg.streams| == |channels[channel].streams|
    ensures forall s :: 0 <= s < |cfg.streams| ==> cfg.streams[s] == (channel, s)
    ensures st == State(ResolveStart(captureI, start), 0, false, 0, 0.0)
  {
    var streams := seq(|channels[channel].streams|, s requires 0 <= s => (channel, s));
    cfg := Config(0, streams, Max(1, decimate), count, Rest, NoTrigger, false, 0, 0, 0);
    st := State(ResolveStart(captureI, start), 0, false, 0, 0.0);
  }

  /** What the guard is for: with a holdoff that is not negative, every accepted
      request re-arms forward, so a call always ends. The guard makes the holdoff
      non-negative by itself whenever the offset is negative. */
  lemma GuardedRequestsProgress(cfg: Config)
    requires ValidConfig(cfg) && Guarded(cfg) && (cfg.offset < 0 || cfg.holdoff >= 0)
    ensures Progress(cfg)
  {
    if cfg.count > 0 {
      Monotone(1, cfg.count, cfg.decimate);
    }
  }
}
