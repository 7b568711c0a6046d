/** The control side of a streaming device (src/streaming.rs): capture state, outputs
    and gains, listeners, attached clients, and what each client is told. Sample
    data lives in module RingBuffer. */
module Capture {
  import opened Common
  import opened ListenerModel
  import opened Requests
  import S = Sources

  /** The bookkeeping of the synthetic device and of the two USB devices. */
  datatype Backend = Test | M1k | Cee

  datatype Settings = Settings(mode: nat, samples: nat, continuous: bool, raw: bool, currentLimit: nat)

  /** The state a client can see. */
  datatype Public = Public(settings: Settings, captureState: bool, captureDone: bool,
                           gains: seq<seq<real>>, outputs: seq<Option<Output>>)

  datatype Message =
    | DeviceConfig(device: Public)
    | CaptureState(state: bool, done: bool)
    | CaptureReset
    | OutputChanged(channel: nat, output: Output)
    | GainChanged(gainChannel: nat, gainStream: nat, gain: real)
    | DeviceDisconnected

  // ---- what a client can reconstruct ----

  /** One message folded into a client's picture of its device. A reset says nothing
      about the state flags; a configuration is a complete snapshot. */
  function Apply(p: Public, m: Message): Public {
    match m
    case DeviceConfig(device) => device
    case CaptureState(state, done) => p.(captureState := state, captureDone := done)
    case CaptureReset => p
    case OutputChanged(c, output) => if c < |p.outputs| then p.(outputs := p.outputs[c := Some(output)]) else p
    case GainChanged(c, s, gain) =>
      if c < |p.gains| && s < |p.gains[c]| then p.(gains := p.gains[c := p.gains[c][s := gain]]) else p
    case DeviceDisconnected => p
  }

  /** A client's picture after a log of messages; none before its first configuration. */
  function Mirror(log: seq<Message>): Option<Public> {
    if log == [] then None
    else
      var before, m := Mirror(log[..|log| - 1]), log[|log| - 1];
      if before.Some? then Some(Apply(before.value, m))
      else if m.DeviceConfig? then Some(m.device)
      else None
  }

  /** A USB device moves the start sample of its outputs to zero on a reset without
      saying so, and a CEE changes its current limit without saying so; everything else
      is promised. */
  function Promised(b: Backend, p: Public): Public {
    match b
    case Test => p
    case M1k => p.(outputs := WithoutStarts(p.outputs))
    case Cee => p.(outputs := WithoutStarts(p.outputs), settings := p.settings.(currentLimit := 0))
  }

  function WithoutStarts(outputs: seq<Option<Output>>): (r: seq<Option<Output>>)
    ensures |r| == |outputs|
    ensures forall c :: 0 <= c < |r| ==> r[c] == if outputs[c].Some? then Some(outputs[c].value.(start := 0)) else None
  {
    seq(|outputs|, c requires 0 <= c < |outputs| =>
      if outputs[c].Some? then Some(outputs[c].value.(start := 0)) else None)
  }

  predicate Mirrors(b: Backend, log: seq<Message>, p: Public) {
    Mirror(log).Some? && Promised(b, Mirror(log).value) == Promised(b, p)
  }

  /** A client in step stays in step with the state the message describes. */
  lemma MirrorStep(b: Backend, log: seq<Message>, p: Public, m: Message)
    requires Mirrors(b, log, p)
    ensures Mirrors(b, log + [m], Apply(p, m))
  {
    assert (log + [m])[..|log|] == log;
    var q := Mirror(log).value;
    if m.OutputChanged? && !b.Test? {
      assert |q.outputs| == |WithoutStarts(q.outputs)| == |WithoutStarts(p.outputs)| == |p.outputs|;
      if m.channel < |p.outputs| {
        SetWithoutStart(q.outputs, m.channel, m.output);
        SetWithoutStart(p.outputs, m.channel, m.output);
      }
    }
  }

  lemma SetWithoutStart(outputs: seq<Option<Output>>, c: nat, o: Output)
    requires c < |outputs|
    ensures WithoutStarts(outputs[c := Some(o)]) == WithoutStarts(outputs)[c := Some(o.(start := 0))]
  {
  }

  /** Moving start samples to zero is invisible on a USB device. */
  lemma RestartInvisible(b: Backend, p: Public)
    requires !b.Test?
    ensures Promised(b, p.(outputs := WithoutStarts(p.outputs))) == Promised(b, p)
  {
    assert WithoutStarts(WithoutStarts(p.outputs)) == WithoutStarts(p.outputs);
  }

  class ClientHandle {
    const id: nat
    var log: seq<Message>

    constructor (id: nat)
      ensures this.id == id && log == []
    {
      this.id, log := id, [];
    }

    method SendJson(m: Message)
      modifies this
      ensures log == old(log) + [m]
    {
      log := log + [m];
    }
  }

  /** A client whose picture is complete keeps it under the change a message describes. */
  lemma ExactStep(log: seq<Message>, p: Public, m: Message)
    requires Mirror(log) == Some(p)
    ensures Mirror(log + [m]) == Some(Apply(p, m))
  {
    assert (log + [m])[..|log|] == log;
  }

  // ---- lists of clients and listeners ----

  predicate Unique(cs: seq<ClientHandle>) {
    forall i, j :: 0 <= i < j < |cs| ==> cs[i].id != cs[j].id
  }

  /** Detaching: everyone except the client with the id. */
  function Except(cs: seq<ClientHandle>, id: nat): (r: seq<ClientHandle>)
    ensures forall c :: c in r ==> c in cs && c.id != id
    ensures forall c :: c in cs && c.id != id ==> c in r
    ensures Unique(cs) ==> Unique(r)
  {
    if cs == [] then []
    else
      var rest := Except(cs[..|cs| - 1], id);
      if cs[|cs| - 1].id == id then rest else rest + [cs[|cs| - 1]]
  }

  /** A listener, the client that asked for it (none for REST), and its cursor. */
  datatype Entry = Entry(owner: Option<ClientHandle>, cfg: Config, cursor: State)
  {
    predicate IsFrom(client: nat) {
      owner.Some? && owner.value.id == client
    }

    predicate Named(client: nat, id: int) {
      IsFrom(client) && cfg.id == id
    }
  }

  /** Without the one listener of that client and id, if there is one. */
  ghost predicate Cancelled(before: seq<Entry>, now: seq<Entry>, client: nat, id: int) {
    if exists e :: e in before && e.Named(client, id) then
      exists i :: 0 <= i < |before| && before[i].Named(client, id) && now == before[..i] + before[i + 1..]
    else now == before
  }

  predicate Clash(a: Entry, b: Entry) {
    a.owner.Some? && b.Named(a.owner.value.id, a.cfg.id)
  }

  /** No client has two listeners of the same id. */
  predicate Distinct(ls: seq<Entry>) {
    forall i, j :: 0 <= i < j < |ls| ==> !Clash(ls[i], ls[j])
  }

  lemma DistinctSnoc(ls: seq<Entry>, x: Entry)
    requires Distinct(ls) && forall e :: e in ls ==> !Clash(e, x)
    ensures Distinct(ls + [x])
  {
    forall i, j | 0 <= i < j < |ls + [x]|
      ensures !Clash((ls + [x])[i], (ls + [x])[j])
    {
      assert ls[i] in ls;
    }
  }

  /** Every listener reads existing streams, and belongs to a client in cs if to any. */
  predicate Owned(ls: seq<Entry>, channels: seq<Channel>, cs: seq<ClientHandle>) {
    forall i :: 0 <= i < |ls| ==> Reads(channels, ls[i].cfg) && (ls[i].owner.Some? ==> ls[i].owner.value in cs)
  }

  /** Dropping a client's listeners. */
  function Orphaned(ls: seq<Entry>, client: nat): (r: seq<Entry>)
    ensures forall e :: e in r ==> e in ls && !e.IsFrom(client)
    ensures forall e :: e in ls && !e.IsFrom(client) ==> e in r
  {
    if ls == [] then []
    else
      var rest := Orphaned(ls[..|ls| - 1], client);
      if ls[|ls| - 1].IsFrom(client) then rest else rest + [ls[|ls| - 1]]
  }

  lemma {:induction false} OrphanedDistinct(ls: seq<Entry>, client: nat)
    requires Distinct(ls)
    ensures Distinct(Orphaned(ls, client))
  {
    if ls != [] {
      var last := |ls| - 1;
      OrphanedDistinct(ls[..last], client);
      var rest := Orphaned(ls[..last], client);
      if !ls[last].IsFrom(client) {
        DistinctSnoc(rest, ls[last]);
      }
    }
  }

  /** Picking the elements of a list at some positions, in order. */
  ghost predicate Picks<T>(from: seq<T>, at: seq<nat>, r: seq<T>) {
    && |at| == |r| && (forall k :: 0 <= k < |at| ==> at[k] < |from| && r[k] == from[at[k]])
    && forall j, k :: 0 <= j < k < |at| ==> at[j] < at[k]
  }

  lemma PicksSnoc<T>(from: seq<T>, at: seq<nat>, r: seq<T>, x: T)
    requires Picks(from, at, r)
    ensures Picks(from + [x], at, r) && Picks(from + [x], at + [|from|], r + [x])
    ensures forall i :: 0 <= i < |from| ==> (i in at + [|from|] <==> i in at)
    ensures |from| !in at && |from| in at + [|from|]
  {
  }

  /** Those who stay are those not from the client, each once and in the order they had. */
  lemma {:induction false} OrphanedExact(ls: seq<Entry>, client: nat) returns (at: seq<nat>)
    ensures Picks(ls, at, Orphaned(ls, client))
    ensures forall i :: 0 <= i < |ls| ==> (i in at <==> !ls[i].IsFrom(client))
  {
    at := [];
    if ls != [] {
      var last := |ls| - 1;
      at := OrphanedExact(ls[..last], client);
      PicksSnoc(ls[..last], at, Orphaned(ls[..last], client), ls[last]);
      assert ls == ls[..last] + [ls[last]];
      if !ls[last].IsFrom(client) {
        at := at + [last];
      }
    }
  }

  /** The same for clients. */
  lemma {:induction false} ExceptExact(cs: seq<ClientHandle>, id: nat) returns (at: seq<nat>)
    ensures Picks(cs, at, Except(cs, id))
    ensures forall i :: 0 <= i < |cs| ==> (i in at <==> cs[i].id != id)
  {
    at := [];
    if cs != [] {
      var last := |cs| - 1;
      at := ExceptExact(cs[..last], id);
      PicksSnoc(cs[..last], at, Except(cs[..last], id), cs[last]);
      assert cs == cs[..last] + [cs[last]];
      if cs[last].id != id {
        at := at + [last];
      }
    }
  }

  /** After new data: each listener either leaves or moves its cursor. */
  function Retained(ls: seq<Entry>, outcomes: seq<Option<State>>): (r: seq<Entry>)
    requires |outcomes| == |ls|
    ensures forall e :: e in r ==>
              exists i :: 0 <= i < |ls| && outcomes[i].Some? && e == ls[i].(cursor := outcomes[i].value)
    ensures forall i :: 0 <= i < |ls| && outcomes[i].Some? ==> ls[i].(cursor := outcomes[i].value) in r
  {
    if ls == [] then []
    else
      var last := |ls| - 1;
      var rest := Retained(ls[..last], outcomes[..last]);
      if outcomes[last].Some? then rest + [ls[last].(cursor := outcomes[last].value)] else rest
  }

  /** r is what is left of the listeners at some positions, each with its new cursor. */
  ghost predicate Stays(ls: seq<Entry>, outcomes: seq<Option<State>>, at: seq<nat>, r: seq<Entry>)
    requires |outcomes| == |ls|
  {
    && |at| == |r| && (forall j, k :: 0 <= j < k < |at| ==> at[j] < at[k])
    && (forall k :: 0 <= k < |at| ==>
          && at[k] < |ls| && outcomes[at[k]].Some?
          && r[k] == ls[at[k]].(cursor := outcomes[at[k]].value))
    && (forall i :: 0 <= i < |ls| && outcomes[i].Some? ==> i in at)
  }

  lemma StaysSnoc(ls: seq<Entry>, outcomes: seq<Option<State>>, at: seq<nat>, r: seq<Entry>, e: Entry, o: Option<State>)
    requires |outcomes| == |ls| && Stays(ls, outcomes, at, r)
    ensures o.None? ==> Stays(ls + [e], outcomes + [o], at, r)
    ensures o.Some? ==> Stays(ls + [e], outcomes + [o], at + [|ls|], r + [e.(cursor := o.value)])
  {
    var more := at + [|ls|];
    assert forall i :: i in at ==> i in more;
    assert more[|at|] == |ls|;
  }

  /** Listeners that stay keep their order, each once and with its own new cursor. */
  lemma {:induction false} RetainedExact(ls: seq<Entry>, outcomes: seq<Option<State>>) returns (at: seq<nat>)
    requires |outcomes| == |ls|
    ensures Stays(ls, outcomes, at, Retained(ls, outcomes))
  {
    at := [];
    if ls != [] {
      hide Stays;
      var last := |ls| - 1;
      at := RetainedExact(ls[..last], outcomes[..last]);
      StaysSnoc(ls[..last], outcomes[..last], at, Retained(ls[..last], outcomes[..last]), ls[last], outcomes[last]);
      assert ls == ls[..last] + [ls[last]] && outcomes == outcomes[..last] + [outcomes[last]];
      if outcomes[last].Some? {
        at := at + [last];
      }
    }
  }

  lemma {:induction false} RetainedDistinct(ls: seq<Entry>, outcomes: seq<Option<State>>)
    requires Distinct(ls) && |outcomes| == |ls|
    ensures Distinct(Retained(ls, outcomes))
  {
    if ls != [] {
      var last := |ls| - 1;
      RetainedDistinct(ls[..last], outcomes[..last]);
      var rest := Retained(ls[..last], outcomes[..last]);
      if outcomes[last].Some? {
        DistinctSnoc(rest, ls[last].(cursor := outcomes[last].value));
      }
    }
  }

  lemma RetainedOwned(ls: seq<Entry>, outcomes: seq<Option<State>>, channels: seq<Channel>, cs: seq<ClientHandle>)
    requires Owned(ls, channels, cs) && |outcomes| == |ls|
    ensures Owned(Retained(ls, outcomes), channels, cs)
  {
    var r := Retained(ls, outcomes);
    forall k | 0 <= k < |r|
      ensures Reads(channels, r[k].cfg) && (r[k].owner.Some? ==> r[k].owner.value in cs)
    {
      assert r[k] in r;
      var i :| 0 <= i < |ls| && outcomes[i].Some? && r[k] == ls[i].(cursor := outcomes[i].value);
    }
  }

  function Gain(s: Stream): real {
    if s.normalGain == 0 then 0.0 else s.gain as real / s.normalGain as real
  }

  function Gains(channels: seq<Channel>): (r: seq<seq<real>>)
    ensures |r| == |channels|
    ensures forall c :: 0 <= c < |r| ==> |r[c]| == |channels[c].streams|
    ensures forall c, s :: 0 <= c < |r| && 0 <= s < |r[c]| ==> r[c][s] == Gain(channels[c].streams[s])
  {
    seq(|channels|, c requires 0 <= c < |channels| =>
      seq(|channels[c].streams|, s requires 0 <= s < |channels[c].streams| => Gain(channels[c].streams[s])))
  }

  function Outputs(channels: seq<Channel>): (r: seq<Option<Output>>)
    ensures |r| == |channels| && forall c :: 0 <= c < |r| ==> r[c] == channels[c].source
  {
    seq(|channels|, c requires 0 <= c < |channels| => channels[c].source)
  }

  /** Channels with the same streams, up to gains, and sources. */
  predicate SameShape(a: seq<Channel>, b: seq<Channel>) {
    |a| == |b| && forall c :: 0 <= c < |a| ==> |a[c].streams| == |b[c].streams|
  }

  predicate SameStreams(a: seq<Channel>, b: seq<Channel>) {
    |a| == |b| && forall c :: 0 <= c < |a| ==> a[c].id == b[c].id && a[c].streams == b[c].streams
  }

  lemma OwnedByShape(ls: seq<Entry>, a: seq<Channel>, b: seq<Channel>, cs: seq<ClientHandle>)
    requires SameShape(a, b) && Owned(ls, a, cs)
    ensures Owned(ls, b, cs)
  {
  }

  function WithSource(channels: seq<Channel>, c: nat, o: Output): (r: seq<Channel>)
    requires c < |channels|
    ensures SameShape(channels, r) && Gains(r) == Gains(channels) && Outputs(r) == Outputs(channels)[c := Some(o)]
    ensures SameStreams(channels, r)
  {
    channels[c := channels[c].(source := Some(o))]
  }

  function WithGain(channels: seq<Channel>, c: nat, s: nat, gain: nat): (r: seq<Channel>)
    requires HasStream(channels, (c, s))
    ensures SameShape(channels, r) && Outputs(r) == Outputs(channels)
    ensures forall d :: 0 <= d < |r| ==> r[d].id == channels[d].id
    ensures forall d, t :: 0 <= d < |r| && 0 <= t < |r[d].streams| ==>
              r[d].streams[t] == if d == c && t == s then channels[d].streams[t].(gain := gain)
                                 else channels[d].streams[t]
  {
    channels[c := channels[c].(streams := channels[c].streams[s := channels[c].streams[s].(gain := gain)])]
  }

  lemma GainsWithGain(channels: seq<Channel>, c: nat, s: nat, gain: nat)
    requires HasStream(channels, (c, s))
    ensures var r := WithGain(channels, c, s, gain);
            Gains(r) == Gains(channels)[c := Gains(channels)[c][s := Gain(r[c].streams[s])]]
  {
    var r := WithGain(channels, c, s, gain);
    assert Gains(r)[c] == Gains(channels)[c][s := Gain(r[c].streams[s])];
  }

  /** Start samples of all outputs moved to zero. */
  function Restarted(channels: seq<Channel>): (r: seq<Channel>)
    ensures SameShape(channels, r) && Gains(r) == Gains(channels) && Outputs(r) == WithoutStarts(Outputs(channels))
    ensures SameStreams(channels, r)
  {
    seq(|channels|, c requires 0 <= c < |channels| =>
      channels[c].(source := if channels[c].source.Some? then Some(channels[c].source.value.(start := 0)) else None))
  }

  /** The channels a configuration builds: two of two streams, sourcing constant zero.
      A CEE keeps its gains, and has no channels in any mode but 0. */
  function Configured(b: Backend, mode: int, prev: seq<Channel>): seq<Channel> {
    if b.Cee? && mode > 0 then []
    else [NewChannel(b, "a", 0, prev), NewChannel(b, "b", 1, prev)]
  }

  function NewChannel(b: Backend, id: string, c: nat, prev: seq<Channel>): Channel {
    Channel(id, Some(Output(0, 0, false)),
            [NewStream(b, "v", 1, c, 0, prev), NewStream(b, "i", if b.Cee? then 2 else 1, c, 1, prev)])
  }

  function NewStream(b: Backend, id: string, normal: nat, c: nat, s: nat, prev: seq<Channel>): Stream {
    Stream(id, if b.Cee? && HasStream(prev, (c, s)) then prev[c].streams[s].gain else normal, normal)
  }

  /** What clients see after a configuration: no channels on a CEE in a mode other than 0;
      otherwise two channels that source constant zero from sample zero, and gains of one,
      except those that a CEE keeps. */
  lemma ConfiguredAnew(b: Backend, mode: int, prev: seq<Channel>)
    ensures var now := Configured(b, mode, prev);
            if b.Cee? && mode > 0 then now == []
            else
              && |now| == 2 && now[0].id == "a" && now[1].id == "b"
              && (forall c :: 0 <= c < 2 ==> now[c].source == Some(Output(0, 0, false)) && |now[c].streams| == 2)
              && (forall c :: 0 <= c < 2 ==> now[c].streams[0].id == "v" && now[c].streams[1].id == "i")
              && (forall c, s :: 0 <= c < 2 && 0 <= s < 2 ==>
                    var x := now[c].streams[s];
                    && x.normalGain == (if b.Cee? && s == 1 then 2 else 1)
                    && if b.Cee? && c < |prev| && s < |prev[c].streams| then x.gain == prev[c].streams[s].gain
                       else Gain(x) == 1.0)
  {
  }

  /** The commands of an attached client. What a listener does with the data collected
      so far, and whether the USB interface can be claimed, are given with them. */
  datatype Command =
    | Listen(request: Request, outcome: Option<State>)
    | Cancel(id: int)
    | Configure(mode: int, samples: nat, continuous: bool, raw: bool)
    | Start(claimed: bool)
    | Pause
    | Set(channel: string, outputMode: nat)
    | SetGain(gainChannel: string, gainStream: string, gain: real, restarts: bool)
    | SetCurrentLimit(limit: nat)

  /** An output is effective once the input has passed its start. */
  function Reached(c: Channel, captureI: nat): Channel {
    if c.source.None? then c
    else
      var o := c.source.value;
      c.(source := Some(o.(effective := o.effective || captureI > o.start)))
  }

  /** Every output the input has passed is effective. */
  function AllReached(channels: seq<Channel>, captureI: nat): (r: seq<Channel>)
    ensures |r| == |channels|
    ensures forall c :: 0 <= c < |r| ==> r[c] == Reached(channels[c], captureI)
  {
    seq(|channels|, c requires 0 <= c < |channels| => Reached(channels[c], captureI))
  }

  /** What a channel has to announce: an output that becomes effective. */
  function News1(channels: seq<Channel>, captureI: nat, c: nat): seq<Message>
    requires c < |channels|
  {
    var now := Reached(channels[c], captureI);
    if now == channels[c] then [] else [OutputChanged(c, now.source.value)]
  }

  /** What the first n channels have to announce. */
  function News(channels: seq<Channel>, captureI: nat, n: nat): seq<Message>
    requires n <= |channels|
  {
    if n == 0 then [] else News(channels, captureI, n - 1) + News1(channels, captureI, n - 1)
  }

  lemma News1Depends(a: seq<Channel>, b: seq<Channel>, captureI: nat, c: nat)
    requires c < |a| && c < |b| && a[c] == b[c]
    ensures News1(a, captureI, c) == News1(b, captureI, c)
  {
  }

  lemma News1Exact(channels: seq<Channel>, captureI: nat, c: nat)
    requires c < |channels|
    ensures News1(channels, captureI, c) ==
            match channels[c].source
            case None => []
            case Some(o) => if !o.effective && captureI > o.start then [OutputChanged(c, Output(o.mode, o.start, true))]
                            else []
  {
  }

  /** The output is effective if it was before or the input has passed its start; nothing
      else of the channel changes. */
  predicate Passed(before: Channel, now: Channel, captureI: nat) {
    && now.id == before.id && now.streams == before.streams
    && if before.source.None? then now.source.None?
       else
         && now.source.Some? && now.source.value.mode == before.source.value.mode
         && now.source.value.start == before.source.value.start
         && (now.source.value.effective <==> before.source.value.effective || captureI > before.source.value.start)
  }

  lemma AllReachedPass(channels: seq<Channel>, captureI: nat)
    ensures forall c :: 0 <= c < |channels| ==>
              Passed(channels[c], AllReached(channels, captureI)[c], captureI)
  {
  }

  /** The message tells that the output of one of the first n channels, until now not
      effective, has been reached by the input. */
  predicate Announces(m: Message, channels: seq<Channel>, captureI: nat, n: nat)
    requires n <= |channels|
  {
    && m.OutputChanged? && m.channel < n && channels[m.channel].source.Some?
    && var o := channels[m.channel].source.value;
       !o.effective && captureI > o.start && m.output == Output(o.mode, o.start, true)
  }

  /** Among some messages about a packet, the announcements are exactly those due. */
  ghost predicate AnnouncesAll(messages: seq<Message>, channels: seq<Channel>, captureI: nat) {
    forall m: Message :: m.OutputChanged? ==> (m in messages <==> Announces(m, channels, captureI, |channels|))
  }

  lemma PacketAnnounces(log: seq<Message>, first: seq<Message>, channels: seq<Channel>, captureI: nat)
    requires forall m :: m in first ==> m.CaptureState?
    ensures AnnouncesAll((log + first + News(channels, captureI, |channels|))[|log|..], channels, captureI)
  {
    var news := News(channels, captureI, |channels|);
    NewsExact(channels, captureI, |channels|);
    assert (log + first + news)[|log|..] == first + news;
  }

  /** Exactly those outputs are announced. */
  lemma {:induction false} NewsExact(channels: seq<Channel>, captureI: nat, n: nat)
    requires n <= |channels|
    ensures forall m :: m in News(channels, captureI, n) <==> Announces(m, channels, captureI, n)
  {
    if n > 0 {
      var before, last := News(channels, captureI, n - 1), News1(channels, captureI, n - 1);
      NewsExact(channels, captureI, n - 1);
      News1Exact(channels, captureI, n - 1);
      hide News1;
      forall m
        ensures m in before + last <==> Announces(m, channels, captureI, n)
      {
        assert m in before + last <==> m in before || m in last;
        assert m in last ==> m.channel == n - 1;
      }
    }
  }

  /** One message a channel, in the order of the channels. */
  lemma {:induction false} NewsInOrder(channels: seq<Channel>, captureI: nat, n: nat) returns (news: seq<Message>)
    requires n <= |channels|
    ensures news == News(channels, captureI, n)
    ensures forall i :: 0 <= i < |news| ==> news[i].OutputChanged? && news[i].channel < n
    ensures forall i, j :: 0 <= i < j < |news| ==> news[i].channel < news[j].channel
  {
    news := [];
    if n > 0 {
      var before := NewsInOrder(channels, captureI, n - 1);
      News1Exact(channels, captureI, n - 1);
      news := before + News1(channels, captureI, n - 1);
    }
  }

  class StreamingDevice {
    const backend: Backend
    const model: string
    const serial: string
    var connections: seq<ClientHandle>
    var listeners: seq<Entry>
    var channels: seq<Channel>
    var devMode: nat
    var rawMode: bool
    var captureState: bool
    var captureDone: bool
    var captureSamples: nat
    var captureContinuous: bool
    var captureI: nat
    var captureO: nat
    var currentLimit: nat
    /** backend hooks called so far */
    var resets: nat
    var starts: nat
    var pauses: nat

    function Snapshot(): Public
      reads this
    {
      Public(Settings(devMode, captureSamples, captureContinuous, rawMode, currentLimit), captureState, captureDone,
             Gains(channels), Outputs(channels))
    }

    /** Every attached client's picture of this device is p. */
    ghost predicate Told(p: Public)
      reads this, connections
    {
      forall c :: c in connections ==> Mirrors(backend, c.log, p)
    }

    ghost predicate Links()
      reads this
    {
      Unique(connections) && Distinct(listeners) && Owned(listeners, channels, connections)
    }

    ghost predicate Running()
      reads this
    {
      !(captureState && captureDone) && starts == pauses + if captureState then 1 else 0
    }

    /** A finite capture that is not done still has room. */
    ghost predicate Bounded()
      reads this
    {
      !captureContinuous && !captureDone && captureSamples > 0 ==> captureI < captureSamples
    }

    /** True between commands; the bound only at packet boundaries. */
    ghost predicate Sound()
      reads this, connections
    {
      Links() && Running() && Told(Snapshot())
    }

    ghost predicate Valid()
      reads this, connections
    {
      Sound() && Bounded()
    }

    constructor (b: Backend, model: string, serial: string, limit: nat, mode: int, samples: nat, continuous: bool,
                 raw: bool)
      ensures Valid() && backend == b && this.model == model
      ensures this.serial == serial && connections == [] && listeners == []
      ensures channels == Configured(b, mode, []) && captureSamples == samples && captureContinuous == continuous
      ensures !captureState && !captureDone && captureI == captureO == 0 && currentLimit == limit
    {
      currentLimit := limit;
      backend, this.model, this.serial, connections, listeners := b, model, serial, [], [];
      channels := Configured(b, mode, []);
      devMode, rawMode := if b.M1k? then 0 else Max(0, mode), raw;
      captureState, captureDone, captureSamples, captureContinuous := false, false, samples, continuous;
      captureI, captureO, resets, starts, pauses := 0, 0, 0, 0, 0;
    }

    // ---- notifications ----

    /** Send a message to every attached client. */
    method Broadcast(m: Message, ghost p: Public)
      requires Unique(connections) && Told(p)
      modifies connections
      ensures Told(Apply(p, m))
      ensures forall c :: c in connections ==> c.log == old(c.log) + [m]
    {
      hide Mirrors, Apply;
      for i := 0 to |connections|
        invariant forall j :: 0 <= j < i ==> connections[j].log == old(connections[j].log) + [m]
        invariant forall j :: i <= j < |connections| ==> connections[j].log == old(connections[j].log)
      {
        connections[i].SendJson(m);
      }
      forall c | c in connections
        ensures Mirrors(backend, c.log, Apply(p, m))
      {
        MirrorStep(backend, old(c.log), p, m);
      }
    }

    method NotifyCaptureState(ghost p: Public)
      requires Unique(connections) && Told(p)
      modifies connections
      ensures Told(p.(captureState := captureState, captureDone := captureDone))
      ensures forall c :: c in connections ==> c.log == old(c.log) + [CaptureState(captureState, captureDone)]
    {
      Broadcast(CaptureState(captureState, captureDone), p);
    }

    // ---- backend hooks ----

    method OnResetCapture()
      modifies this`resets, this`channels
      ensures resets == old(resets) + 1
      ensures channels == if backend.Test? then old(channels) else Restarted(old(channels))
    {
      resets := resets + 1;
      if !backend.Test? {
        channels := Restarted(channels);
      }
    }

    /** `claimed`: the USB interface could be claimed. */
    method OnStartCapture(claimed: bool)
      modifies this`starts, this`captureO
      ensures starts == old(starts) + 1
      ensures captureO == if !backend.Test? && claimed then captureI else old(captureO)
    {
      starts := starts + 1;
      if !backend.Test? && claimed {
        captureO := captureI;
      }
    }

    method OnPauseCapture()
      modifies this`pauses, this`captureO
      ensures pauses == old(pauses) + 1
      ensures captureO == if backend.Test? then old(captureO) else captureI
    {
      pauses := pauses + 1;
      if !backend.Test? {
        captureO := captureI;
      }
    }

    // ---- capture state machine ----

    /** Everything about the listeners of a device except that it has them. */
    static function Rewound(ls: seq<Entry>): (r: seq<Entry>)
      ensures |r| == |ls|
      ensures forall i :: 0 <= i < |r| ==> r[i] == ls[i].(cursor := ls[i].cursor.(index := 0, outIndex := 0))
    {
      seq(|ls|, i requires 0 <= i < |ls| => ls[i].(cursor := ls[i].cursor.(index := 0, outIndex := 0)))
    }

    /** Counters to zero, listeners rewound; announced by a message without flags. */
    method ResetCapture(ghost p: Public)
      requires Links() && Told(p)
      modifies this`captureDone, this`captureI, this`captureO, this`resets, this`channels, this`listeners, connections
      ensures Links() && Told(p)
      ensures !captureDone && captureI == captureO == 0 && resets == old(resets) + 1
      ensures listeners == Rewound(old(listeners))
      ensures channels == if backend.Test? then old(channels) else Restarted(old(channels))
      ensures forall c :: c in connections ==> c.log == old(c.log) + [CaptureReset]
    {
      hide Mirrors, Reads;
      captureDone, captureI, captureO := false, 0, 0;
      OnResetCapture();
      listeners := Rewound(listeners);
      OwnedByShape(listeners, old(channels), channels, connections);
      Broadcast(CaptureReset, p);
    }

    /** The messages of a start. */
    static function StartMessages(done: bool): seq<Message> {
      (if done then [CaptureReset] else []) + [CaptureState(true, false)]
    }

    /** Start a capture that is not running. */
    method Begin(claimed: bool)
      requires Valid() && !captureState
      modifies this, connections
      ensures Valid() && captureState && !captureDone && connections == old(connections)
      ensures unchanged(this`devMode, this`rawMode, this`captureSamples, this`captureContinuous)
      ensures unchanged(this`currentLimit, this`pauses)
      ensures starts == old(starts) + 1 && resets == old(resets) + (if old(captureDone) then 1 else 0)
      ensures captureI == (if old(captureDone) then 0 else old(captureI))
      ensures captureO
           == (if !backend.Test? && claimed then captureI else if old(captureDone) then 0 else old(captureO))
      ensures listeners == (if old(captureDone) then Rewound(old(listeners)) else old(listeners))
      ensures channels == (if old(captureDone) && !backend.Test? then Restarted(old(channels)) else old(channels))
      ensures forall c :: c in connections ==> c.log == old(c.log) + StartMessages(old(captureDone))
    {
      hide Mirrors, Owned, Distinct, Unique, Restarted, Gains, Outputs, Rewound, WithoutStarts;
      ghost var p := Snapshot();
      if captureDone {
        ResetCapture(p);
      }
      OnStartCapture(claimed);
      captureState := true;
      NotifyCaptureState(p);
      assert Told(Snapshot()) by {
        if old(captureDone) && !backend.Test? {
          Retell(p.(captureState := true, captureDone := false), Snapshot());
        }
      }
    }

    /** Start unless running; a finished capture is reset first. A client with a complete
        picture keeps it exactly unless the start moves outputs. */
    method StartCapture(claimed: bool)
      requires Valid()
      modifies this, connections
      ensures Valid() && captureState && !captureDone && connections == old(connections)
      ensures unchanged(this`devMode, this`rawMode, this`captureSamples, this`captureContinuous)
      ensures unchanged(this`currentLimit, this`pauses)
      ensures old(captureState) ==> unchanged(this) && forall c :: c in connections ==> c.log == old(c.log)
      ensures !old(captureState) ==>
                && starts == old(starts) + 1 && resets == old(resets) + (if old(captureDone) then 1 else 0)
                && captureI == (if old(captureDone) then 0 else old(captureI))
                && captureO
                   == (if !backend.Test? && claimed then captureI else if old(captureDone) then 0 else old(captureO))
                && listeners == (if old(captureDone) then Rewound(old(listeners)) else old(listeners))
                && channels == (if old(captureDone) && !backend.Test? then Restarted(old(channels)) else old(channels))
                && forall c :: c in connections ==> c.log == old(c.log) + StartMessages(old(captureDone))
      ensures forall c :: c in connections && old(Mirror(c.log) == Some(Snapshot())) ==>
                (Mirror(c.log) == Some(Snapshot()) <==> !old(StartMovesOutputs()))
    {
      hide Valid, Mirror, StartMessages, Restarted, Outputs, Gains;
      RunningNotDone();
      if !captureState {
        ghost var p := Snapshot();
        Begin(claimed);
        forall c | c in connections && old(Mirror(c.log)) == Some(p)
          ensures Mirror(c.log) == Some(p.(captureState := true, captureDone := false))
        {
          ExactStart(old(c.log), p, old(captureDone));
        }
      }
    }

    lemma RunningNotDone()
      requires Valid()
      ensures !(captureState && captureDone)
    {
    }

    /** A start that resets a finished capture of a USB device some of whose outputs did
        not start at sample zero: it moves them without telling anybody. */
    predicate StartMovesOutputs()
      reads this
    {
      !backend.Test? && captureDone && WithoutStarts(Outputs(channels)) != Outputs(channels)
    }

    /** Clients told p are also told q when the two promise the same. */
    lemma Retell(p: Public, q: Public)
      requires Told(p) && !backend.Test? && q == p.(outputs := WithoutStarts(p.outputs))
      ensures Told(q)
    {
      RestartInvisible(backend, p);
    }

    method PauseCapture()
      requires Valid()
      modifies this`captureState, this`pauses, this`captureO, connections
      ensures Valid() && !captureState
      ensures !old(captureState) ==> unchanged(this) && forall c :: c in connections ==> c.log == old(c.log)
      ensures old(captureState) ==>
                && pauses == old(pauses) + 1 && captureO == (if backend.Test? then old(captureO) else captureI)
                && forall c :: c in connections ==> c.log == old(c.log) + [CaptureState(false, captureDone)]
    {
      hide Mirrors, Reads, Owned, Distinct;
      if captureState {
        ghost var p := Snapshot();
        captureState := false;
        OnPauseCapture();
        NotifyCaptureState(p);
      }
    }

    /** A finite capture is complete: stop it and say so. */
    method DoneCapture()
      requires Sound()
      modifies this`captureState, this`captureDone, this`pauses, this`captureO, connections
      ensures Valid() && !captureState && captureDone
      ensures pauses == old(pauses) + (if old(captureState) then 1 else 0)
      ensures captureO == if old(captureState) && !backend.Test? then captureI else old(captureO)
      ensures forall c :: c in connections ==> c.log == old(c.log) + [CaptureState(false, true)]
    {
      hide Mirrors, Reads, Owned, Distinct;
      ghost var p := Snapshot();
      captureDone := true;
      if captureState {
        captureState := false;
        OnPauseCapture();
      }
      NotifyCaptureState(p);
    }

    // ---- packets ----

    /** Let every listener deliver; those that are finished leave. */
    method HandleNewData(outcomes: seq<Option<State>>)
      requires |outcomes| == |listeners| && Links()
      modifies this`listeners
      ensures listeners == Retained(old(listeners), outcomes) && Links()
    {
      ghost var before := listeners;
      var kept := [];
      for i := 0 to |listeners|
        invariant listeners == before && kept == Retained(listeners[..i], outcomes[..i])
      {
        assert listeners[..i + 1][..i] == listeners[..i] && outcomes[..i + 1][..i] == outcomes[..i];
        if outcomes[i].Some? {
          kept := kept + [listeners[i].(cursor := outcomes[i].value)];
        }
      }
      assert listeners[..|listeners|] == before && outcomes[..|listeners|] == outcomes;
      RetainedDistinct(before, outcomes);
      RetainedOwned(before, outcomes, channels, connections);
      listeners := kept;
    }

    /** After each packet: feed the listeners, then check for completion. */
    method PacketDone(outcomes: seq<Option<State>>)
      requires Sound() && |outcomes| == |listeners|
      modifies this`listeners, this`captureState, this`captureDone, this`pauses, this`captureO, connections
      ensures Valid() && listeners == Retained(old(listeners), outcomes)
      ensures var finished := !captureContinuous && captureI >= captureSamples;
              && captureDone == (old(captureDone) || finished) && captureState == (old(captureState) && !finished)
              && pauses == old(pauses) + (if finished && old(captureState) then 1 else 0)
              && captureO == (if finished && old(captureState) && !backend.Test? then captureI else old(captureO))
              && forall c :: c in connections ==>
                   c.log == old(c.log) + if finished then [CaptureState(false, true)] else []
    {
      hide Mirrors, Reads, Owned, Distinct, Retained;
      HandleNewData(outcomes);
      if !captureContinuous && captureI >= captureSamples {
        DoneCapture();
      }
    }

    // ---- outputs ----

    method CheckOutputEffective(c: nat)
      requires Valid() && c < |channels|
      modifies this`channels, connections
      ensures Valid() && channels == old(channels)[c := Reached(old(channels)[c], captureI)]
      ensures forall k :: k in connections ==> k.log == old(k.log) + News1(old(channels), captureI, c)
      ensures Passed(old(channels)[c], channels[c], captureI)
      ensures forall k, m: Message :: k in connections ==>
                (m in k.log[|old(k.log)|..] <==> m.OutputChanged? && m.channel == c
                                                 && Announces(m, old(channels), captureI, |channels|))
    {
      hide Mirrors, Reads, Owned, Distinct;
      News1Exact(channels, captureI, c);
      if channels[c].source.Some? {
        var o := channels[c].source.value;
        if !o.effective && captureI > o.start {
          ghost var p := Snapshot();
          SourceChanged(c, o.(effective := true), p);
        }
      }
    }

    /** Store an output and tell every client. */
    method SourceChanged(c: nat, o: Output, ghost p: Public)
      requires Links() && c < |channels| && Told(p) && p == Snapshot()
      modifies this`channels, connections
      ensures Links() && channels == WithSource(old(channels), c, o) && Told(Snapshot())
      ensures forall k :: k in connections ==> k.log == old(k.log) + [OutputChanged(c, o)]
    {
      hide Mirrors, Reads, Owned, Distinct;
      channels := WithSource(channels, c, o);
      OwnedByShape(listeners, old(channels), channels, connections);
      Broadcast(OutputChanged(c, o), p);
    }

    /** An output set when the output counter is at `at`. */
    function NewOutput(at: nat, mode: nat): Output {
      Output(mode, if backend.Test? then at else at + 1, false)
    }

    /** Replace a channel's output. Until the input has passed its start it is not
        effective; on USB hardware the sample being encoded is already out. */
    method SetOutput(c: nat, mode: nat)
      requires Valid() && c < |channels|
      modifies this`channels, connections
      ensures Valid() && SameShape(old(channels), channels)
      ensures var o := NewOutput(captureO, mode);
              && channels == WithSource(old(channels), c, o)
              && forall k :: k in connections ==> k.log == old(k.log) + [OutputChanged(c, o)]
    {
      hide Mirrors, Reads, Owned, Distinct;
      ghost var p := Snapshot();
      SourceChanged(c, Output(mode, captureO + if backend.Test? then 0 else 1, false), p);
    }

    method CheckOutputs()
      requires Valid()
      modifies this`channels, connections
      ensures Valid() && channels == AllReached(old(channels), captureI)
      ensures forall k :: k in connections ==> k.log == old(k.log) + News(old(channels), captureI, |channels|)
    {
      hide Mirrors, Reads, Owned, Distinct, Links, Running, Bounded, Told, Reached, News1;
      for c := 0 to |channels|
        invariant Valid() && |channels| == |old(channels)|
        invariant forall d :: 0 <= d < c ==> channels[d] == Reached(old(channels)[d], captureI)
        invariant forall d :: c <= d < |channels| ==> channels[d] == old(channels)[d]
        invariant forall k :: k in connections ==> k.log == old(k.log) + News(old(channels), captureI, c)
      {
        News1Depends(channels, old(channels), captureI, c);
        CheckOutputEffective(c);
      }
    }

    /** One packet of n samples, as a backend's input handler delivers it. */
    method Packet(n: nat, outcomes: seq<Option<State>>)
      requires Valid() && |outcomes| == |listeners|
      modifies this`captureI, this`channels, this`listeners, this`captureState, this`captureDone, this`pauses,
               this`captureO, connections
      ensures Valid() && captureI == old(captureI) + n
      ensures var finished := !captureContinuous && captureI >= captureSamples;
              && captureDone == (old(captureDone) || finished) && captureState == (old(captureState) && !finished)
              && pauses == old(pauses) + (if finished && old(captureState) then 1 else 0)
              && captureO == (if finished && old(captureState) && !backend.Test? then captureI else old(captureO))
      ensures listeners == Retained(old(listeners), outcomes)
      ensures channels == AllReached(old(channels), captureI)
      ensures var finished := !captureContinuous && captureI >= captureSamples;
              forall k :: k in connections ==>
                k.log == old(k.log) + (if finished then [CaptureState(false, true)] else [])
                         + News(old(channels), captureI, |channels|)
      ensures forall c :: 0 <= c < |channels| ==> Passed(old(channels)[c], channels[c], captureI)
      ensures forall k :: k in connections ==> AnnouncesAll(k.log[|old(k.log)|..], old(channels), captureI)
    {
      hide Mirrors, Reads, Owned, Distinct, Unique, Retained, AnnouncesAll, News, AllReached, Passed, Gains, Outputs;
      captureI := captureI + n;
      PacketDone(outcomes);
      CheckOutputs();
      AllReachedPass(old(channels), captureI);
      forall k | k in connections
        ensures AnnouncesAll(k.log[|old(k.log)|..], old(channels), captureI)
      {
        var first := if !captureContinuous && captureI >= captureSamples then [CaptureState(false, true)] else [];
        PacketAnnounces(old(k.log), first, old(channels), captureI);
        assert k.log == old(k.log) + first + News(old(channels), captureI, |channels|);
      }
    }

    // ---- settings ----

    /** Rebuild everything for new capture parameters. Listeners go, counters restart,
        and every client gets a complete snapshot. A finished capture stays marked
        done until the next start. */
    method Configure(mode: int, samples: nat, continuous: bool, raw: bool)
      requires Valid()
      modifies this`channels, this`devMode, this`rawMode, this`captureSamples, this`captureContinuous, this`captureI,
               this`captureO, this`captureState, this`pauses, this`listeners, connections
      ensures Valid() && !captureState && listeners == []
      ensures captureI == captureO == 0 && captureSamples == samples
      ensures captureContinuous == continuous && rawMode == raw
      ensures devMode == (if backend.M1k? then 0 else Max(0, mode))
      ensures channels == Configured(backend, mode, old(channels))
      ensures pauses == old(pauses) + if old(captureState) then 1 else 0
      ensures forall c :: c in connections ==>
                c.log == old(c.log) + (if old(captureState) then [CaptureState(false, captureDone)] else [])
                         + [DeviceConfig(Snapshot())]
    {
      hide Mirrors, Reads, Distinct, Owned, Configured, Gains, Outputs;
      ghost var p := Snapshot();
      PauseCapture();
      p := Snapshot();
      Rebuild(mode, samples, continuous, raw);
      listeners := [];
      NoListeners(channels, connections);
      Broadcast(DeviceConfig(Snapshot()), p);
    }

    method Rebuild(mode: int, samples: nat, continuous: bool, raw: bool)
      modifies this`channels, this`devMode, this`rawMode, this`captureSamples, this`captureContinuous, this`captureI,
               this`captureO
      ensures captureI == captureO == 0 && captureSamples == samples
      ensures captureContinuous == continuous && rawMode == raw
      ensures devMode == (if backend.M1k? then 0 else Max(0, mode))
      ensures channels == Configured(backend, mode, old(channels))
    {
      captureSamples, captureContinuous, rawMode := samples, continuous, raw;
      devMode := if backend.M1k? then 0 else Max(0, mode);
      captureI, captureO := 0, 0;
      channels := Configured(backend, mode, channels);
    }

    static lemma NoListeners(channels: seq<Channel>, cs: seq<ClientHandle>)
      ensures Distinct([]) && Owned([], channels, cs)
    {
    }

    /** The device's internal gain for a requested one, rounded half away from zero. */
    static function InternalGain(gain: real, normal: nat): int {
      var x := gain * normal as real;
      if x >= 0.0 then S.Round(x) else -S.Round(-x)
    }

    /** The internal gain is the nearest to the one asked for, away from zero when there are
        two, and what a stream with it reports is that over its normal gain: a gain that
        the hardware has reads back as asked. */
    static lemma GainReadsBack(gain: real, s: Stream)
      requires s.normalGain > 0
      ensures var g := InternalGain(gain, s.normalGain);
              var exact := gain * s.normalGain as real;
              && g as real - 0.5 <= exact <= g as real + 0.5
              && (exact == g as real + 0.5 ==> g < 0) && (exact == g as real - 0.5 ==> g > 0)
              && (gain == 1.0 ==> g == s.normalGain)
              && (g >= 0 ==> Gain(s.(gain := g)) * s.normalGain as real == g as real)
              && (g >= 0 && exact == g as real ==> Gain(s.(gain := g)) == gain)
    {
      var n, g := s.normalGain as real, InternalGain(gain, s.normalGain);
      if g >= 0 {
        assert g as real / n * n == g as real;
        if gain * n == g as real {
          Cancel(gain, g as real / n, n);
        }
      }
    }

    static lemma Cancel(a: real, b: real, n: real)
      requires n > 0.0 && a * n == b * n
      ensures a == b
    {
    }

    /** The hooks called and the output counter since given values, after a restart or not. */
    predicate HooksSince(starts0: nat, pauses0: nat, captureO0: nat, restarted: bool)
      reads this
    {
      if restarted then starts == starts0 + 1 && pauses == pauses0 + 1 && captureO == captureI
      else starts == starts0 && pauses == pauses0 && captureO == captureO0
    }

    /** Does the device take this gain for a stream? */
    predicate TakesGain(before: seq<Channel>, c: nat, s: nat, gain: real)
      requires HasStream(before, (c, s))
    {
      var g := InternalGain(gain, before[c].streams[s].normalGain);
      if backend.Test? then g >= 1 else backend.Cee? && c < 2 && s < 2 && g in {1, 2, 4, 8, 16, 32, 64}
    }

    function Regained(before: seq<Channel>, c: nat, s: nat, gain: real): seq<Channel>
      requires HasStream(before, (c, s))
    {
      if TakesGain(before, c, s, gain) then WithGain(before, c, s, InternalGain(gain, before[c].streams[s].normalGain))
      else before
    }

    /** The test device takes any positive gain and always reports; a CEE only takes
        the powers of two it has, restarting a running capture; an M1K has no gain. */
    method SetGain(c: nat, s: nat, gain: real, claimed: bool)
      requires Valid() && HasStream(channels, (c, s))
      modifies this`channels, this`starts, this`pauses, this`captureO, connections
      ensures Valid()
      ensures var taken := TakesGain(old(channels), c, s, gain);
              && channels == Regained(old(channels), c, s, gain)
              && HooksSince(old(starts), old(pauses), old(captureO), backend.Cee? && taken && captureState)
              && forall k :: k in connections ==>
                   k.log == old(k.log) + if taken || backend.Test?
                                         then [GainChanged(c, s, Gain(channels[c].streams[s]))] else []
    {
      hide Mirrors, Reads, Owned, Distinct, InternalGain, WithGain, Gain, Gains, Outputs;
      var g := InternalGain(gain, channels[c].streams[s].normalGain);
      ghost var p := Snapshot();
      match backend
      case M1k =>
      case Test =>
        if g >= 1 {
          StoreGain(c, s, g);
        } else {
          SameGain(p.gains, c, s);
        }
        NotifyGainChanged(c, s, p);
      case Cee => SetInternalGain(c, s, g, claimed);
    }

    method SetInternalGain(c: nat, s: nat, g: int, claimed: bool)
      requires Valid() && HasStream(channels, (c, s)) && backend.Cee?
      modifies this`channels, this`starts, this`pauses, this`captureO, connections
      ensures Valid()
      ensures var taken := c < 2 && s < 2 && g in {1, 2, 4, 8, 16, 32, 64};
              && channels == (if taken then WithGain(old(channels), c, s, g) else old(channels))
              && HooksSince(old(starts), old(pauses), old(captureO), taken && captureState)
              && forall k :: k in connections ==>
                   k.log == old(k.log) + if taken then [GainChanged(c, s, Gain(channels[c].streams[s]))] else []
    {
      hide Mirrors, Reads, Owned, Distinct, WithGain, Gain, Gains, Outputs;
      ghost var p := Snapshot();
      if c < 2 && s < 2 && g in {1, 2, 4, 8, 16, 32, 64} {
        StoreGain(c, s, g);
        if captureState {
          OnPauseCapture();
          OnStartCapture(claimed);
        }
        NotifyGainChanged(c, s, p);
      }
    }

    static lemma SameGain(gains: seq<seq<real>>, c: nat, s: nat)
      requires c < |gains| && s < |gains[c]|
      ensures gains[c := gains[c][s := gains[c][s]]] == gains
    {
      assert gains[c][s := gains[c][s]] == gains[c];
    }

    method StoreGain(c: nat, s: nat, g: nat)
      requires HasStream(channels, (c, s)) && Links()
      modifies this`channels
      ensures channels == WithGain(old(channels), c, s, g) && Links() && HasStream(channels, (c, s))
      ensures Gains(channels) == Gains(old(channels))[c := Gains(old(channels))[c][s := Gain(channels[c].streams[s])]]
      ensures Outputs(channels) == Outputs(old(channels))
    {
      hide Reads, Owned, Distinct;
      GainsWithGain(channels, c, s, g);
      channels := WithGain(channels, c, s, g);
      OwnedByShape(listeners, old(channels), channels, connections);
    }

    /** Report a gain to clients told everything else. */
    method NotifyGainChanged(c: nat, s: nat, ghost p: Public)
      requires HasStream(channels, (c, s)) && Unique(connections) && Told(p)
      requires p == Snapshot().(gains := p.gains) && c < |p.gains| && s < |p.gains[c]|
      requires Gains(channels) == p.gains[c := p.gains[c][s := Gain(channels[c].streams[s])]]
      modifies connections
      ensures Told(Snapshot())
      ensures forall k :: k in connections ==> k.log == old(k.log) + [GainChanged(c, s, Gain(channels[c].streams[s]))]
    {
      hide Mirrors;
      Broadcast(GainChanged(c, s, Gain(channels[c].streams[s])), p);
    }

    /** Does the device take this limit? Only a CEE has current limits, three of them. */
    predicate TakesLimit(limit: nat) {
      backend.Cee? && limit in {200, 400, 2000}
    }

    /** No client is told, so that a complete picture goes wrong exactly when the limit
        really changes. */
    method SetCurrentLimit(limit: nat)
      requires Valid()
      modifies this`currentLimit
      ensures Valid()
      ensures currentLimit == if TakesLimit(limit) then limit else old(currentLimit)
      ensures forall c :: c in connections ==> c.log == old(c.log)
      ensures forall c :: c in connections && old(Mirror(c.log) == Some(Snapshot())) ==>
                (Mirror(c.log) == Some(Snapshot()) <==> !(TakesLimit(limit) && limit != old(currentLimit)))
    {
      hide Reads, Owned, Distinct, Mirror;
      if TakesLimit(limit) {
        currentLimit := limit;
      }
    }

    // ---- clients ----

    /** A new client starts with a complete snapshot. */
    method OnClientAttach(client: ClientHandle)
      requires Valid() && forall c :: c in connections ==> c.id != client.id
      modifies this`connections, client
      ensures Valid() && connections == old(connections) + [client]
      ensures client.log == old(client.log) + [DeviceConfig(Snapshot())]
    {
      hide Reads, Distinct;
      connections := connections + [client];
      client.SendJson(DeviceConfig(Snapshot()));
      assert client.log[..|client.log| - 1] == old(client.log);
    }

    /** The client and all its listeners go. */
    method OnClientDetach(id: nat)
      requires Valid()
      modifies this`connections, this`listeners
      ensures Valid() && connections == Except(old(connections), id) && listeners == Orphaned(old(listeners), id)
    {
      hide Mirrors, Reads, Distinct;
      OrphanedDistinct(listeners, id);
      ghost var before := listeners;
      connections, listeners := Except(connections, id), Orphaned(listeners, id);
      forall i | 0 <= i < |listeners|
        ensures Reads(channels, listeners[i].cfg)
        ensures listeners[i].owner.Some? ==> listeners[i].owner.value in connections
      {
        assert listeners[i] in before;
      }
    }

    /** The USB device is gone. */
    method OnDisconnect()
      requires Valid()
      modifies this`listeners, connections
      ensures Valid() && listeners == []
      ensures forall c :: c in connections ==> c.log == old(c.log) + [DeviceDisconnected]
    {
      hide Mirrors, Reads;
      Broadcast(DeviceDisconnected, Snapshot());
      listeners := [];
    }

    // ---- listeners ----

    /** The listener of a client with an id, if any. */
    method FindListener(client: nat, id: int) returns (at: Option<nat>)
      ensures at.Some? ==> at.value < |listeners| && listeners[at.value].Named(client, id)
      ensures at.None? ==> forall e :: e in listeners ==> !e.Named(client, id)
    {
      for i := 0 to |listeners|
        invariant forall j :: 0 <= j < i ==> !listeners[j].Named(client, id)
      {
        if listeners[i].Named(client, id) {
          return Some(i);
        }
      }
      return None;
    }

    /** Remove the listener of a client with an id. At most one exists. */
    method CancelListen(client: nat, id: int)
      requires Valid()
      modifies this`listeners
      ensures Valid() && forall e :: e in listeners ==> !e.Named(client, id)
      ensures Cancelled(old(listeners), listeners, client, id)
    {
      hide Mirrors, Reads;
      var at := FindListener(client, id);
      if at.Some? {
        var i := at.value;
        listeners := listeners[..i] + listeners[i + 1..];
      }
    }

    /** A new listener delivers once, and is kept unless that already finished it. */
    method AddListener(e: Entry, outcome: Option<State>)
      requires Valid() && Reads(channels, e.cfg)
      requires e.owner.Some? ==>
                 e.owner.value in connections && forall o :: o in listeners ==> !o.Named(e.owner.value.id, e.cfg.id)
      modifies this`listeners
      ensures Valid()
      ensures listeners == if outcome.Some? then old(listeners) + [e.(cursor := outcome.value)] else old(listeners)
    {
      hide Mirrors, Reads, Distinct;
      if outcome.Some? {
        DistinctSnoc(listeners, e.(cursor := outcome.value));
        listeners := listeners + [e.(cursor := outcome.value)];
      }
    }

    /** The listeners after a `listen` command: the one that it replaces is gone in any
        case, the new one comes last. */
    ghost predicate Listened(before: seq<Entry>, client: ClientHandle, req: Request, outcome: Option<State>,
                             r: Result<()>)
      reads this
    {
      && (r.Ok? <==> Acceptable(channels, req)) && (r.Err? ==> Refuses(channels, req, r.message))
      && (if req.id.None? then listeners == before
          else if r.Ok? && outcome.Some? then
            && |listeners| > 0 && var e, rest := listeners[|listeners| - 1], listeners[..|listeners| - 1];
            && e.owner == Some(client) && Asks(channels, req, e.cfg) && e.cursor == outcome.value
            && Cancelled(before, rest, client.id, req.id.value)
          else Cancelled(before, listeners, client.id, req.id.value))
    }

    /** The `listen` command: replaces the client's listener of that id, even when the
        new request turns out to be unacceptable. */
    method Listen(client: ClientHandle, req: Request, outcome: Option<State>) returns (r: Result<()>)
      requires Valid() && client in connections
      modifies this`listeners
      ensures Valid()
      ensures Listened(old(listeners), client, req, outcome, r)
    {
      hide Mirrors, Reads, Distinct, Acceptable, Refuses, Cancelled, FirstNamed, Describes;
      if req.id.None? {
        RequestNeedsId(channels, req);
        return Err("JSON missing int property: id");
      }
      CancelListen(client.id, req.id.value);
      var made := MakeStreamListener(channels, captureI, req);
      if made.Err? {
        return Err(made.message);
      }
      AddListener(Entry(Some(client), made.value.0, made.value.1), outcome);
      return Ok(());
    }

    // ---- commands ----

    /** A command of an attached client. On an error nothing changes, except that a bad
        `listen` has already cancelled the listener it meant to replace. */
    method ProcessMessage(client: ClientHandle, cmd: Command) returns (r: Result<()>)
      requires Valid() && client in connections
      modifies this, connections
      ensures Valid() && connections == old(connections)
      ensures r.Err? ==>
                && unchanged(this`channels, this`captureState, this`captureDone, this`captureI, this`captureO)
                && unchanged(this`captureSamples, this`captureContinuous, this`currentLimit)
                && unchanged(this`starts, this`pauses, this`resets)
                && forall k :: k in connections ==> k.log == old(k.log)
      ensures !cmd.Listen? && !cmd.Cancel? && !cmd.Configure? && !cmd.Start? ==> unchanged(this`listeners)
      ensures !cmd.Set? && !cmd.SetGain? && !cmd.Configure? && !cmd.Start? ==> unchanged(this`channels)
      ensures !cmd.Configure? && !cmd.Start? ==> unchanged(this`captureDone, this`captureI, this`resets)
      ensures !cmd.Configure? && !cmd.Start? && !cmd.Pause? ==> unchanged(this`captureState)
      ensures !cmd.Configure? ==> unchanged(this`devMode, this`rawMode, this`captureSamples, this`captureContinuous)
      ensures cmd.Start? ==>
                && r.Ok? && captureState && !captureDone
                && captureI == if old(!captureState && captureDone) then 0 else old(captureI)
      ensures cmd.Pause? ==> r.Ok? && !captureState
      ensures cmd.Configure? ==>
                && r.Ok? && !captureState && captureSamples == cmd.samples && captureContinuous == cmd.continuous
                && listeners == [] && captureI == captureO == 0
                && channels == Configured(backend, cmd.mode, old(channels))
      ensures cmd.Set? ==>
                var c := ChannelById(old(channels), cmd.channel);
                && (r.Ok? <==> c.Some?)
                && (c.Some? ==>
                      channels == WithSource(old(channels), c.value, NewOutput(old(captureO), cmd.outputMode)))
      ensures cmd.SetGain? ==>
                var at := FindStream(old(channels), StreamRef(Some(cmd.gainChannel), Some(cmd.gainStream)));
                && (r.Ok? <==> at.Ok?)
                && (at.Ok? ==> channels == Regained(old(channels), at.value.0, at.value.1, cmd.gain))
      ensures currentLimit == if cmd.SetCurrentLimit? && TakesLimit(cmd.limit) then cmd.limit else old(currentLimit)
      ensures cmd.Listen? ==> Listened(old(listeners), client, cmd.request, cmd.outcome, r)
      ensures cmd.Cancel? ==> r.Ok? && Cancelled(old(listeners), listeners, client.id, cmd.id)
    {
      hide Valid, FindStream, ChannelById, Acceptable, Listened, Cancelled, Configured, WithSource, Regained;
      r := Ok(());
      match cmd
      case Listen(request, outcome) => r := Listen(client, request, outcome);
      case Cancel(id) => CancelListen(client.id, id);
      case Configure(mode, samples, continuous, raw) => Configure(mode, samples, continuous, raw);
      case Start(claimed) => StartCapture(claimed);
      case Pause => PauseCapture();
      case Set(channel, mode) =>
        var c := ChannelById(channels, channel);
        if c.None? {
          return Err("Channel not found");
        }
        SetOutput(c.value, mode);
      case SetGain(channel, stream, gain, claimed) =>
        var at := FindStream(channels, StreamRef(Some(channel), Some(stream)));
        if at.Err? {
          return Err(at.message);
        }
        SetGain(at.value.0, at.value.1, gain, claimed);
      case SetCurrentLimit(limit) => SetCurrentLimit(limit);
    }
  }

  /** The messages of the packet that completes the capture of `StartSampleGoesStale`. */
  lemma {:induction false} LastPacketNews(channels: seq<Channel>)
    requires |channels| == 2 && channels[0].source == Some(Output(1, 1, false))
    requires channels[1].source == Some(Output(0, 0, false))
    ensures News(channels, 256, 2) == [OutputChanged(0, Output(1, 1, true)), OutputChanged(1, Output(0, 0, true))]
    ensures Outputs(AllReached(channels, 256)) == [Some(Output(1, 1, true)), Some(Output(0, 0, true))]
    ensures Gains(AllReached(channels, 256)) == Gains(channels)
  {
    assert News(channels, 256, 1) == News(channels, 256, 0) + News1(channels, 256, 0);
    assert News(channels, 256, 2) == News(channels, 256, 1) + News1(channels, 256, 1);
  }

  /** What they leave of a complete picture. */
  lemma {:induction false} LastPacketTold(log: seq<Message>, p: Public)
    requires Mirror(log) == Some(p) && |p.outputs| == 2
    ensures Mirror(log + [CaptureState(false, true)]
                       + [OutputChanged(0, Output(1, 1, true)), OutputChanged(1, Output(0, 0, true))])
         == Some(p.(captureState := false, captureDone := true,
                    outputs := [Some(Output(1, 1, true)), Some(Output(0, 0, true))]))
  {
    hide Mirror;
    var m0 := CaptureState(false, true);
    var m1, m2 := OutputChanged(0, Output(1, 1, true)), OutputChanged(1, Output(0, 0, true));
    ExactStep(log, p, m0);
    ExactStep(log + [m0], Apply(p, m0), m1);
    ExactStep(log + [m0] + [m1], Apply(Apply(p, m0), m1), m2);
    assert log + [m0] + [m1] + [m2] == log + [m0] + [m1, m2];
    assert Apply(Apply(Apply(p, m0), m1), m2).outputs == [Some(Output(1, 1, true)), Some(Output(0, 0, true))];
  }

  /** An M1K with a finite capture under way, an output set before the start. */
  method OutputSetThenStarted() returns (dev: StreamingDevice, client: ClientHandle)
    ensures fresh(dev) && fresh(client) && dev.backend.M1k? && dev.Valid()
    ensures dev.connections == [client] && dev.listeners == []
    ensures dev.captureState && !dev.captureDone && dev.captureI == 0
    ensures dev.captureSamples == 256 && !dev.captureContinuous
    ensures Outputs(dev.channels) == [Some(Output(1, 1, false)), Some(Output(0, 0, false))]
    ensures Mirror(client.log) == Some(dev.Snapshot())
  {
    hide StreamingDevice.Valid, Mirror, News, AllReached;
    dev := new StreamingDevice(M1k, "com.analogdevices.m1k", "1", 200, 0, 256, false, false);
    client := new ClientHandle(1);
    dev.OnClientAttach(client);
    FirstTold(dev.Snapshot());
    ghost var p := dev.Snapshot();
    dev.SetOutput(0, 1);
    ExactStep([DeviceConfig(p)], p, OutputChanged(0, Output(1, 1, false)));
    assert Mirror(client.log) == Some(dev.Snapshot());
    dev.StartCapture(true);
  }

  /** The failure happens: when that capture completes and is started again. The client's
      picture is complete until then. */
  method StartSampleGoesStale() returns (dev: StreamingDevice, client: ClientHandle)
    ensures dev.backend.M1k? && dev.Valid() && dev.captureState && dev.connections == [client]
    ensures Mirror(client.log) != Some(dev.Snapshot())
  {
    hide StreamingDevice.Valid, Mirror, News, AllReached, Gains, Restarted;
    dev, client := OutputSetThenStarted();
    ghost var p, log := dev.Snapshot(), client.log;
    LastPacketNews(dev.channels);
    LastPacketTold(log, p);
    dev.Packet(256, []);
    assert Mirror(client.log) == Some(dev.Snapshot());
    assert WithoutStarts(Outputs(dev.channels))[0] != Outputs(dev.channels)[0];
    dev.StartCapture(true);
  }

  lemma FirstTold(p: Public)
    ensures Mirror([] + [DeviceConfig(p)]) == Some(p) && [] + [DeviceConfig(p)] == [DeviceConfig(p)]
  {
  }

  /** A CEE run after which a client's picture has the wrong current limit. */
  method LimitGoesStale() returns (dev: StreamingDevice, client: ClientHandle)
    ensures dev.backend.Cee? && dev.Valid() && dev.connections == [client] && dev.currentLimit == 400
    ensures Mirror(client.log) != Some(dev.Snapshot())
  {
    hide StreamingDevice.Valid, Mirror;
    dev := new StreamingDevice(Cee, "com.nonolithlabs.cee", "1", 200, 0, 256, false, false);
    client := new ClientHandle(1);
    dev.OnClientAttach(client);
    FirstTold(dev.Snapshot());
    dev.SetCurrentLimit(400);
  }

  /** A complete picture takes on the new flags with the messages of a start. */
  lemma {:induction false} ExactStart(log: seq<Message>, p: Public, done: bool)
    requires Mirror(log) == Some(p)
    ensures Mirror(log + StreamingDevice.StartMessages(done)) == Some(p.(captureState := true, captureDone := false))
  {
    hide Mirror;
    var m := CaptureState(true, false);
    if done {
      ExactStep(log, p, CaptureReset);
      ExactStep(log + [CaptureReset], p, m);
      assert log + [CaptureReset] + [m] == log + StreamingDevice.StartMessages(done);
    } else {
      ExactStep(log, p, m);
      assert [] + [m] == [m];
    }
  }

  lemma RequestNeedsId(channels: seq<Channel>, req: Request)
    requires req.id.None?
    ensures !Acceptable(channels, req) && Refuses(channels, req, "JSON missing int property: id")
  {
  }
}
