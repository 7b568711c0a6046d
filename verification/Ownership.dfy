/** Which client is attached to which device (src/ws.rs, src/device.rs), over all
    connections and all devices the server has ever had. */
module Ownership {
  import opened Common
  import opened ListenerModel
  import opened Requests
  import opened Capture
  import Q = ClientQueue

  /** One WebSocket connection: its client, and the device it selected. */
  class WsConn {
    const client: ClientHandle
    var device: StreamingDevice?

    constructor (client: ClientHandle)
      ensures this.client == client && device == null
    {
      this.client, device := client, null;
    }
  }

  ghost predicate Connected(conns: set<WsConn>, c: ClientHandle) {
    exists w :: w in conns && w.client == c
  }

  lemma ConnectedStill(conns: set<WsConn>, w: WsConn)
    ensures forall c :: Connected(conns, c) ==> Connected(conns + {w}, c)
  {
    forall c | Connected(conns, c)
      ensures Connected(conns + {w}, c)
    {
      var v :| v in conns && v.client == c;
      assert v in conns + {w};
    }
  }

  class ServerState {
    /** devices that can be selected */
    var devices: seq<StreamingDevice>
    var nextClientId: nat
    /** every open connection, and every device ever added, unplugged or not */
    ghost var conns: set<WsConn>
    ghost var known: set<StreamingDevice>
    /** every client there has been */
    ghost var clients: set<ClientHandle>

    /** An open connection's client is in the connections of exactly the device it
        points at; nobody else is; no two connections share a client id. */
    ghost predicate Attached()
      reads this, conns, known
    {
      && (forall w :: w in conns && w.device != null ==> w.device in known)
      && (forall w, d :: w in conns && d in known ==> (w.client in d.connections <==> w.device == d))
      && (forall d, c :: d in known && c in d.connections ==> Connected(conns, c))
      && (forall v, w :: v in conns && w in conns && v != w ==> v.client.id != w.client.id)
      && (forall w :: w in conns ==> w.client.id < nextClientId && w.client in clients)
    }

    ghost predicate Consistent()
      reads this, conns, known, clients
    {
      && (forall d :: d in devices ==> d in known)
      && (forall d, c :: d in known && c in d.connections ==> c in clients)
      && (forall d :: d in known ==> d.Valid())
      && Attached()
    }

    /** Two devices have no client in common. */
    lemma DevicesDisjoint(a: StreamingDevice, b: StreamingDevice, c: ClientHandle)
      requires Attached() && a in known && b in known && a != b && c in a.connections
      ensures c !in b.connections
    {
      assert Connected(conns, c);
      var w :| w in conns && w.client == c;
    }

    /** What the invariant says of one listener of one device: it belongs to a client
        whose connection points at the device, and to no other open connection. */
    lemma ListenersBelongToAttachedClients(d: StreamingDevice, e: Entry) returns (w: WsConn)
      requires Consistent() && d in known && e in d.listeners && e.owner.Some?
      ensures w in conns && w.client == e.owner.value && w.device == d && Reads(d.channels, e.cfg)
      ensures forall v :: v in conns && v.client.id == e.owner.value.id ==> v == w
      ensures multiset(d.connections)[w.client] == 1
    {
      var i :| 0 <= i < |d.listeners| && d.listeners[i] == e;
      assert e.owner.value in d.connections;
      assert Connected(conns, e.owner.value);
      w :| w in conns && w.client == e.owner.value;
      OnceInUnique(d.connections, w.client);
    }

    /** All listeners of one client, on whatever devices, are on one device. */
    lemma ListenersShareDevice(a: StreamingDevice, b: StreamingDevice, e: Entry, f: Entry)
      requires Consistent() && a in known && b in known && e in a.listeners && f in b.listeners
      requires e.owner.Some? && f.owner == e.owner
      ensures a == b
    {
      var v := ListenersBelongToAttachedClients(a, e);
      var w := ListenersBelongToAttachedClients(b, f);
    }

    /** The devices that send this client binary frames; each sends under its own lock. */
    ghost function BinarySenders(c: ClientHandle): set<StreamingDevice>
      reads this, known
    {
      set d | d in known && exists e :: e in d.listeners && e.owner == Some(c) && e.cfg.sink.WsBinary?
    }

    lemma OneBinarySender(c: ClientHandle)
      requires Consistent()
      ensures |BinarySenders(c)| <= 1
    {
      var senders := BinarySenders(c);
      if a :| a in senders {
        forall b | b in senders
          ensures b == a
        {
          var e :| e in a.listeners && e.owner == Some(c) && e.cfg.sink.WsBinary?;
          var f :| f in b.listeners && f.owner == Some(c) && f.cfg.sink.WsBinary?;
          ListenersShareDevice(a, b, e, f);
        }
        assert senders == {a};
      }
    }

    /** So the backlog of every client stays within its limit, however its one binary
        sender interleaves with the JSON senders and the receiver. */
    lemma BacklogWithinLimit<T>(c: ClientHandle, steps: seq<Q.Step<T>>)
      requires Consistent() && Q.RunFrom(Q.Initial<T>(|BinarySenders(c)|), steps)
      ensures Q.After(Q.Initial<T>(|BinarySenders(c)|), steps).counter <= Q.BINARY_BACKLOG_LIMIT
    {
      OneBinarySender(c);
      Q.Accounting<T>(|BinarySenders(c)|, steps);
    }

    lemma {:induction false} OnceInUnique(cs: seq<ClientHandle>, c: ClientHandle)
      requires Unique(cs) && c in cs
      ensures multiset(cs)[c] == 1
    {
      var last := |cs| - 1;
      assert cs == cs[..last] + [cs[last]];
      if c in cs[..last] {
        OnceInUnique(cs[..last], c);
      }
    }

    constructor ()
      ensures Consistent() && devices == [] && conns == {} && known == {} && clients == {}
    {
      devices, nextClientId, conns, known, clients := [], 1, {}, {}, {};
    }

    // ---- devices come and go ----

    method AddDevice(d: StreamingDevice)
      requires Consistent() && d.Valid() && d.connections == [] && d !in known
      modifies this`devices, this`known
      ensures Consistent() && devices == old(devices) + [d] && known == old(known) + {d}
    {
      hide StreamingDevice.Valid;
      devices, known := devices + [d], known + {d};
    }

    /** First the exact id; with a trailing star, the first device of that model. */
    method DeviceById(id: string) returns (r: StreamingDevice?)
      ensures id == "" ==> r == null
      ensures id != "" ==> (r == null <==> forall d :: d in devices ==> !Matches(d, id))
      ensures r != null ==>
                && id != "" && Matches(r, id)
                && exists i :: 0 <= i < |devices| && devices[i] == r
                               && forall j :: 0 <= j < i ==> !Matches(devices[j], id)
    {
      if id == "" {
        return null;
      }
      for i := 0 to |devices|
        invariant forall j :: 0 <= j < i ==> !Matches(devices[j], id)
      {
        if Matches(devices[i], id) {
          return devices[i];
        }
      }
      return null;
    }

    /** Its model followed by a star, or its model, a tilde and its serial number. */
    static predicate Matches(d: StreamingDevice, id: string): (r: bool)
      requires id != ""
      ensures r <==> id == d.model + "*" || (id[|id| - 1] != '*' && id == d.model + "~" + d.serial)
    {
      if id[|id| - 1] == '*' then d.model == id[..|id| - 1] else d.model + "~" + d.serial == id
    }

    // ---- connections come and go ----

    method Connect() returns (w: WsConn)
      requires Consistent()
      modifies this`conns, this`clients, this`nextClientId
      ensures Consistent() && fresh(w) && w.device == null && conns == old(conns) + {w}
    {
      hide StreamingDevice.Valid, Attached;
      var client := new ClientHandle(nextClientId);
      w := new WsConn(client);
      Register(w);
    }

    method Register(w: WsConn)
      requires Consistent() && w.device == null && w.client.id == nextClientId && w.client !in clients
      modifies this`conns, this`clients, this`nextClientId
      ensures Consistent() && conns == old(conns) + {w}
    {
      hide StreamingDevice.Valid, Connected;
      ConnectedStill(conns, w);
      conns, clients, nextClientId := conns + {w}, clients + {w.client}, nextClientId + 1;
    }

    /** Leave the selected device, if any. */
    method Detach(w: WsConn)
      requires Consistent() && w in conns
      modifies w`device, known`connections, known`listeners
      ensures Consistent() && w.device == null
      ensures forall d :: d in known ==>
                && d.connections
                   == (if d == old(w.device) then Except(old(d.connections), w.client.id) else old(d.connections))
                && d.listeners
                   == if d == old(w.device) then Orphaned(old(d.listeners), w.client.id) else old(d.listeners)
    {
      hide StreamingDevice.Valid, Except, Orphaned;
      if w.device != null {
        var d: StreamingDevice := w.device;
        w.device := null;
        d.OnClientDetach(w.client.id);
      }
    }

    /** Join a device without being on another. */
    method Attach(w: WsConn, d: StreamingDevice)
      requires Consistent() && w in conns && d in known && w.device == null
      modifies w`device, d`connections, w.client
      ensures Consistent() && w.device == d && d.connections == old(d.connections) + [w.client]
      ensures w.client.log == old(w.client.log) + [DeviceConfig(d.Snapshot())]
    {
      hide StreamingDevice.Valid;
      forall c | c in d.connections
        ensures c.id != w.client.id
      {
        assert Connected(conns, c);
      }
      d.OnClientAttach(w.client);
      w.device := d;
      assert Connected(conns, w.client);
      forall e | e in known && e != d
        ensures e.Valid()
      {
        assert w.client !in e.connections;
      }
    }

    /** Select a device: leave the old one first, even when it is the same. */
    method SelectDevice(w: WsConn, d: StreamingDevice)
      requires Consistent() && w in conns && d in known
      modifies w`device, known`connections, known`listeners, w.client
      ensures Consistent() && w.device == d
      ensures forall v :: v in conns && v != w ==> v.device == old(v.device)
      ensures w.client.log == old(w.client.log) + [DeviceConfig(d.Snapshot())]
      ensures forall e :: e in known && e != d ==> w.client !in e.connections
    {
      hide StreamingDevice.Valid, Except, Orphaned, Connected;
      Detach(w);
      Attach(w, d);
    }

    /** The connection is closed: its client leaves everything. */
    method OnClose(w: WsConn)
      requires Consistent() && w in conns
      modifies this`conns, w`device, known`connections, known`listeners
      ensures Consistent() && conns == old(conns) - {w}
      ensures forall d :: d in known ==>
                w.client !in d.connections && forall e :: e in d.listeners ==> e.owner != Some(w.client)
    {
      hide StreamingDevice.Valid, Except, Orphaned;
      Detach(w);
      ghost var before := conns;
      conns := conns - {w};
      forall d, c | d in known && c in d.connections
        ensures Connected(conns, c)
      {
        assert Connected(before, c);
        var v :| v in before && v.client == c;
        assert v in conns;
      }
      NoStrayListeners(w.client);
    }

    lemma NoStrayListeners(c: ClientHandle)
      requires Consistent() && forall d :: d in known ==> c !in d.connections
      ensures forall d, e :: d in known && e in d.listeners ==> e.owner != Some(c)
    {
      forall d, e | d in known && e in d.listeners
        ensures e.owner != Some(c)
      {
        assert d.Valid();
        var i :| 0 <= i < |d.listeners| && d.listeners[i] == e;
      }
    }

    // ---- traffic ----

    /** Work on one device that keeps its clients leaves the whole world consistent. */
    twostate lemma OneDeviceWorked(d: StreamingDevice)
      requires old(Consistent()) && d in known && d.Valid() && d.connections == old(d.connections)
      requires unchanged(this`known) && unchanged(this`conns) && unchanged(this`clients) && unchanged(this`nextClientId)
      requires forall e :: e in devices ==> e in known
      requires forall e :: e in known && e != d ==> unchanged(e)
      requires forall w :: w in conns ==> unchanged(w)
      requires forall c :: c in clients && c !in d.connections ==> unchanged(c)
      ensures Consistent()
    {
      hide Mirrors, Owned, Distinct, Unique, Connected;
      forall e | e in known && e != d
        ensures e.Valid()
      {
        forall c | c in e.connections
          ensures unchanged(c)
        {
          if c in d.connections {
            DevicesDisjoint(d, e, c);
          }
        }
        assert old(e.Valid()) && unchanged(e);
      }
    }

    /** A command goes to the selected device; without one it is ignored. */
    method OnCommand(w: WsConn, cmd: Command) returns (r: Result<()>)
      requires Consistent() && w in conns
      modifies known, clients
      ensures Consistent()
      ensures w.device == null ==>
                r.Ok? && (forall d :: d in known ==> unchanged(d)) && forall c :: c in clients ==> unchanged(c)
      ensures forall d :: d in known && d != w.device ==> unchanged(d)
      ensures forall c :: c in clients && (w.device == null || c !in w.device.connections) ==> unchanged(c)
    {
      hide StreamingDevice.Valid;
      if w.device == null {
        return Ok(());
      }
      r := w.device.ProcessMessage(w.client, cmd);
      OneDeviceWorked(w.device);
    }

    /** A packet of samples reaches one device. */
    method OnPacket(d: StreamingDevice, n: nat, outcomes: seq<Option<State>>)
      requires Consistent() && d in known && |outcomes| == |d.listeners|
      modifies d, d.connections
      ensures Consistent()
    {
      hide StreamingDevice.Valid;
      d.Packet(n, outcomes);
      OneDeviceWorked(d);
    }

    /** The device is unplugged: it can no longer be selected, its clients are told and
        its listeners go; they stay attached to it until they select another. */
    method RemoveDevice(d: StreamingDevice)
      requires Consistent() && d in known
      modifies this`devices, d`listeners, d.connections
      ensures Consistent() && d !in devices && forall e :: e in old(devices) && e != d ==> e in devices
      ensures d.listeners == [] && d.connections == old(d.connections)
      ensures forall c :: c in d.connections ==> c.log == old(c.log) + [DeviceDisconnected]
    {
      hide StreamingDevice.Valid;
      var kept := [];
      for i := 0 to |devices|
        invariant forall e :: e in kept <==> e in devices[..i] && e != d
      {
        if devices[i] != d {
          kept := kept + [devices[i]];
        }
      }
      assert devices[..|devices|] == devices;
      devices := kept;
      d.OnDisconnect();
      OneDeviceWorked(d);
    }
  }
}
