/** The user-space learning bridge: its forwarding table against the history of frames, and where
    a frame is sent. */
module Bridge {
  import opened Bytes

  datatype Fdb = Fdb(device: nat, uptime: int)

  type Macs = map<Hw, Fdb>

  /** A group address has the low bit of its first byte set. */
  predicate Group(m: Hw) { m[0] % 2 == 1 }

  /** Bytes of a frame; the receive buffer behind a short frame holds zeros. */
  function At(data: seq<byte>, i: nat): byte { if i < |data| then data[i] else 0 }

  function Addr(data: seq<byte>, at: nat): (m: Hw)
    ensures at + 6 <= |data| ==> m == data[at..at + 6]
  {
    [At(data, at), At(data, at + 1), At(data, at + 2), At(data, at + 3), At(data, at + 4), At(data, at + 5)]
  }

  /** Bytes 0 to 5 and 6 to 11. */
  function Dst(data: seq<byte>): (m: Hw) ensures 6 <= |data| ==> m == data[..6] { Addr(data, 0) }
  function Src(data: seq<byte>): (m: Hw) ensures 12 <= |data| ==> m == data[6..12] { Addr(data, 6) }

  // ---- The forwarding table.

  /** A frame from a unicast source makes that source an entry of the port it came in on. */
  function Learned(t: Macs, mac: Hw, port: nat, now: int): Macs {
    if Group(mac) then t else t[mac := Fdb(port, now)]
  }

  function Expired(t: Macs, timeout: int, now: int): Macs {
    map m | m in t && now - t[m].uptime <= timeout :: t[m]
  }

  datatype Event = Frame(src: Hw, port: nat, time: int) | Tick(time: int)

  /** The table after a history of frames and expiry ticks. */
  function Table(h: seq<Event>, timeout: int): Macs {
    if h == [] then map[]
    else
      var t, e := Table(h[..|h| - 1], timeout), h[|h| - 1];
      match e
      case Frame(src, port, time) => Learned(t, src, port, time)
      case Tick(time) => Expired(t, timeout, time)
  }

  /** Event `i` is the latest frame from `mac`, and no later tick found it older than the timeout. */
  ghost predicate Current(h: seq<Event>, timeout: int, mac: Hw, i: nat) {
    && i < |h| && h[i].Frame? && h[i].src == mac && mac[0] % 2 == 0
    && (forall j :: i < j < |h| ==> !(h[j].Frame? && h[j].src == mac))
    && (forall j :: i < j < |h| && h[j].Tick? ==> h[j].time - h[i].time <= timeout)
  }

  /** For every history the table holds exactly the sources with a current frame, with the port and
      time of that frame. */
  lemma {:induction false} TableOfHistory(h: seq<Event>, timeout: int, mac: Hw)
    ensures mac in Table(h, timeout) <==> exists i: nat :: Current(h, timeout, mac, i)
    ensures forall i: nat :: Current(h, timeout, mac, i) ==>
              mac in Table(h, timeout) && Table(h, timeout)[mac] == Fdb(h[i].port, h[i].time)
  {
    hide Group, Current;
    Bounded(h, timeout, mac);
    if h != [] {
      var n := |h| - 1;
      var g, e := h[..n], h[n];
      TableOfHistory(g, timeout, mac);
      Bounded(g, timeout, mac);
      assert Table(h, timeout) == if e.Tick? then Expired(Table(g, timeout), timeout, e.time)
                                  else Learned(Table(g, timeout), e.src, e.port, e.time);
      forall i: nat | i < n
        ensures Current(h, timeout, mac, i) <==>
                Current(g, timeout, mac, i) && (if e.Tick? then e.time - h[i].time <= timeout else e.src != mac)
      {
        OneMore(g, e, timeout, mac, i);
        assert g + [e] == h;
      }
      Within(h, timeout, mac);
      if mac in Table(h, timeout) && !(e.Frame? && e.src == mac) {
        var i: nat :| Current(g, timeout, mac, i);
        assert Current(h, timeout, mac, i);
      }
    }
  }

  lemma Bounded(h: seq<Event>, timeout: int, mac: Hw)
    ensures forall i: nat :: Current(h, timeout, mac, i) ==> i < |h| && h[i].Frame? && !Group(mac)
  {
  }

  /** The newest event is current if it is a frame of the source. */
  lemma Within(h: seq<Event>, timeout: int, mac: Hw)
    requires h != []
    ensures Current(h, timeout, mac, |h| - 1) <==> h[|h| - 1].Frame? && h[|h| - 1].src == mac && !Group(mac)
  {
  }

  lemma OneMore(g: seq<Event>, e: Event, timeout: int, mac: Hw, i: nat)
    requires i < |g|
    ensures Current(g + [e], timeout, mac, i) <==>
            Current(g, timeout, mac, i) && (if e.Tick? then e.time - g[i].time <= timeout else e.src != mac)
  {
    var h := g + [e];
    assert h[|g|] == e;
    assert forall j :: 0 <= j < |g| ==> h[j] == g[j];
  }

  /** No group address is ever learned, so a frame to one is always flooded. */
  lemma {:induction false} NoGroupLearned(h: seq<Event>, timeout: int, mac: Hw)
    requires mac[0] % 2 == 1
    ensures mac !in Table(h, timeout)
  {
    TableOfHistory(h, timeout, mac);
  }

  // ---- The bridge.

  /** `names` lists each port but the source once. */
  ghost predicate AllBut(ports: map<string, nat>, from: nat, names: seq<string>) {
    && (forall i, j :: 0 <= i < j < |names| ==> names[i] != names[j])
    && (forall n :: n in names <==> n in ports && ports[n] != from)
  }

  function PortsOf(ports: map<string, nat>, names: seq<string>): (outs: seq<nat>)
    requires forall n :: n in names ==> n in ports
    ensures |outs| == |names| && forall i :: 0 <= i < |outs| ==> outs[i] == ports[names[i]]
  {
    seq(|names|, i requires 0 <= i < |names| => ports[names[i]])
  }

  class VirtualBridge {
    var ports: map<string, nat>
    var macs: Macs
    const timeout: int
    var recv: nat
    var send: nat
    var drop: nat
    var sent: seq<nat>            // the ports a frame was sent to, in order
    ghost var history: seq<Event>

    ghost predicate Valid() reads this { macs == Table(history, timeout) }

    constructor ()
      ensures Valid() && timeout == 300 && ports == map[] && sent == [] && recv == send == drop == 0 && history == []
    {
      ports, macs, timeout := map[], map[], 5 * 60;
      recv, send, drop, sent, history := 0, 0, 0, [], [];
    }

    method AddSlave(name: string, port: nat)
      modifies this`ports
      ensures ports == old(ports)[name := port]
    {
      ports := ports[name := port];
    }

    method DelSlave(name: string)
      modifies this`ports
      ensures ports == old(ports) - {name}
    {
      if name in ports {
        ports := ports - {name};
      }
    }

    method Learn(data: seq<byte>, from: nat, now: int)
      requires Valid()
      modifies this`macs, this`history
      ensures Valid() && history == old(history) + [Frame(Src(data), from, now)]
    {
      var mac := Src(data);
      assert (history + [Frame(mac, from, now)])[..|history|] == history;
      history := history + [Frame(mac, from, now)];
      if mac[0] % 2 == 1 {
        return;
      }
      if mac in macs {
        macs := macs[mac := macs[mac].(uptime := now, device := from)];
        return;
      }
      macs := macs[mac := Fdb(from, now)];
    }

    method UniCast(data: seq<byte>, from: nat, up: set<nat>) returns (found: bool)
      modifies this`send, this`drop, this`sent
      ensures found <==> Dst(data) in macs
      ensures !found ==> sent == old(sent) && send == old(send) && drop == old(drop)
      ensures found ==>
                var port := macs[Dst(data)].device;
                if port != from && port in up
                then sent == old(sent) + [port] && send == old(send) + 1 && drop == old(drop)
                else sent == old(sent) && send == old(send) && drop == old(drop) + 1
    {
      var dst := Dst(data);
      if dst !in macs {
        return false;
      }
      var out := macs[dst].device;
      if out != from && out in up {
        send := send + 1;
        sent := sent + [out];
      } else {
        drop := drop + 1;
      }
      return true;
    }

    /** Collects the ports under the lock, then sends to each of them. */
    method Flood(from: nat) returns (ghost names: seq<string>)
      modifies this`send, this`sent
      ensures AllBut(ports, from, names)
      ensures sent == old(sent) + PortsOf(ports, names) && send == old(send) + |names|
    {
      var outs: seq<nat> := [];
      names := [];
      var left := ports.Keys;
      while left != {}
        invariant left <= ports.Keys
        invariant forall i, j :: 0 <= i < j < |names| ==> names[i] != names[j]
        invariant forall n :: n in names <==> n in ports && n !in left && ports[n] != from
        invariant outs == PortsOf(ports, names)
        decreases left
      {
        var n :| n in left;
        if ports[n] != from {
          outs := outs + [ports[n]];
          assert PortsOf(ports, names + [n]) == PortsOf(ports, names) + [ports[n]];
          names := names + [n];
        }
        left := left - {n};
      }
      var i := 0;
      while i < |outs|
        invariant i <= |outs|
        invariant sent == old(sent) + outs[..i] && send == old(send) + i
      {
        send := send + 1;
        sent := sent + [outs[i]];
        i := i + 1;
      }
    }

    /** A frame that came in: learn its source, then forward it.  If its destination is the source of a
        current frame of the history, it goes to the port of that frame and nowhere else, and is
        dropped if that is down or its own source; any other destination, and so every group
        address, gets it on every port but the source. */
    method Input(data: seq<byte>, from: nat, up: set<nat>, now: int) returns (ghost names: seq<string>)
      requires Valid()
      modifies this`recv, this`macs, this`history, this`send, this`drop, this`sent
      ensures Valid() && history == old(history) + [Frame(Src(data), from, now)] && recv == old(recv) + 1
      ensures old(sent) <= sent
      ensures var outs := sent[|old(sent)|..];
              && from !in outs && send == old(send) + |outs|
              && (forall i: nat :: Current(history, timeout, Dst(data), i) ==>
                    if history[i].port != from && history[i].port in up
                    then outs == [history[i].port] && drop == old(drop)
                    else outs == [] && drop == old(drop) + 1)
              && ((forall i: nat :: !Current(history, timeout, Dst(data), i)) ==>
                    AllBut(ports, from, names) && outs == PortsOf(ports, names) && drop == old(drop))
    {
      hide Current, Table, Addr, Dst, Src;
      recv := recv + 1;
      Learn(data, from, now);
      TableOfHistory(history, timeout, Dst(data));
      var found := UniCast(data, from, up);
      names := [];
      if !found {
        names := Flood(from);
      }
    }

    /** Collects the entries that are too old, then deletes them. */
    method Expire(now: int)
      requires Valid()
      modifies this`macs, this`history
      ensures Valid() && history == old(history) + [Tick(now)]
    {
      ghost var was := macs;
      var deletes: set<Hw> := {};
      var left := macs.Keys;
      while left != {}
        invariant left <= macs.Keys
        invariant deletes == set m | m in macs && m !in left && now - macs[m].uptime > timeout
        decreases left
      {
        var m :| m in left;
        if now - macs[m].uptime > timeout {
          deletes := deletes + {m};
        }
        left := left - {m};
      }
      macs := macs - deletes;
      assert macs == Expired(was, timeout, now);
      assert (history + [Tick(now)])[..|history|] == history;
      history := history + [Tick(now)];
    }
  }
}
