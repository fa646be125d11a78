/** Any number of workers on a broadcast medium that may lose, duplicate and reorder frames: what
    they learn is true. */
module ArpNetwork {
  import opened Options
  import opened Bytes
  import opened Codecs
  import opened TapWorker

  /** The neighbor table of each worker and every frame ever sent. */
  datatype Net = Net(tables: seq<Table>, medium: set<seq<byte>>)

  datatype Event =
    | Miss(i: nat, dest: Ip)
    | Data(i: nat, k: nat, packet: seq<byte>)
    | Deliver(i: nat, frame: seq<byte>, now: int)
    | Expire(i: nat, gone: set<nat>)

  /** IP and hardware addresses are fixed and distinct. */
  ghost predicate Distinct(ws: seq<Tun>) {
    forall i, j :: 0 <= i < j < |ws| ==> ws[i].ip != ws[j].ip && ws[i].hw != ws[j].hw
  }

  predicate Allowed(ws: seq<Tun>, n: Net, e: Event) {
    && e.i < |ws| == |n.tables|
    && (e.Data? ==> e.k in n.tables[e.i])
    && (e.Deliver? ==> e.frame in n.medium)
  }

  /** Delivering a frame leaves it on the medium, so it may be delivered again, to anyone, at any
      time, or never. */
  function Step(ws: seq<Tun>, n: Net, e: Event): Net
    requires Allowed(ws, n, e)
  {
    match e
    case Miss(i, dest) => n.(medium := n.medium + {MissFrame(ws[i], dest)})
    case Data(i, k, packet) => n.(medium := n.medium + {DataFrame(ws[i], n.tables[i][k].hw, packet)})
    case Deliver(i, frame, now) =>
      (match Heard(ws[i], frame)
       case Reply(f) => n.(medium := n.medium + {f})
       case Learn(hw, ip) => n.(tables := n.tables[i := AddNeighbor(n.tables[i], hw, ip, now)])
       case _ => n)
    case Expire(i, gone) => n.(tables := n.tables[i := n.tables[i] - gone])
  }

  ghost predicate Owns(ws: seq<Tun>, hw: Hw, ip: Ip) {
    exists j :: 0 <= j < |ws| && ws[j] == Tun(hw, ip)
  }

  /** A frame that can teach anyone anything teaches the truth. */
  ghost predicate Truthful(ws: seq<Tun>, frame: seq<byte>) {
    forall w: Tun :: Heard(w, frame).Learn? ==> Owns(ws, Heard(w, frame).hw, Heard(w, frame).ip)
  }

  ghost predicate TrueTable(ws: seq<Tun>, t: Table) {
    forall k :: k in t ==> GetU32(t[k].ip) == k && Owns(ws, t[k].hw, t[k].ip)
  }

  ghost predicate Inv(ws: seq<Tun>, n: Net) {
    && |n.tables| == |ws|
    && (forall f :: f in n.medium ==> Truthful(ws, f))
    && (forall i :: 0 <= i < |n.tables| ==> TrueTable(ws, n.tables[i]))
  }

  /** How a worker reads an encoded ARP message: it hears it unless it is addressed to all zeros. */
  lemma ReadsArp(w: Tun, dst: Hw, a: Arp)
    ensures Heard(w, ArpFrame(dst, a)) == if dst == ETH_ZERO then NotArp else React(w, Ether(dst, a.sHw, ETH_ARP), a)
  {
    var f := ArpFrame(dst, a);
    EtherDecodes(Ether(dst, a.sHw, ETH_ARP), EncodeArp(a));
    assert f[14..] == EncodeArp(a) + [];
    ArpDecodes(a, []);
    EthernetIsNotControl(Ether(dst, a.sHw, ETH_ARP), EncodeArp(a));
  }

  lemma MissTruthful(ws: seq<Tun>, w: Tun, dest: Ip)
    ensures Truthful(ws, MissFrame(w, dest))
  {
    forall x: Tun ensures !Heard(x, MissFrame(w, dest)).Learn? {
      ReadsArp(x, ETH_ALL, Arp(1, ETH_IP4, ARP_REQUEST, w.hw, w.ip, ETH_ZERO, dest));
    }
  }

  lemma ReplyTruthful(ws: seq<Tun>, i: nat, to: Tun)
    requires i < |ws|
    ensures Truthful(ws, ReplyFrame(ws[i], to))
  {
    forall x: Tun | Heard(x, ReplyFrame(ws[i], to)).Learn?
      ensures Heard(x, ReplyFrame(ws[i], to)) == Learn(ws[i].hw, ws[i].ip)
    {
      ReadsArp(x, to.hw, Arp(1, ETH_IP4, ARP_REPLY, ws[i].hw, ws[i].ip, to.hw, to.ip));
    }
    assert Owns(ws, ws[i].hw, ws[i].ip);
  }

  lemma DataTruthful(ws: seq<Tun>, w: Tun, dst: Hw, packet: seq<byte>)
    ensures Truthful(ws, DataFrame(w, dst, packet))
  {
    EtherDecodes(Ether(dst, w.hw, ETH_IP4), packet);
  }

  lemma LearnKeeps(ws: seq<Tun>, t: Table, hw: Hw, ip: Ip, now: int)
    requires TrueTable(ws, t) && Owns(ws, hw, ip)
    ensures TrueTable(ws, AddNeighbor(t, hw, ip, now))
  {
    var k := GetU32(ip);
    if k in t {
      U32PutGet(ip);
      U32PutGet(t[k].ip);
      assert t[k].ip == ip;
    }
  }

  lemma StepKeeps(ws: seq<Tun>, n: Net, e: Event)
    requires Inv(ws, n) && Allowed(ws, n, e)
    ensures Inv(ws, Step(ws, n, e))
  {
    hide MissFrame, DataFrame, ReplyFrame, AddNeighbor, TrueTable, Truthful;
    match e
    case Miss(i, dest) => MissTruthful(ws, ws[i], dest);
    case Data(i, k, packet) => DataTruthful(ws, ws[i], n.tables[i][k].hw, packet);
    case Deliver(i, frame, now) => DeliverKeeps(ws, n, i, frame, now);
    case Expire(i, gone) => ExpireKeeps(ws, n.tables[i], gone);
  }

  lemma ExpireKeeps(ws: seq<Tun>, t: Table, gone: set<nat>)
    requires TrueTable(ws, t)
    ensures TrueTable(ws, t - gone)
  {
  }

  lemma DeliverKeeps(ws: seq<Tun>, n: Net, i: nat, frame: seq<byte>, now: int)
    requires Inv(ws, n) && Allowed(ws, n, Deliver(i, frame, now))
    ensures Inv(ws, Step(ws, n, Deliver(i, frame, now)))
  {
    assert Truthful(ws, frame);
    var r := Heard(ws[i], frame);
    if r.Reply? {
      var a := DecodeArp(frame[14..]).value;
      ReplyTruthful(ws, i, Tun(a.sHw, a.sIp));
    } else if r.Learn? {
      LearnKeeps(ws, n.tables[i], r.hw, r.ip, now);
    }
  }

  ghost predicate Run(ws: seq<Tun>, nets: seq<Net>, events: seq<Event>) {
    && |nets| == |events| + 1
    && nets[0] == Net(seq(|ws|, _ => map[]), {})
    && (forall i :: 0 <= i < |events| ==>
          Allowed(ws, nets[i], events[i]) && nets[i + 1] == Step(ws, nets[i], events[i]))
  }

  lemma {:induction false} RunKeeps(ws: seq<Tun>, nets: seq<Net>, events: seq<Event>, i: nat)
    requires Run(ws, nets, events) && i < |nets|
    ensures Inv(ws, nets[i])
  {
    hide Step;
    if i > 0 {
      RunKeeps(ws, nets, events, i - 1);
      StepKeeps(ws, nets[i - 1], events[i - 1]);
    }
  }

  /** In every run every neighbor entry binds an IP address to the hardware address of the worker
      that owns it. */
  lemma NeighborsAreTrue(ws: seq<Tun>, nets: seq<Net>, events: seq<Event>, t: nat, i: nat, k: nat, j: nat)
    requires Distinct(ws) && Run(ws, nets, events) && t < |nets| && i < |nets[t].tables| && k in nets[t].tables[i]
    requires j < |ws| && GetU32(ws[j].ip) == k
    ensures nets[t].tables[i][k].ip == ws[j].ip && nets[t].tables[i][k].hw == ws[j].hw
  {
    hide Step;
    RunKeeps(ws, nets, events, t);
    var e := nets[t].tables[i][k];
    assert TrueTable(ws, nets[t].tables[i]);
    var o :| 0 <= o < |ws| && ws[o] == Tun(e.hw, e.ip);
    U32PutGet(e.ip);
    U32PutGet(ws[j].ip);
    assert o == j;
  }

  /** The protocol does its work: a request that reaches the owner is answered, and the answer, when
      it reaches the asker, is heard if and only if the asker's hardware address is not all zeros. */
  lemma Resolves(asker: Tun, owner: Tun)
    ensures Heard(owner, MissFrame(asker, owner.ip)) == Reply(ReplyFrame(owner, asker))
    ensures Heard(asker, ReplyFrame(owner, asker)) == Learn(owner.hw, owner.ip) <==> asker.hw != ETH_ZERO
  {
    ReadsArp(owner, ETH_ALL, Arp(1, ETH_IP4, ARP_REQUEST, asker.hw, asker.ip, ETH_ZERO, owner.ip));
    ReadsArp(asker, asker.hw, Arp(1, ETH_IP4, ARP_REPLY, owner.hw, owner.ip, asker.hw, asker.ip));
  }

  /** A worker may own the all-zero hardware address: a run in which another one learns it and then
      wraps a packet for it, and the packet does not reach its owner's device. */
  lemma ZeroNeighborGetsNothing(a: Tun, b: Tun, packet: seq<byte>) returns (nets: seq<Net>, events: seq<Event>)
    requires a.hw != ETH_ZERO && b.hw == ETH_ZERO && a.ip != b.ip
    ensures Distinct([a, b]) && Run([a, b], nets, events) && |events| == 4
    ensures GetU32(b.ip) in nets[3].tables[0] && events[3] == Data(0, GetU32(b.ip), packet)
    ensures DataFrame(a, b.hw, packet) in nets[4].medium && ToDevice(b, DataFrame(a, b.hw, packet)) == None
  {
    hide MissFrame, ReplyFrame, DataFrame, Heard, ToDevice, GetU32;
    var ws, k := [a, b], GetU32(b.ip);
    var miss, reply, data := MissFrame(a, b.ip), ReplyFrame(b, a), DataFrame(a, b.hw, packet);
    Resolves(a, b);
    DataToDevice(a, b, b.hw, packet);
    var n0 := Net([map[], map[]], {});
    assert seq(|ws|, _ => map[]) == n0.tables;
    var n1, n2 := Net([map[], map[]], {miss}), Net([map[], map[]], {miss, reply});
    var n3 := Net([map[k := Neighbor(b.hw, b.ip, 0, 0)], map[]], {miss, reply});
    var e0, e1, e2, e3 := Miss(0, b.ip), Deliver(1, miss, 0), Deliver(0, reply, 0), Data(0, k, packet);
    assert Step(ws, n0, e0) == n1;
    assert Step(ws, n1, e1) == n2;
    assert AddNeighbor(map[], b.hw, b.ip, 0) == map[k := Neighbor(b.hw, b.ip, 0, 0)];
    assert Step(ws, n2, e2) == n3;
    nets, events := [n0, n1, n2, n3, Step(ws, n3, e3)], [e0, e1, e2, e3];
  }
}
