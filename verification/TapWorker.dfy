/** A TUN endpoint that speaks ethernet: it wraps the IPv4 packets of its device in frames,
    answers ARP requests for its own address and learns from ARP replies. */
module TapWorker {
  import opened Options
  import opened Bytes
  import opened Codecs

  const ARP_REQUEST: nat := 1
  const ARP_REPLY: nat := 2
  const ETH_ZERO: Hw := [0, 0, 0, 0, 0, 0]
  const ETH_ALL: Hw := [0xff, 0xff, 0xff, 0xff, 0xff, 0xff]

  /** The address pair of a worker. */
  datatype Tun = Tun(hw: Hw, ip: Ip)

  datatype Neighbor = Neighbor(hw: Hw, ip: Ip, uptime: int, newTime: int)

  /** Keyed by the number of the IP address. */
  type Table = map<nat, Neighbor>

  // ---- Frames.

  function ArpFrame(dst: Hw, a: Arp): seq<byte> {
    EncodeEther(Ether(dst, a.sHw, ETH_ARP)) + EncodeArp(a)
  }

  /** The request for `dest` that `onMiss` broadcasts. */
  function MissFrame(w: Tun, dest: Ip): seq<byte> {
    ArpFrame(ETH_ALL, Arp(1, ETH_IP4, ARP_REQUEST, w.hw, w.ip, ETH_ZERO, dest))
  }

  /** The answer to a request of `to`. */
  function ReplyFrame(w: Tun, to: Tun): seq<byte> {
    ArpFrame(to.hw, Arp(1, ETH_IP4, ARP_REPLY, w.hw, w.ip, to.hw, to.ip))
  }

  function DataFrame(w: Tun, dst: Hw, packet: seq<byte>): seq<byte> {
    EncodeEther(Ether(dst, w.hw, ETH_IP4)) + packet
  }

  // ---- What a worker makes of a frame.

  /** `Learn` names the sender of a reply, `Reply` the frame to send back. */
  datatype Reaction = NotArp | Ignore | Reply(frame: seq<byte>) | Learn(hw: Hw, ip: Ip)

  function ArpReaction(w: Tun, data: seq<byte>): Reaction {
    var eth := DecodeEther(data);
    if eth.None? || eth.value.etype != ETH_ARP then NotArp
    else
      var arp := DecodeArp(data[14..]);
      if arp.None? then NotArp
      else React(w, eth.value, arp.value)
  }

  function React(w: Tun, eth: Ether, arp: Arp): Reaction {
    if arp.pro != ETH_IP4 || eth.src != arp.sHw then Ignore
    else if arp.op == ARP_REQUEST then
      if arp.tIp == w.ip then Reply(ReplyFrame(w, Tun(arp.sHw, arp.sIp))) else Ignore
    else if arp.op == ARP_REPLY then
      if arp.tHw == w.hw then Learn(arp.sHw, arp.sIp) else Ignore
    else Ignore
  }

  /** An entry that exists keeps its creation time and gets the new hardware address. */
  function AddNeighbor(t: Table, hw: Hw, ip: Ip, now: int): Table {
    var k := GetU32(ip);
    if k in t then t[k := t[k].(uptime := now, hw := hw)] else t[k := Neighbor(hw, ip, now, now)]
  }

  predicate IsControl(data: seq<byte>) { |data| >= 6 && data[..6] == ETH_ZERO }

  /** What reaches the device of a worker that received `data`: control frames are handled by the
      socket worker, ARP by `toArp`, other types are dropped. */
  function ToDevice(w: Tun, data: seq<byte>): Option<seq<byte>> {
    if IsControl(data) || ArpReaction(w, data) != NotArp then None
    else
      var eth := DecodeEther(data);
      if eth.Some? && eth.value.etype == ETH_IP4 then Some(data[14..]) else None
  }

  /** What a worker makes of a frame that its socket hands over: control frames never get to `toArp`. */
  function Heard(w: Tun, data: seq<byte>): Reaction {
    if IsControl(data) then NotArp else ArpReaction(w, data)
  }

  /** A wrapped packet reaches the other device if and only if the hardware address it was wrapped
      for is not all zeros; with that address the frame would be taken for a control message. */
  lemma DataToDevice(from: Tun, to: Tun, dst: Hw, packet: seq<byte>)
    ensures ToDevice(to, DataFrame(from, dst, packet)) == if dst != ETH_ZERO then Some(packet) else None
  {
    var frame := DataFrame(from, dst, packet);
    EtherDecodes(Ether(dst, from.hw, ETH_IP4), packet);
    assert frame[..6] == dst && frame[14..] == packet;
  }

  // ---- The same by bytes.

  /** The request and the reply as they go out: the layout of RFC 826 in an ethernet frame. */
  lemma ArpLayout(w: Tun, dest: Ip, to: Tun)
    ensures MissFrame(w, dest) == [0xff, 0xff, 0xff, 0xff, 0xff, 0xff] + w.hw + [8, 6] +
                                  [0, 1, 8, 0, 6, 4, 0, 1] + w.hw + w.ip + [0, 0, 0, 0, 0, 0] + dest
    ensures ReplyFrame(w, to) == to.hw + w.hw + [8, 6] + [0, 1, 8, 0, 6, 4, 0, 2] + w.hw + w.ip + to.hw + to.ip
  {
    assert PutU16(0x0806) == [8, 6] && PutU16(1) == [0, 1] && PutU16(2) == [0, 2] && PutU16(0x0800) == [8, 0];
    hide PutU16;
    var head := [0, 1, 8, 0, 6, 4];
    assert [0, 1] + [8, 0] + [6, 4] == head && head + [0, 1] == [0, 1, 8, 0, 6, 4, 0, 1];
    assert head + [0, 2] == [0, 1, 8, 0, 6, 4, 0, 2];
  }

  lemma DataLayout(w: Tun, dst: Hw, packet: seq<byte>)
    ensures DataFrame(w, dst, packet) == dst + w.hw + [8, 0] + packet
  {
    assert PutU16(0x0800) == [8, 0];
  }

  /** A frame is written to the device if and only if it is not addressed to all zeros and is of the
      IPv4 type, and what is written is all that follows the ethernet header. */
  lemma DeviceBytes(w: Tun, data: seq<byte>)
    ensures ToDevice(w, data) == if IsIpv4(data) && data[..6] != [0, 0, 0, 0, 0, 0] then Some(data[14..]) else None
  {
    if 14 <= |data| { Types(data); }
  }

  /** What a worker makes of a frame, by its bytes. */
  lemma HeardBytes(w: Tun, data: seq<byte>)
    ensures Heard(w, data) ==
            if !IsArp(data) || |data| < 42 || data[18] != 6 || data[19] != 4 || data[..6] == [0, 0, 0, 0, 0, 0]
            then NotArp
            else if Two(data, 16) != 0x0800 || data[6..12] != data[22..28] then Ignore
            else if Two(data, 20) == 1 && data[38..42] == w.ip then Reply(ReplyFrame(w, Tun(data[22..28], data[28..32])))
            else if Two(data, 20) == 2 && data[32..38] == w.hw then Learn(data[22..28], data[28..32])
            else Ignore
  {
    hide DecodeArp, ReplyFrame;
    if 14 <= |data| {
      Types(data);
      ArpParts(data);
    }
  }

  // ---- The neighbor table.

  datatype Answer = Answer(hw: Hw, ip: Ip, now: int)

  /** The table after a list of replies. */
  function Answered(t: Table, answers: seq<Answer>): Table {
    if answers == [] then t
    else
      var n := |answers| - 1;
      AddNeighbor(Answered(t, answers[..n]), answers[n].hw, answers[n].ip, answers[n].now)
  }

  /** Reply `i` is the latest for the address with number `k`. */
  ghost predicate LatestAnswer(answers: seq<Answer>, k: nat, i: nat) {
    i < |answers| && GetU32(answers[i].ip) == k && forall j :: i < j < |answers| ==> GetU32(answers[j].ip) != k
  }

  /** After any replies an address has the hardware address and the time of its latest reply, and
      the entry of an address without a reply is as it was; an entry that existed keeps the time at which
      it was made. */
  lemma {:induction false} NeighborOfAnswers(t: Table, answers: seq<Answer>, k: nat)
    ensures forall i: nat :: LatestAnswer(answers, k, i) ==>
              && k in Answered(t, answers) && Answered(t, answers)[k].hw == answers[i].hw
              && Answered(t, answers)[k].uptime == answers[i].now
    ensures (forall i: nat :: !LatestAnswer(answers, k, i)) ==>
              (k in Answered(t, answers) <==> k in t) && (k in t ==> Answered(t, answers)[k] == t[k])
    ensures k in t ==> k in Answered(t, answers) && Answered(t, answers)[k].newTime == t[k].newTime
  {
    hide GetU32;
    if answers != [] {
      var n := |answers| - 1;
      NeighborOfAnswers(t, answers[..n], k);
      forall i: nat ensures LatestAnswer(answers, k, i) <==>
                            if GetU32(answers[n].ip) == k then i == n else LatestAnswer(answers[..n], k, i)
      {
        assert i < n ==> answers[..n][i] == answers[i];
      }
      assert GetU32(answers[n].ip) == k ==> LatestAnswer(answers, k, n);
      if GetU32(answers[n].ip) != k && exists i: nat :: LatestAnswer(answers[..n], k, i) {
        var i: nat :| LatestAnswer(answers[..n], k, i);
        assert LatestAnswer(answers, k, i);
      }
    }
  }

  // ---- Control messages.

  /** The frame of an action such as "logi= " with a body. */
  function ControlFrame(action: seq<byte>, body: seq<byte>): seq<byte>
    requires |action| >= 6
  {
    ETH_ZERO + (action[..4] + action[4..][..2] + body)
  }

  /** Action and parameters of a control frame. */
  function DecodeControl(data: seq<byte>): Option<(seq<byte>, seq<byte>)> {
    if IsControl(data) && |data| >= 12 then Some((data[6..12], data[12..])) else None
  }

  /** A control frame is always recognised and carries its body; it carries its action exactly if
      that is six bytes long.  No frame to a non-zero hardware address is ever taken for one. */
  lemma ControlRoundTrip(action: seq<byte>, body: seq<byte>)
    requires |action| >= 6
    ensures IsControl(ControlFrame(action, body))
    ensures DecodeControl(ControlFrame(action, body)) == Some((action[..6], body))
    ensures DecodeControl(ControlFrame(action, body)) == Some((action, body)) <==> |action| == 6
  {
    var f := ControlFrame(action, body);
    assert f[..6] == ETH_ZERO && f[12..] == body;
    assert action[..4] + action[4..][..2] == action[..6];
    assert f[6..12] == action[..6];
    assert |action| == 6 ==> action[..6] == action;
  }

  lemma EthernetIsNotControl(e: Ether, payload: seq<byte>)
    ensures IsControl(EncodeEther(e) + payload) <==> e.dst == ETH_ZERO
  {
    assert (EncodeEther(e) + payload)[..6] == e.dst;
  }

  // ---- The worker.

  class Worker {
    var ether: Tun
    var neighbors: Table
    var sent: seq<seq<byte>>     // frames handed to the listener
    var written: seq<seq<byte>>  // packets written to the TUN device

    constructor (ether: Tun)
      ensures this.ether == ether && neighbors == map[] && sent == [] && written == []
    {
      this.ether, neighbors, sent, written := ether, map[], [], [];
    }

    method OnMiss(dest: Ip)
      modifies this`sent
      ensures sent == old(sent) + [MissFrame(ether, dest)]
    {
      var eth := Ether(ETH_ALL, ether.hw, ETH_ARP);
      var request := Arp(1, ETH_IP4, ARP_REQUEST, ether.hw, ether.ip, ETH_ZERO, dest);
      sent := sent + [EncodeEther(eth) + EncodeArp(request)];
    }

    /** A packet read from the device: wrapped for the neighbor that is its next hop, or dropped
        after asking who that is. */
    method OnFrame(data: seq<byte>, next: Option<Ip>) returns (size: nat)
      modifies this`sent
      ensures DecodeIpv4(data).None? ==> size == 0 && sent == old(sent)
      ensures DecodeIpv4(data).Some? ==>
                var dest := if next.Some? then next.value else DecodeIpv4(data).value.destination;
                var k := GetU32(dest);
                if k in neighbors
                then size == 14 + |data| && sent == old(sent) + [DataFrame(ether, neighbors[k].hw, data)]
                else size == 0 && sent == old(sent) + [MissFrame(ether, dest)]
    {
      var iph := DecodeIpv4(data);
      if iph.None? {
        return 0;
      }
      var dest := if next.Some? then next.value else iph.value.destination;
      var k := GetU32(dest);
      if k !in neighbors {
        OnMiss(dest);
        return 0;
      }
      sent := sent + [EncodeEther(Ether(neighbors[k].hw, ether.hw, ETH_IP4)) + data];
      size := 14 + |data|;
    }

    method ToArp(data: seq<byte>, now: int) returns (handled: bool)
      modifies this`sent, this`neighbors
      ensures var r := ArpReaction(ether, data);
              && handled == (r != NotArp)
              && sent == (if r.Reply? then old(sent) + [r.frame] else old(sent))
              && neighbors == (if r.Learn? then AddNeighbor(old(neighbors), r.hw, r.ip, now) else old(neighbors))
    {
      var eth := DecodeEther(data);
      if eth.None? || eth.value.etype != ETH_ARP {
        return false;
      }
      var arp := DecodeArp(data[14..]);
      if arp.None? {
        return false;
      }
      var a := arp.value;
      if a.pro == ETH_IP4 && eth.value.src == a.sHw {
        if a.op == ARP_REQUEST {
          if a.tIp == ether.ip {
            var rep := Arp(1, ETH_IP4, ARP_REPLY, ether.hw, ether.ip, a.sHw, a.sIp);
            sent := sent + [EncodeEther(Ether(a.sHw, ether.hw, ETH_ARP)) + EncodeArp(rep)];
          }
        } else if a.op == ARP_REPLY {
          if a.tHw == ether.hw {
            neighbors := AddNeighbor(neighbors, a.sHw, a.sIp, now);
          }
        }
      }
      return true;
    }

    /** A frame from the socket worker, which keeps control frames to itself. */
    method DoWrite(data: seq<byte>, now: int)
      requires !IsControl(data)
      modifies this`sent, this`neighbors, this`written
      ensures var p := ToDevice(ether, data);
              written == if p.Some? then old(written) + [p.value] else old(written)
      ensures var r := ArpReaction(ether, data);
              && neighbors == (if r.Learn? then AddNeighbor(old(neighbors), r.hw, r.ip, now) else old(neighbors))
              && sent == (if r.Reply? then old(sent) + [r.frame] else old(sent))
    {
      var handled := ToArp(data, now);
      if handled {
        return;
      }
      var eth := DecodeEther(data);
      if eth.None? || eth.value.etype != ETH_IP4 {
        return;
      }
      written := written + [data[14..]];
    }

    /** What the socket does with a frame it received: control frames are its own, all others go to
        `DoWrite`. */
    method ReadAt(data: seq<byte>, now: int)
      modifies this`sent, this`neighbors, this`written
      ensures var p := ToDevice(ether, data);
              written == if p.Some? then old(written) + [p.value] else old(written)
      ensures var r := Heard(ether, data);
              && neighbors == (if r.Learn? then AddNeighbor(old(neighbors), r.hw, r.ip, now) else old(neighbors))
              && sent == (if r.Reply? then old(sent) + [r.frame] else old(sent))
    {
      if IsControl(data) {
        return;
      }
      DoWrite(data, now);
    }
  }
}
