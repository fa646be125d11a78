/** Ethernet, VLAN, ARP, IPv4, TCP and UDP headers as bytes. */
module Codecs {
  import opened Options
  import opened Bytes

  const ETH_ARP: nat := 0x0806
  const ETH_IP4: nat := 0x0800
  const ETH_VLAN: nat := 0x8100
  const IP_TCP: nat := 0x06
  const IP_UDP: nat := 0x11

  // ---- Bits.

  /** Bitwise or. */
  function Or(a: nat, b: nat): nat
    decreases a + b
  {
    if a == 0 then b else if b == 0 then a
    else (if a % 2 == 1 || b % 2 == 1 then 1 else 0) + 2 * Or(a / 2, b / 2)
  }

  /** The bit at place `k`. */
  function Bit(n: nat, k: nat): nat { if k == 0 then n % 2 else Bit(n / 2, k - 1) }

  lemma {:induction false} OrBits(a: nat, b: nat, k: nat)
    ensures Bit(Or(a, b), k) == 1 <==> Bit(a, k) == 1 || Bit(b, k) == 1
  {
    if k == 0 {
    } else if a == 0 || b == 0 {
      ZeroBits(k);
    } else {
      OrBits(a / 2, b / 2, k - 1);
    }
  }

  lemma {:induction false} ZeroBits(k: nat)
    ensures Bit(0, k) == 0
  {
    if k > 0 { ZeroBits(k - 1); }
  }

  function Pow2(k: nat): (p: nat)
    ensures p > 0
  {
    if k == 0 then 1 else 2 * Pow2(k - 1)
  }

  lemma {:induction false} OrBound(a: nat, b: nat, k: nat)
    requires a < Pow2(k) && b < Pow2(k)
    ensures Or(a, b) < Pow2(k)
  {
    if a != 0 && b != 0 {
      OrBound(a / 2, b / 2, k - 1);
    }
  }

  /** Fields packed side by side: a shifted high part and a low part that fits below it. */
  lemma {:induction false} OrPacks(hi: nat, lo: nat, k: nat)
    requires lo < Pow2(k)
    ensures Or(hi * Pow2(k), lo) == hi * Pow2(k) + lo
  {
    if hi != 0 && k != 0 {
      var p := Pow2(k - 1);
      assert hi * Pow2(k) == 2 * (hi * p) by { assert Pow2(k) == 2 * p; }
      OrPacks(hi, lo / 2, k - 1);
    }
  }

  lemma Powers()
    ensures Pow2(4) == 16 && Pow2(8) == 256 && Pow2(12) == 4096 && Pow2(13) == 8192 && Pow2(16) == 0x1_0000
  {
    assert Pow2(4) == 16;
    assert Pow2(8) == 16 * Pow2(4);
    assert Pow2(12) == 16 * Pow2(8);
    assert Pow2(13) == 2 * Pow2(12);
    assert Pow2(16) == 16 * Pow2(12);
  }

  /** `(hi << 12) | lo` and `(hi << 13) | lo` on 16 bits, with `unit` 4096 or 8192. */
  function Pack16(hi: u16, lo: u16, unit: nat): (v: u16) {
    OrBound(hi * unit % 0x1_0000, lo, 16);
    Powers();
    Or(hi * unit % 0x1_0000, lo)
  }

  /** `(hi << 4) | lo` on 8 bits. */
  function Pack8(hi: byte, lo: byte): (v: byte) {
    var h: int := hi;
    OrBound(h * 16 % 256, lo, 8);
    Powers();
    Or(h * 16 % 256, lo)
  }

  /** Parts that fit are added up. */
  lemma Pack12(hi: u16, lo: u16)
    requires hi < 16 && lo < 4096
    ensures Pack16(hi, lo, 4096) == hi * 4096 + lo
  {
    hide Or, Pow2;
    Powers();
    OrPacks(hi, lo, 12);
  }

  lemma Pack13(hi: u16, lo: u16)
    requires hi < 8 && lo < 8192
    ensures Pack16(hi, lo, 8192) == hi * 8192 + lo
  {
    hide Or, Pow2;
    Powers();
    OrPacks(hi, lo, 13);
  }

  lemma Pack4(hi: byte, lo: byte)
    requires hi < 16 && lo < 16
    ensures var h: int := hi; Pack8(hi, lo) == h * 16 + lo
  {
    hide Or, Pow2;
    Powers();
    OrPacks(hi, lo, 4);
  }

  // ---- Headers.

  datatype Ether = Ether(dst: Hw, src: Hw, etype: u16)

  function EncodeEther(e: Ether): (b: seq<byte>) ensures |b| == 14 { e.dst + e.src + PutU16(e.etype) }

  function DecodeEther(b: seq<byte>): (r: Option<Ether>)
    ensures r.Some? ==> 14 <= |b|
  {
    if |b| < 14 then None else Some(Ether(b[..6], b[6..12], GetU16(b[12], b[13])))
  }

  datatype Vlan = Vlan(tci: u16, vid: u16, pro: u16)

  function EncodeVlan(v: Vlan): (b: seq<byte>) ensures |b| == 4 { PutU16(Pack16(v.tci, v.vid, 4096)) + PutU16(v.pro) }

  function DecodeVlan(b: seq<byte>): (r: Option<Vlan>)
    ensures r.Some? ==> 4 <= |b|
  {
    if |b| < 4 then None
    else var v := GetU16(b[0], b[1]); Some(Vlan(v / 4096, v % 4096, GetU16(b[2], b[3])))
  }

  datatype Arp = Arp(hrd: u16, pro: u16, op: u16, sHw: Hw, sIp: Ip, tHw: Hw, tIp: Ip)

  function EncodeArp(a: Arp): (b: seq<byte>)
    ensures |b| == 28
  {
    PutU16(a.hrd) + PutU16(a.pro) + [6, 4] + PutU16(a.op) + a.sHw + a.sIp + a.tHw + a.tIp
  }

  function DecodeArp(b: seq<byte>): (r: Option<Arp>)
    ensures r.Some? ==> 28 <= |b|
  {
    if |b| < 8 || b[4] != 6 || b[5] != 4 || |b| < 28 then None
    else Some(Arp(GetU16(b[0], b[1]), GetU16(b[2], b[3]), GetU16(b[6], b[7]),
                  b[8..14], b[14..18], b[18..24], b[24..28]))
  }

  datatype Ipv4 = Ipv4(
    version: byte, headerLen: byte, tos: byte, totalLen: u16, identifier: u16, flag: u16, offset: u16,
    ttl: byte, protocol: byte, checksum: u16, source: Ip, destination: Ip)

  function EncodeIpv4(i: Ipv4): (b: seq<byte>)
    ensures |b| == 20
  {
    [Pack8(i.version, i.headerLen), i.tos] + PutU16(i.totalLen) + PutU16(i.identifier) +
    PutU16(Pack16(i.flag, i.offset, 8192)) + [i.ttl, i.protocol] + PutU16(i.checksum) + i.source + i.destination
  }

  function DecodeIpv4(b: seq<byte>): (r: Option<Ipv4>)
    ensures r.Some? ==> 20 <= |b|
  {
    if |b| < 20 || b[0] / 16 != 4 then None
    else
      var f := GetU16(b[6], b[7]);
      Some(Ipv4(b[0] / 16, b[0] % 16, b[1], GetU16(b[2], b[3]), GetU16(b[4], b[5]), f / 8192, f % 8192,
                b[8], b[9], GetU16(b[10], b[11]), b[12..16], b[16..20]))
  }

  datatype Tcp = Tcp(source: u16, destination: u16, sequence: u32, ack: u32, dataOffset: byte, control: byte,
                     window: u16, checksum: u16, urgent: u16)

  function EncodeTcp(t: Tcp): (b: seq<byte>)
    ensures |b| == 20
  {
    PutU16(t.source) + PutU16(t.destination) + PutU32(t.sequence) + PutU32(t.ack) + [t.dataOffset, t.control] +
    PutU16(t.window) + PutU16(t.checksum) + PutU16(t.urgent)
  }

  function DecodeTcp(b: seq<byte>): (r: Option<Tcp>)
    ensures r.Some? ==> 20 <= |b|
  {
    if |b| < 20 then None
    else Some(Tcp(GetU16(b[0], b[1]), GetU16(b[2], b[3]), GetU32(b[4..8]), GetU32(b[8..12]), b[12], b[13],
                  GetU16(b[14], b[15]), GetU16(b[16], b[17]), GetU16(b[18], b[19])))
  }

  datatype Udp = Udp(source: u16, destination: u16, length: u16, checksum: u16)

  function EncodeUdp(u: Udp): (b: seq<byte>)
    ensures |b| == 8
  {
    PutU16(u.source) + PutU16(u.destination) + PutU16(u.length) + PutU16(u.checksum)
  }

  function DecodeUdp(b: seq<byte>): (r: Option<Udp>)
    ensures r.Some? ==> 8 <= |b|
  {
    if |b| < 8 then None
    else Some(Udp(GetU16(b[0], b[1]), GetU16(b[2], b[3]), GetU16(b[4], b[5]), GetU16(b[6], b[7])))
  }

  // ---- Re-encoding a decoded header gives back its bytes.

  lemma EtherBytes(b: seq<byte>)
    requires DecodeEther(b).Some?
    ensures EncodeEther(DecodeEther(b).value) == b[..14]
  {
    U16RoundTrip(b[12], b[13]);
    assert b[..14] == b[..6] + b[6..12] + [b[12], b[13]];
  }

  lemma VlanBytes(b: seq<byte>)
    requires DecodeVlan(b).Some?
    ensures EncodeVlan(DecodeVlan(b).value) == b[..4]
  {
    hide Pack16, PutU16, GetU16;
    var v: u16 := GetU16(b[0], b[1]);
    Pack12(v / 4096, v % 4096);
    U16RoundTrip(b[0], b[1]);
    U16RoundTrip(b[2], b[3]);
    assert b[..4] == [b[0], b[1]] + [b[2], b[3]];
  }

  lemma ArpBytes(b: seq<byte>)
    requires DecodeArp(b).Some?
    ensures EncodeArp(DecodeArp(b).value) == b[..28]
  {
    U16RoundTrip(b[0], b[1]);
    U16RoundTrip(b[2], b[3]);
    U16RoundTrip(b[6], b[7]);
    assert b[..28] == [b[0], b[1]] + [b[2], b[3]] + [b[4], b[5]] + [b[6], b[7]] +
                      b[8..14] + b[14..18] + b[18..24] + b[24..28];
  }

  lemma Ipv4Bytes(b: seq<byte>)
    requires DecodeIpv4(b).Some?
    ensures EncodeIpv4(DecodeIpv4(b).value) == b[..20]
  {
    hide Pack16, Pack8, PutU16, GetU16;
    var f: u16 := GetU16(b[6], b[7]);
    Pack13(f / 8192, f % 8192);
    Pack4(b[0] / 16, b[0] % 16);
    U16RoundTrip(b[2], b[3]);
    U16RoundTrip(b[4], b[5]);
    U16RoundTrip(b[6], b[7]);
    U16RoundTrip(b[10], b[11]);
    assert b[..20] == [b[0], b[1]] + [b[2], b[3]] + [b[4], b[5]] + [b[6], b[7]] + [b[8], b[9]] +
                      [b[10], b[11]] + b[12..16] + b[16..20];
  }

  lemma TcpBytes(b: seq<byte>)
    requires DecodeTcp(b).Some?
    ensures EncodeTcp(DecodeTcp(b).value) == b[..20]
  {
    U16RoundTrip(b[0], b[1]);
    U16RoundTrip(b[2], b[3]);
    U32PutGet(b[4..8]);
    U32PutGet(b[8..12]);
    U16RoundTrip(b[14], b[15]);
    U16RoundTrip(b[16], b[17]);
    U16RoundTrip(b[18], b[19]);
    assert b[..20] == [b[0], b[1]] + [b[2], b[3]] + b[4..8] + b[8..12] + [b[12], b[13]] + [b[14], b[15]] +
                      [b[16], b[17]] + [b[18], b[19]];
  }

  lemma UdpBytes(b: seq<byte>)
    requires DecodeUdp(b).Some?
    ensures EncodeUdp(DecodeUdp(b).value) == b[..8]
  {
    U16RoundTrip(b[0], b[1]);
    U16RoundTrip(b[2], b[3]);
    U16RoundTrip(b[4], b[5]);
    U16RoundTrip(b[6], b[7]);
    assert b[..8] == [b[0], b[1]] + [b[2], b[3]] + [b[4], b[5]] + [b[6], b[7]];
  }

  // ---- Decoding an encoded header.

  lemma EtherDecodes(e: Ether, rest: seq<byte>)
    ensures DecodeEther(EncodeEther(e) + rest) == Some(e)
  {
    var b := EncodeEther(e) + rest;
    assert b[..6] == e.dst && b[6..12] == e.src && b[12..14] == PutU16(e.etype);
  }

  lemma ArpDecodes(a: Arp, rest: seq<byte>)
    ensures DecodeArp(EncodeArp(a) + rest) == Some(a)
  {
    var b := EncodeArp(a) + rest;
    assert b[..2] == PutU16(a.hrd) && b[2..4] == PutU16(a.pro) && b[4..6] == [6, 4] && b[6..8] == PutU16(a.op);
    assert b[8..14] == a.sHw && b[14..18] == a.sIp && b[18..24] == a.tHw && b[24..28] == a.tIp;
  }

  /** The packed VLAN word takes a field apart again exactly when the parts have room in it. */
  lemma VlanDecodes(v: Vlan, rest: seq<byte>)
    ensures DecodeVlan(EncodeVlan(v) + rest) == Some(v) <==> v.tci < 16 && v.vid < 4096
  {
    hide Pack16, PutU16, GetU16;
    var b := EncodeVlan(v) + rest;
    assert b[..2] == PutU16(Pack16(v.tci, v.vid, 4096)) && b[2..4] == PutU16(v.pro);
    if v.tci < 16 && v.vid < 4096 { Pack12(v.tci, v.vid); }
  }

  /** So do the packed IPv4 words; any other version is refused. */
  lemma Ipv4Decodes(i: Ipv4, rest: seq<byte>)
    ensures DecodeIpv4(EncodeIpv4(i) + rest) == Some(i) <==>
            i.version == 4 && i.headerLen < 16 && i.flag < 8 && i.offset < 8192
  {
    hide Pack16, Pack8, PutU16, GetU16;
    var b := EncodeIpv4(i) + rest;
    assert b[..2] == [Pack8(i.version, i.headerLen), i.tos] && b[2..4] == PutU16(i.totalLen) &&
           b[4..6] == PutU16(i.identifier) && b[6..8] == PutU16(Pack16(i.flag, i.offset, 8192)) &&
           b[8..10] == [i.ttl, i.protocol] && b[10..12] == PutU16(i.checksum);
    assert b[12..16] == i.source && b[16..20] == i.destination;
    if i.flag < 8 && i.offset < 8192 { Pack13(i.flag, i.offset); }
    if i.version == 4 && i.headerLen < 16 { Pack4(i.version, i.headerLen); }
  }

  // ---- Whole frames.

  datatype Proto = Proto(eth: Ether, vlan: Option<Vlan>, arp: Option<Arp>, ip4: Option<Ipv4>,
                         tcp: Option<Tcp>, udp: Option<Udp>)

  /** What `FrameProto.Decode` reads: the inner type of a VLAN frame is not followed, and an IPv4
      header is taken to be 20 bytes long. */
  function DecodeFrame(b: seq<byte>): Option<Proto> {
    var eth := DecodeEther(b);
    if eth.None? then None
    else
      var p := Proto(eth.value, None, None, None, None, None);
      var data := b[14..];
      if eth.value.etype == ETH_VLAN then
        var vlan := DecodeVlan(data);
        if vlan.None? then None else Some(p.(vlan := vlan))
      else if eth.value.etype == ETH_ARP then
        var arp := DecodeArp(data);
        if arp.None? then None else Some(p.(arp := arp))
      else if eth.value.etype == ETH_IP4 then
        var ip4 := DecodeIpv4(data);
        if ip4.None? then None
        else DecodePorts(p.(ip4 := ip4), data[20..])
      else Some(p)
  }

  function DecodePorts(p: Proto, data: seq<byte>): Option<Proto>
    requires p.ip4.Some?
  {
    if p.ip4.value.protocol == IP_TCP then
      var tcp := DecodeTcp(data); if tcp.None? then None else Some(p.(tcp := tcp))
    else if p.ip4.value.protocol == IP_UDP then
      var udp := DecodeUdp(data); if udp.None? then None else Some(p.(udp := udp))
    else Some(p)
  }

  function EncodeFrame(p: Proto): seq<byte> {
    EncodeEther(p.eth) + (if p.vlan.Some? then EncodeVlan(p.vlan.value) else []) +
    (if p.arp.Some? then EncodeArp(p.arp.value) else []) +
    (if p.ip4.Some? then EncodeIpv4(p.ip4.value) else []) +
    (if p.tcp.Some? then EncodeTcp(p.tcp.value) else []) +
    (if p.udp.Some? then EncodeUdp(p.udp.value) else [])
  }

  /** Whatever bytes decode, the decoded headers encoded in order are the front of those bytes. */
  lemma FrameBytes(b: seq<byte>)
    requires DecodeFrame(b).Some?
    ensures EncodeFrame(DecodeFrame(b).value) <= b
  {
    hide EncodeEther, EncodeVlan, EncodeArp, EncodeIpv4, EncodeTcp, EncodeUdp;
    hide DecodeVlan, DecodeArp, DecodeIpv4, DecodeTcp, DecodeUdp;
    var p, data := DecodeFrame(b).value, b[14..];
    EtherBytes(b);
    if p.eth.etype == ETH_VLAN {
      VlanBytes(data);
      assert EncodeFrame(p) == b[..14] + data[..4] == b[..18];
    } else if p.eth.etype == ETH_ARP {
      ArpBytes(data);
      assert EncodeFrame(p) == b[..14] + data[..28] == b[..42];
    } else if p.eth.etype == ETH_IP4 {
      Ipv4Bytes(data);
      PortsBytes(b, p);
    } else {
      assert EncodeFrame(p) == b[..14];
    }
  }

  lemma PortsBytes(b: seq<byte>, p: Proto)
    requires DecodeFrame(b) == Some(p) && p.eth.etype == ETH_IP4
    requires EncodeEther(p.eth) == b[..14] && EncodeIpv4(p.ip4.value) == b[14..][..20]
    ensures EncodeFrame(p) <= b
  {
    hide EncodeEther, EncodeVlan, EncodeArp, EncodeIpv4, EncodeTcp, EncodeUdp;
    hide DecodeVlan, DecodeArp, DecodeIpv4, DecodeTcp, DecodeUdp;
    var data := b[14..];
    var rest := data[20..];
    assert b[..14] + data[..20] == b[..34] && rest == b[34..];
    if p.ip4.value.protocol == IP_TCP {
      TcpBytes(rest);
      assert EncodeFrame(p) == b[..34] + rest[..20] == b[..54];
    } else if p.ip4.value.protocol == IP_UDP {
      UdpBytes(rest);
      assert EncodeFrame(p) == b[..34] + rest[..8] == b[..42];
    } else {
      assert EncodeFrame(p) == b[..34];
    }
  }

  // ---- Where the parts of a frame are.

  /** Two and four bytes of a frame as a number. */
  function Two(b: seq<byte>, at: nat): nat
    requires at + 2 <= |b|
  {
    var x, y: int := b[at], b[at + 1];
    x * 256 + y
  }

  function Four(b: seq<byte>, at: nat): nat
    requires at + 4 <= |b|
  {
    var w, x, y, z: int := b[at], b[at + 1], b[at + 2], b[at + 3];
    ((w * 256 + x) * 256 + y) * 256 + z
  }

  predicate EtherAt(e: Ether, b: seq<byte>)
    requires 14 <= |b|
  {
    e.dst == b[..6] && e.src == b[6..12] && e.etype == Two(b, 12)
  }

  predicate VlanAt(v: Vlan, b: seq<byte>, at: nat)
    requires at + 4 <= |b|
  {
    v.vid < 4096 && v.tci * 4096 + v.vid == Two(b, at) && v.pro == Two(b, at + 2)
  }

  predicate ArpAt(a: Arp, b: seq<byte>, at: nat)
    requires at + 28 <= |b|
  {
    && a.hrd == Two(b, at) && a.pro == Two(b, at + 2) && a.op == Two(b, at + 6)
    && a.sHw == b[at + 8..at + 14] && a.sIp == b[at + 14..at + 18]
    && a.tHw == b[at + 18..at + 24] && a.tIp == b[at + 24..at + 28]
  }

  predicate Ipv4At(i: Ipv4, b: seq<byte>, at: nat)
    requires at + 20 <= |b|
  {
    && i.version == b[at] / 16 && i.headerLen == b[at] % 16 && i.tos == b[at + 1]
    && i.totalLen == Two(b, at + 2) && i.identifier == Two(b, at + 4)
    && i.offset < 8192 && i.flag * 8192 + i.offset == Two(b, at + 6)
    && i.ttl == b[at + 8] && i.protocol == b[at + 9] && i.checksum == Two(b, at + 10)
    && i.source == b[at + 12..at + 16] && i.destination == b[at + 16..at + 20]
  }

  predicate TcpAt(t: Tcp, b: seq<byte>, at: nat)
    requires at + 20 <= |b|
  {
    && t.source == Two(b, at) && t.destination == Two(b, at + 2)
    && t.sequence == Four(b, at + 4) && t.ack == Four(b, at + 8)
    && t.dataOffset == b[at + 12] && t.control == b[at + 13] && t.window == Two(b, at + 14)
    && t.checksum == Two(b, at + 16) && t.urgent == Two(b, at + 18)
  }

  predicate UdpAt(u: Udp, b: seq<byte>, at: nat)
    requires at + 8 <= |b|
  {
    u.source == Two(b, at) && u.destination == Two(b, at + 2) && u.length == Two(b, at + 4) && u.checksum == Two(b, at + 6)
  }

  predicate IsVlan(b: seq<byte>) { 14 <= |b| && b[12] == 0x81 && b[13] == 0 }
  predicate IsArp(b: seq<byte>) { 14 <= |b| && b[12] == 8 && b[13] == 6 }
  predicate IsIpv4(b: seq<byte>) { 14 <= |b| && b[12] == 8 && b[13] == 0 }

  /** The frames that decode, by their bytes: long enough for the headers that their type and protocol
      call for, ARP for six- and four-byte addresses, IP of version 4. */
  predicate Readable(b: seq<byte>) {
    && 14 <= |b|
    && (IsVlan(b) ==> 18 <= |b|)
    && (IsArp(b) ==> 42 <= |b| && b[18] == 6 && b[19] == 4)
    && (IsIpv4(b) ==> 34 <= |b| && b[14] / 16 == 4 && (b[23] == 6 ==> 54 <= |b|) && (b[23] == 17 ==> 42 <= |b|))
  }

  /** A frame decodes if and only if it is readable; which headers it then has, and where each of their
      fields is. */
  lemma FrameParts(b: seq<byte>)
    ensures DecodeFrame(b).Some? <==> Readable(b)
    ensures DecodeFrame(b).Some? ==>
              var p := DecodeFrame(b).value;
              && EtherAt(p.eth, b)
              && (p.vlan.Some? <==> IsVlan(b)) && (p.vlan.Some? ==> VlanAt(p.vlan.value, b, 14))
              && (p.arp.Some? <==> IsArp(b)) && (p.arp.Some? ==> ArpAt(p.arp.value, b, 14))
              && (p.ip4.Some? <==> IsIpv4(b)) && (p.ip4.Some? ==> Ipv4At(p.ip4.value, b, 14))
              && (p.tcp.Some? <==> IsIpv4(b) && b[23] == 6) && (p.tcp.Some? ==> TcpAt(p.tcp.value, b, 34))
              && (p.udp.Some? <==> IsIpv4(b) && b[23] == 17) && (p.udp.Some? ==> UdpAt(p.udp.value, b, 34))
  {
    hide DecodeVlan, DecodeArp, DecodeIpv4, DecodeTcp, DecodeUdp, VlanAt, ArpAt, Ipv4At, TcpAt, UdpAt;
    if 14 <= |b| {
      Types(b);
      if IsVlan(b) {
        VlanParts(b);
      } else if IsArp(b) {
        ArpParts(b);
      } else if IsIpv4(b) {
        Ipv4Parts(b);
        if 34 <= |b| && b[14] / 16 == 4 {
          assert b[14..][20..] == b[34..];
          TcpParts(b);
          UdpParts(b);
        }
      }
    }
  }

  lemma Types(b: seq<byte>)
    requires 14 <= |b|
    ensures var t := GetU16(b[12], b[13]);
            && (t == ETH_VLAN <==> IsVlan(b)) && (t == ETH_ARP <==> IsArp(b)) && (t == ETH_IP4 <==> IsIpv4(b))
            && t == Two(b, 12)
  {
  }

  lemma VlanParts(b: seq<byte>)
    requires 14 <= |b|
    ensures DecodeVlan(b[14..]).Some? <==> 18 <= |b|
    ensures 18 <= |b| ==> VlanAt(DecodeVlan(b[14..]).value, b, 14)
  {
  }

  lemma ArpParts(b: seq<byte>)
    requires 14 <= |b|
    ensures DecodeArp(b[14..]).Some? <==> 42 <= |b| && b[18] == 6 && b[19] == 4
    ensures DecodeArp(b[14..]).Some? ==> ArpAt(DecodeArp(b[14..]).value, b, 14)
  {
    if 42 <= |b| {
      assert b[14..][8..14] == b[22..28] && b[14..][14..18] == b[28..32];
      assert b[14..][18..24] == b[32..38] && b[14..][24..28] == b[38..42];
    }
  }

  lemma Ipv4Parts(b: seq<byte>)
    requires 14 <= |b|
    ensures DecodeIpv4(b[14..]).Some? <==> 34 <= |b| && b[14] / 16 == 4
    ensures DecodeIpv4(b[14..]).Some? ==> Ipv4At(DecodeIpv4(b[14..]).value, b, 14)
    ensures DecodeIpv4(b[14..]).Some? ==> DecodeIpv4(b[14..]).value.protocol == b[23]
  {
    if 34 <= |b| {
      assert b[14..][12..16] == b[26..30] && b[14..][16..20] == b[30..34];
    }
  }

  lemma TcpParts(b: seq<byte>)
    requires 34 <= |b|
    ensures DecodeTcp(b[34..]).Some? <==> 54 <= |b|
    ensures 54 <= |b| ==> TcpAt(DecodeTcp(b[34..]).value, b, 34)
  {
  }

  lemma UdpParts(b: seq<byte>)
    requires 34 <= |b|
    ensures DecodeUdp(b[34..]).Some? <==> 42 <= |b|
    ensures 42 <= |b| ==> UdpAt(DecodeUdp(b[34..]).value, b, 34)
  {
  }
}
