/** Two TUN endpoints and the connection between them, end to end. */
module TunLink {
  import opened Options
  import opened Bytes
  import opened Codecs
  import opened Framing
  import opened Messager
  import opened TapWorker

  /** The next hop of an IPv4 packet is a known neighbor. */
  predicate Known(t: Table, packet: seq<byte>, next: Option<Ip>) {
    DecodeIpv4(packet).Some? && GetU32(NextHop(packet, next)) in t
  }

  function NextHop(packet: seq<byte>, next: Option<Ip>): Ip
    requires DecodeIpv4(packet).Some?
  {
    if next.Some? then next.value else DecodeIpv4(packet).value.destination
  }

  function HopHw(t: Table, packet: seq<byte>, next: Option<Ip>): Hw
    requires Known(t, packet, next)
  {
    t[GetU32(NextHop(packet, next))].hw
  }

  /** The frame a packet is wrapped in. */
  function Wrapped(w: Tun, t: Table, packet: seq<byte>, next: Option<Ip>): seq<byte>
    requires Known(t, packet, next)
  {
    DataFrame(w, HopHw(t, packet, next), packet)
  }

  /** The packets that are wrapped for a hardware address other than all zeros. */
  function Reaching(t: Table, packets: seq<seq<byte>>, nexts: seq<Option<Ip>>): seq<seq<byte>>
    requires |packets| == |nexts| && forall i :: 0 <= i < |packets| ==> Known(t, packets[i], nexts[i])
    decreases |packets|
  {
    if packets == [] then []
    else
      var n := |packets| - 1;
      Reaching(t, packets[..n], nexts[..n]) + (if HopHw(t, packets[n], nexts[n]) != ETH_ZERO then [packets[n]] else [])
  }

  /** With non-zero neighbors that is all of them. */
  lemma {:induction false} AllReach(t: Table, packets: seq<seq<byte>>, nexts: seq<Option<Ip>>)
    requires |packets| == |nexts| && forall i :: 0 <= i < |packets| ==> Known(t, packets[i], nexts[i])
    requires forall i :: 0 <= i < |packets| ==> HopHw(t, packets[i], nexts[i]) != ETH_ZERO
    ensures Reaching(t, packets, nexts) == packets
    decreases |packets|
  {
    hide Known, HopHw;
    if packets != [] {
      var n := |packets| - 1;
      AllReach(t, packets[..n], nexts[..n]);
      assert packets == packets[..n] + [packets[n]];
    }
  }

  /** The sender reads packets from its device and wraps them. */
  method WrapAll(from: Worker, packets: seq<seq<byte>>, nexts: seq<Option<Ip>>) returns (frames: seq<seq<byte>>)
    requires |packets| == |nexts| && forall i :: 0 <= i < |packets| ==> Known(from.neighbors, packets[i], nexts[i])
    modifies from`sent
    ensures |frames| == |packets| && from.sent == old(from.sent) + frames
    ensures forall i :: 0 <= i < |frames| ==> frames[i] == Wrapped(from.ether, from.neighbors, packets[i], nexts[i])
  {
    frames := [];
    for i := 0 to |packets|
      invariant |frames| == i && from.sent == old(from.sent) + frames
      invariant forall j :: 0 <= j < i ==> frames[j] == Wrapped(from.ether, from.neighbors, packets[j], nexts[j])
    {
      assert Known(from.neighbors, packets[i], nexts[i]);
      var _ := from.OnFrame(packets[i], nexts[i]);
      frames := frames + [from.sent[|from.sent| - 1]];
    }
  }

  /** Each frame in a message buffer of its own. */
  method PackAll(frames: seq<seq<byte>>) returns (messages: seq<FrameMessage>)
    requires forall i :: 0 <= i < |frames| ==> |frames[i]| <= MAX_BUF + ETH_LEN
    ensures |messages| == |frames|
    ensures forall i :: 0 <= i < |messages| ==> Carries(messages[i], frames[i])
    ensures forall i :: 0 <= i < |messages| ==> fresh(messages[i]) && fresh(messages[i].buffer.arr)
    ensures forall i, j :: 0 <= i < j < |messages| ==> messages[i].buffer.arr != messages[j].buffer.arr
  {
    hide Carries;
    messages := [];
    for i := 0 to |frames|
      invariant |messages| == i
      invariant forall j :: 0 <= j < i ==> Carries(messages[j], frames[j])
      invariant forall j :: 0 <= j < i ==> fresh(messages[j]) && fresh(messages[j].buffer.arr)
      invariant forall j, k :: 0 <= j < k < i ==> messages[j].buffer.arr != messages[k].buffer.arr
    {
      var message := Pack(frames[i]);
      messages := messages + [message];
    }
  }

  method Pack(frame: seq<byte>) returns (message: FrameMessage)
    requires |frame| <= MAX_BUF + ETH_LEN
    ensures fresh(message) && fresh(message.buffer.arr) && Carries(message, frame)
  {
    message := new FrameMessage(0);
    message.Append(frame);
    assert message.Payload() == [] + frame;
  }

  /** The receiver hands each frame that was read to its worker. */
  method DeliverAll(to: Worker, queue: seq<Slice>, now: int, ghost from: Tun, ghost t: Table,
                    ghost packets: seq<seq<byte>>, ghost nexts: seq<Option<Ip>>)
    requires |queue| == |packets| == |nexts|
    requires forall i :: 0 <= i < |packets| ==> Known(t, packets[i], nexts[i])
    requires forall i :: 0 <= i < |queue| ==>
               queue[i].Ok() && HEADER <= queue[i].Len() &&
               queue[i].Content()[HEADER..] == Wrapped(from, t, packets[i], nexts[i])
    modifies to`sent, to`neighbors, to`written
    ensures to.written == old(to.written) + Reaching(t, packets, nexts)
  {
    hide ToDevice, Heard, Wrapped, Known, Reaching, AddNeighbor;
    assert packets[..0] == [] && nexts[..0] == [];
    ReachingStart(t, packets[..0], nexts[..0]);
    for i := 0 to |queue|
      invariant to.written == old(to.written) + Reaching(t, packets[..i], nexts[..i])
    {
      assert Known(t, packets[i], nexts[i]);
      var data := queue[i].Content()[HEADER..];
      to.ReadAt(data, now);
      ReachingNext(t, packets, nexts, i, from, to.ether);
    }
    assert packets[..|queue|] == packets && nexts[..|queue|] == nexts;
  }

  lemma ReachingStart(t: Table, packets: seq<seq<byte>>, nexts: seq<Option<Ip>>)
    requires packets == [] && nexts == []
    ensures Reaching(t, packets, nexts) == []
  {
  }

  /** One more frame brings its packet to the device, or nothing. */
  lemma ReachingNext(t: Table, packets: seq<seq<byte>>, nexts: seq<Option<Ip>>, i: nat, from: Tun, to: Tun)
    requires |packets| == |nexts| && forall i :: 0 <= i < |packets| ==> Known(t, packets[i], nexts[i])
    requires i < |packets|
    ensures var p := ToDevice(to, Wrapped(from, t, packets[i], nexts[i]));
            Reaching(t, packets[..i + 1], nexts[..i + 1]) ==
            Reaching(t, packets[..i], nexts[..i]) + (if p.Some? then [p.value] else [])
  {
    hide ToDevice, DataFrame, Known, HopHw;
    assert Known(t, packets[i], nexts[i]);
    DataToDevice(from, to, HopHw(t, packets[i], nexts[i]), packets[i]);
    assert packets[..i + 1][..i] == packets[..i] && nexts[..i + 1][..i] == nexts[..i];
  }

  /** Every list of IPv4 packets with known neighbors, wrapped by the sender, framed, encrypted, cut
      into reads of any size, reassembled and handed to the receiver: exactly those wrapped for a
      non-zero hardware address are written to the other device, unchanged and in order. */
  method Carry(from: Worker, sender: StreamMessager, out: Conn, receiver: StreamMessager, inn: Conn, to: Worker,
               packets: seq<seq<byte>>, nexts: seq<Option<Ip>>, min: nat, now: int)
    requires from != to && out != inn && sender != receiver
    requires receiver.Valid() && receiver.block == sender.block && receiver.buffer.Len() == 0 && HEADER < min
    requires |packets| == |nexts| && forall i :: 0 <= i < |packets| ==> Known(from.neighbors, packets[i], nexts[i])
    requires forall i :: 0 <= i < |packets| ==>
               var frame := Wrapped(from.ether, from.neighbors, packets[i], nexts[i]);
               |frame| <= MAX_BUF + ETH_LEN && Fits(frame, min, receiver.Cap())
    modifies from`sent, out`written, inn`incoming, receiver`buffer, receiver.buffer.arr
    modifies to`sent, to`neighbors, to`written
    ensures to.written == old(to.written) + Reaching(from.neighbors, packets, nexts)
  {
    hide Wrapped, Fits, Reaching, Known, Carries, Stream, Sound;
    var frames := WrapAll(from, packets, nexts);
    var messages := PackAll(frames);
    var before := |out.written|;
    sender.SendAll(out, messages, frames);
    inn.incoming := out.written[before..];
    assert receiver.Pending(inn) == Stream(receiver.block, frames);
    var queue, last := receiver.ReadLoop(inn, min, frames);
    DeliverAll(to, queue, now, from.ether, from.neighbors, packets, nexts);
  }
}
