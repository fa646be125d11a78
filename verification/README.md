# A verified model of OpenLAN's data plane and sessions

OpenLAN carries ethernet frames over stream connections into user-space bridges, Open vSwitch
pipelines and TUN devices. This project models the parts of it where correctness is hardest to see,
and proves what they promise for every input, every run and every interleaving.
`dafny verify dfyconfig.toml` checks all of it.

| files | part of the system |
|---|---|
| `OpenFlow`, `Fabric`, `FabricStages`, `FabricRuns`, `FabricWorker` | the flow program of the fabric worker, over a pure evaluator of OpenFlow |
| `Framing`, `Messager` | frames on a stream, reassembled from arbitrary reads, decrypted in place in shared buffers |
| `Leases`, `LeaseCache` | the address allocator with its two capped indexes |
| `Sessions`, `SessionRuns`, `SessionTheorems`, `SessionOutcomes`, `SwitchServer` | admission, login gate, takeover and close of clients, and what becomes of each of their frames |
| `Codecs`, `TapWorker`, `ArpNetwork`, `TunLink` | header codecs, the TUN endpoint, the ARP exchange between endpoints, and packets carried from device to device |
| `Bridge`, `BridgeThreads`, `VirtualTap` | the learning bridge, its table under concurrency, the bounded queue of a tap |
| `Online`, `Networks` | the table of recent flows, route-order-insensitive equality |
| `Bytes`, `Text`, `SafeMap`, `Options` | shared vocabulary |

Code that updates state in place is modelled by classes whose methods are proved against pure step
functions; the theorems are about those functions and the runs they generate. Goroutines and channel
operations are atomic steps of a state machine, time is a parameter, and lease objects that two
indexes share are positions in a store, so that a write through one index is seen through the other.

## What turned out not to hold

Each of these has a theorem over all inputs or all runs that says exactly when the code does what is
intended, and where the failure needs a run, a lemma that builds one.

- Before the first regular tunnel is added, frames from patches and borders are dropped instead of
  flooded, because table 30 has no entry for them (`FabricRuns.FloodsExactlyInRuns`; run:
  `FabricRuns.DroppedBeforeFirstTunnel`).
- A payload of 65536 bytes or more overflows the 16-bit size field (`Framing.SizeField`).
- The search for a free address wraps past 255.255.255.255 and then hands out addresses outside the
  range, from 0.0.0.0 on (`Leases.FoundInRange`; run: `Leases.WrapHandsOutZero`).
- A point whose alias is the key of another point's dynamic lease takes over that lease object; when
  the key is released its address stays indexed, and no later host, request or release ever frees it
  (`Leases.AliasDecides`, `Leases.OrphanedForEver`).
- A point-cache capacity below the client limit lets the three point indexes disagree
  (`SessionRuns.PointCap`; run: `SessionTheorems.SmallCapDisagrees`).
- A packet wrapped for the all-zero hardware address is taken for a control message and not written,
  and so is an ARP reply to it (`TunLink.Carry` with `TapWorker.DataToDevice`, `ArpNetwork.Resolves`;
  run: `ArpNetwork.ZeroNeighborGetsNothing`).
- `Expire` deletes what it collected even if the entry was refreshed in between
  (`BridgeThreads.DeletesTheCollected`, `BridgeThreads.LostFresh`; run:
  `BridgeThreads.RefreshedEntryCanBeLost`).
- Two `Learn` calls for one source that overlap can leave the port of the older frame, or a port and a
  time of different frames (`BridgeThreads.NamesLatestFrame`; run: `BridgeThreads.OverlapMixesFrames`).
- With inspection configured, an ethernet frame whose headers do not decode is refused instead of
  written to the tap (`SessionOutcomes.FrameOutcome` with `Codecs.FrameParts`).
- Routes that differ can print alike, but only if a prefix contains a comma (`Networks.PrintAlike`).
- With a negative limit the flow cache stays empty (`Online.CacheMirrors`).

## Assumptions

- OVS port ids are non-zero and distinct; adding the same port again is allowed.
- A learned flow may become visible to the packet that taught it or only afterwards: both are covered.
- A cipher keeps lengths, is prefix-causal and is inverted by its decryption.
- A session run starts without clients and with any lease book whose indexes agree, so hosts of the
  configuration may already hold static leases.
- The clock does not run backwards between the two phases of `Expire`.
- Live connections have distinct, non-empty addresses; a login is handled only for a registered client.
- The check of a user's password, the creation of a tap and the text form of an address range are
  parameters of the steps.

## Model

| member | source | states |
|---|---|---|
| `Fabric.ProgramRises` | pkg/olsw/fabric.go:171-212 | in every flow table the worker can build, each resubmit goes to a higher table, so every resubmit chain ends |
| `Fabric.NoAmbiguity` | pkg/olsw/fabric.go:171-326 | no packet ever has two matching flows of the highest priority, so the switch's freedom to choose never matters |
| `FabricStages.Table20` | pkg/olsw/fabric.go:195-200 | a learned destination goes to its one port, any other to the flood set, each port once and never the ingress |
| `FabricStages.TeachKeeps` | pkg/olsw/fabric.go:263-285 | learning keeps the program and the rule that a learned patch port is the patch of the flow's own VNI |
| `FabricRuns.Pipeline` | pkg/olsw/fabric.go:171-326 | the whole multi-table program: unknown ports are dropped, every other frame teaches its source and is output once to each of its destinations |
| `FabricRuns.PacketStaysInVni` | pkg/olsw/fabric.go:287-326 | whatever was learned, a frame of one VNI is never output on the patch of another, nor on its ingress |
| `FabricRuns.FloodsExactly` | pkg/olsw/fabric.go:359-400 | an unlearned destination is flooded to exactly the intended ports, each once, if and only if a regular tunnel exists, the frame came in on one, or there is nowhere to flood to |
| `FabricRuns.FloodsExactlyInRuns` | pkg/olsw/fabric.go:409-461 | the same in every run, whatever the order in which tunnels, borders and networks were added |
| `FabricRuns.RunKeepsProgram` | pkg/olsw/fabric.go:287-461 | after any mix of configuration changes, packets and timeouts the table is the program for the configuration plus admissible learned flows |
| `FabricRuns.Isolation` | pkg/olsw/fabric.go:263-326 | over every run a frame that entered on the patch of one VNI is never output on the patch of another |
| `FabricRuns.LearnedPatches` | pkg/olsw/fabric.go:263-285 | over every run a learned flow that names a patch names the patch of its own VNI |
| `FabricRuns.LearnedFromLatest` | pkg/olsw/fabric.go:263-285 | in every run a flow is learned for an address in a VNI if and only if a frame from it came in and the flow has not timed out since the latest one; it outputs to the port of that latest frame |
| `FabricRuns.FollowsLatest` | pkg/olsw/fabric.go:195-200 | in every run a frame for an address that has spoken in its VNI goes once, and only, to the port on which that address spoke last |
| `FabricRuns.DroppedBeforeFirstTunnel` | pkg/olsw/fabric.go:202-206 | a run with a border and a network but no tunnel in which a frame from the border is dropped although the patch of its VNI is there |
| `FabricWorker.Worker.UpTables` | pkg/olsw/fabric.go:171-212 | an empty bridge gets exactly the base flows |
| `FabricWorker.Worker.FloodToTunnel` | pkg/olsw/fabric.go:359-374 | the flood entry lists each tunnel once, in whatever order the map is walked, then the borders' table |
| `FabricWorker.Worker.FloodToBorder` | pkg/olsw/fabric.go:376-400 | both border entries list each border once in the same order; only the one for the local side goes on to table 32 |
| `FabricWorker.Worker.AddTunnel` | pkg/olsw/fabric.go:409-461 | is the step of the state machine for a tunnel or a border and keeps the program |
| `FabricWorker.Worker.AddNetwork` | pkg/olsw/fabric.go:287-326 | is the step of the state machine for a network and keeps the program |
| `Framing.PrefixCipher` | pkg/libol/message.go:295-311 | encrypting the whole buffer and sending only the used part sends the encryption of the used part |
| `Framing.ParseWire` | pkg/libol/message.go:353-374 | an encoded frame is found whatever follows it, decrypts to its payload, and what follows is left over |
| `Framing.SizeField` | pkg/libol/message.go:298-298 | a payload is found again exactly if it is shorter than 65536 bytes |
| `Framing.WireBytes` | pkg/libol/message.go:295-302 | a frame on the wire is ff ff, the size modulo 65536 in two big-endian bytes, and the encrypted payload |
| `Framing.ParseBad` | pkg/libol/message.go:353-360 | a receive fails for its magic exactly if enough bytes are there and they do not begin with ff ff |
| `Messager.FrameMessage.Append` | pkg/libol/message.go:172-180 | data is added to the payload if all of it fits, else nothing changes |
| `Messager.StreamMessager.Encode` | pkg/libol/message.go:295-302 | the front of the buffer becomes the wire form of the payload |
| `Messager.StreamMessager.WriteX` | pkg/libol/message.go:266-293 | for every way writes are cut short, all bytes are written once and in order |
| `Messager.StreamMessager.Send` | pkg/libol/message.go:304-311 | the connection gets the wire form of the payload |
| `Messager.StreamMessager.SendAll` | pkg/libol/socket.go:108-127 | messages sent one after the other put exactly the stream of their payloads on the connection |
| `Messager.StreamMessager.Decode` | pkg/libol/message.go:353-374 | finds, decrypts in place and splits off a frame; no byte outside the frame changes |
| `Messager.StreamMessager.Receive` | pkg/libol/message.go:377-409 | the outcome depends on the pending bytes alone, not on how reads cut them, and is a wrong magic exactly if these do not begin with ff ff; the frame and the rest are a partition of the pending bytes; bytes outside the old buffer never change |
| `Messager.StreamMessager.ReadLoop` | pkg/libol/socket.go:403-439 | for every list of frames, every cut into reads and every sound cipher exactly those frames are queued in order, and they are still intact when the loop ends |
| `Leases.AddLeaseBothOrNone` | pkg/olsw/cache/network.go:110-123 | the two capped Set calls take effect together or not at all, and the indexes stay inverse |
| `Leases.AddStaticKeeps` | pkg/olsw/openlan.go:80-86 | a new static host keeps the indexes in agreement |
| `Leases.DelLeaseKeeps` | pkg/olsw/cache/network.go:125-146 | a dynamic lease leaves both indexes, a static one neither, and the indexes stay inverse |
| `Leases.RequestKeeps` | pkg/olsw/app/request.go:68-100 | a request keeps everything that runs keep, the indexes' agreement and the ownership of dynamic leases, if and only if the alias is not the key of another point's dynamic lease |
| `Leases.Answers` | pkg/olsw/app/request.go:68-100 | a point gets the lease of its alias, else its own, made if an address was found and there is room; a lease keeps its address and every other key its lease |
| `Leases.AliasDecides` | pkg/olsw/app/request.go:75-84 | after a request and the release of its alias the indexes are inverse if and only if the alias was not the key of another point's dynamic lease; otherwise its address is left indexed with no key |
| `Leases.OrphanedForEver` | pkg/olsw/cache/network.go:125-146 | in every further run of hosts, requests and releases such an address stays indexed and no key leads to it |
| `Leases.FoundInRange` | pkg/olsw/cache/network.go:60-77 | the address handed out is none or reads as a number of the range if and only if the range does not end at 255.255.255.255 with every address taken |
| `Leases.LowestFree` | pkg/olsw/cache/network.go:67-76 | it is the lowest address that is not taken, and there is none exactly if the range is empty or no address, or all of it is taken and the counter does not wrap |
| `Text.Reads` | pkg/olsw/cache/network.go:69-72 | a text reads as a number, in dotted decimals, if and only if it is the text the search makes of that number |
| `Leases.WrapHandsOutZero` | pkg/olsw/cache/network.go:68-75 | a run in which a request for a range at the very end gets 0.0.0.0 |
| `Leases.RunAgrees` | pkg/olsw/cache/network.go:60-146 | in every run of hosts, requests and releases the two indexes are inverse on the same lease objects |
| `Leases.NoAddressHeldTwice` | pkg/olsw/cache/network.go:60-146 | in every run two keys never hold the same address |
| `Leases.LeaseStays` | pkg/olsw/cache/network.go:110-146 | in every run a key keeps its lease and address until it is released, a static one for ever |
| `Leases.HostStays` | pkg/olsw/openlan.go:80-86 | a host of the configuration is marked static and has its address in every later state, unless the cache was full |
| `Leases.FreeBelow` | pkg/olsw/cache/network.go:68-75 | a full cache leaves a free address among any 1025, so the search ends even when its counter wraps |
| `LeaseCache.Cache.AllocLease` | pkg/olsw/cache/network.go:60-77 | returns the first free address of the range, the first free one at all after a wrap, or none |
| `LeaseCache.Cache.AddLease` | pkg/olsw/cache/network.go:110-123 | is the step function, and says which object was made |
| `LeaseCache.Cache.AddHost` | pkg/olsw/openlan.go:80-86 | is the step function for a static host and keeps the agreement |
| `LeaseCache.Cache.DelLease` | pkg/olsw/cache/network.go:125-146 | is the step function and keeps the agreement |
| `LeaseCache.Cache.GetLease` | pkg/olsw/app/request.go:68-100 | is the step function of a request for every alias, keeps the agreement if and only if the alias is not another point's dynamic key, and returns the object under that alias, else under the point's own key |
| `SessionRuns.StepKeeps` | pkg/libol/socket.go:364-401 | every handler keeps counters, sockets, point indexes and leases consistent |
| `SessionRuns.RoomForPoint` | pkg/olsw/cache/point.go:18-22 | when a registered client logs in no point index is full |
| `SessionRuns.PointCap` | pkg/olsw/cache/point.go:14-22 | the three indexes agree after a login if and only if the client index had room |
| `SessionTheorems.Admission` | pkg/libol/socket.go:467-490 | in every run accepted = alive + closed, alive = registered + waiting, alive is at most the limit and the client map never refuses a client |
| `SessionTheorems.CountedOnce` | pkg/libol/socket.go:375-388 | a closed client stays closed, and further offline events for it move no counter |
| `SessionTheorems.PointIndexes` | pkg/olsw/cache/point.go:18-60 | in every run the three point indexes agree, and the uuid index names a registered client with that uuid and an open tap |
| `SessionTheorems.Takeover` | pkg/olsw/app/access.go:85-116 | a login with a uuid that another connection holds makes the new one current and sends the older one offline |
| `SessionTheorems.SupersededClose` | pkg/olsw/switch.go:529-539 | closing a superseded client closes its own tap and leaves the newer one's index entry, point, open tap and every lease |
| `SessionTheorems.CurrentClose` | pkg/olsw/switch.go:529-539 | closing the current client removes its index entry, its tap and its lease unless that is static |
| `SessionTheorems.LoginGate` | pkg/olsw/app/access.go:22-83 | in every run whatever reaches the later hooks or a tap, login messages included, follows a login of that client whose credentials were checked and accepted, with no close since; the tap is the one that login created, for the network of those credentials |
| `SessionTheorems.SmallCapDisagrees` | pkg/olsw/cache/point.go:14-22 | a run with room for one point after whose second login the indexes disagree |
| `SessionOutcomes.Admitted` | pkg/libol/socket.go:467-490 | in every run a connection is refused exactly when 128 are alive, else it waits; the head of the queue becomes connected and registered under an address nobody had |
| `SessionOutcomes.LoggedInIs` | pkg/olsw/app/access.go:85-116 | from an accepted login to its close a client is authenticated, with the point and tap of that login |
| `SessionOutcomes.FrameOutcome` | pkg/olsw/switch.go:492-527 | in every run a frame of a client that is not logged in is dropped; otherwise an ethernet frame is written, unchanged, to the tap made by that client's login unless there is none or inspection cannot read it, a request to leave queues the client, a request for an address is made for the uuid and alias of that login |
| `SessionOutcomes.LoginOutcome` | pkg/olsw/app/access.go:55-116 | in every run what each login does: passes unchanged when logged in, is dropped unless accepted, and when accepted makes the tap, enters the point in all three indexes and queues the user's last client and the uuid's previous holder |
| `SessionOutcomes.OfflineHandled` | pkg/libol/socket.go:375-401 | in every run a client at some place of the offline queue is closed when its turn comes, unless it still waits to be registered or was closed before |
| `SessionOutcomes.StaticStays` | pkg/olsw/cache/network.go:125-146 | in every run of the switch a static lease keeps its key, object and address |
| `SwitchServer.Switch.PreAccept` | pkg/libol/socket.go:467-490 | is the accept step and refuses exactly at the limit |
| `SwitchServer.Switch.DoOnClient` | pkg/libol/socket.go:364-373 | is the registration step and keeps the invariant |
| `SwitchServer.Switch.DoOffClient` | pkg/libol/socket.go:375-388 | is the close step and keeps the invariant |
| `SwitchServer.Switch.OnClose` | pkg/olsw/switch.go:529-539 | releases the lease only of the current connection, the point and its tap in any case |
| `SwitchServer.Switch.HandleLogin` | pkg/olsw/app/access.go:55-83 | is the login step with all its outcomes and keeps the invariant |
| `SwitchServer.Switch.AddPoint` | pkg/olsw/cache/point.go:18-22 | the three index updates with their capacities |
| `SwitchServer.Switch.ReadClient` | pkg/olsw/switch.go:492-527 | drops every frame of a client that is not authenticated, writes ethernet frames to the client's own tap |
| `SwitchServer.Switch.OffClient` | pkg/libol/socket.go:357-362 | is the offline step and keeps the invariant |
| `SwitchServer.Switch.Handle` | pkg/libol/socket.go:390-401 | one event handled by its method is one step of a run, with the effect that run records |
| `SwitchServer.Switch.Serve` | pkg/libol/socket.go:390-401 | the states the methods pass through on any list of events are a run, so admission, takeover, close and login gate hold of the class |
| `Codecs.EtherBytes` | pkg/libol/protocol.go:59-80 | re-encoding a decoded ethernet header gives back its bytes |
| `Codecs.VlanBytes` | pkg/libol/protocol.go:119-140 | re-encoding a decoded VLAN tag gives back its bytes, packed word included |
| `Codecs.VlanDecodes` | pkg/libol/protocol.go:119-140 | an encoded tag decodes to itself exactly if its two parts have room in the packed word |
| `Codecs.ArpBytes` | pkg/libol/protocol.go:189-247 | re-encoding a decoded ARP message gives back its bytes |
| `Codecs.ArpDecodes` | pkg/libol/protocol.go:189-247 | an encoded ARP message decodes to itself, whatever follows |
| `Codecs.Ipv4Bytes` | pkg/libol/protocol.go:352-395 | re-encoding a decoded IPv4 header gives back its bytes, both packed words included |
| `Codecs.Ipv4Decodes` | pkg/libol/protocol.go:352-395 | an encoded header decodes to itself exactly if it is version 4 and its parts have room |
| `Codecs.TcpBytes` | pkg/libol/protocol.go:447-479 | re-encoding a decoded TCP header gives back its bytes |
| `Codecs.UdpBytes` | pkg/libol/protocol.go:510-532 | re-encoding a decoded UDP header gives back its bytes |
| `Codecs.FrameBytes` | pkg/libol/message.go:59-93 | whatever frame decodes, its decoded headers encoded in order are the front of the frame |
| `Codecs.FrameParts` | pkg/libol/message.go:59-93 | a frame decodes exactly if its bytes at fixed positions and its length allow; which of the VLAN, ARP, IPv4, TCP and UDP headers it then has, and the position of each of their fields |
| `Codecs.OrBits` | pkg/libol/protocol.go:119-140 | the or of the packed words is the or of their bits |
| `TapWorker.DataToDevice` | pkg/olap/tap.go:250-286 | a wrapped packet is what the other worker writes if and only if it was wrapped for a non-zero address, else nothing is written |
| `TapWorker.DeviceBytes` | pkg/olap/tap.go:250-286 | a frame is written exactly if its type bytes are 08 00 and it is not addressed to all zeros, and then all that follows the header |
| `TapWorker.HeardBytes` | pkg/olap/tap.go:294-348 | which frames are answered, learned from, ignored or not ARP at all, as a condition on their bytes |
| `TapWorker.ArpLayout` | pkg/olap/tap.go:150-167 | requests and replies byte by byte as RFC 826 lays them out |
| `TapWorker.DataLayout` | pkg/olap/tap.go:169-193 | a wrapped packet byte by byte |
| `TapWorker.NeighborOfAnswers` | pkg/olap/neighbor.go:93-114 | after any replies an address has the hardware address and time of its latest reply, and an entry keeps the time it was made |
| `TapWorker.ControlRoundTrip` | pkg/libol/message.go:206-233 | a control frame is recognised and carries its body; it carries its action exactly if that is six bytes |
| `TapWorker.EthernetIsNotControl` | pkg/libol/message.go:37-45 | an ethernet frame is taken for control exactly if its destination is all zeros |
| `TapWorker.Worker.OnMiss` | pkg/olap/tap.go:150-167 | broadcasts the encoded request for the missing address |
| `TapWorker.Worker.OnFrame` | pkg/olap/tap.go:169-193 | wraps the packet for its next hop, or asks for the next hop and drops it, or drops what is not IPv4 |
| `TapWorker.Worker.ToArp` | pkg/olap/tap.go:294-348 | answers requests for its own address, learns from replies to it, consumes every other ARP frame |
| `TapWorker.Worker.DoWrite` | pkg/olap/tap.go:250-286 | writes the packet of an IPv4 frame and nothing else |
| `TapWorker.Worker.ReadAt` | pkg/olap/socket.go:506-530 | control frames stay with the socket, all others are written or answered as the worker does |
| `ArpNetwork.RunKeeps` | pkg/olap/tap.go:294-348 | on a medium that loses, duplicates and reorders, no frame ever sent can teach anyone an untruth |
| `ArpNetwork.NeighborsAreTrue` | pkg/olap/neighbor.go:93-114 | in every run each neighbor entry binds an IP address to the hardware address of its owner |
| `ArpNetwork.Resolves` | pkg/olap/tap.go:150-167 | a delivered request is answered, and the delivered answer stores the owner's address if and only if the asker's hardware address is not all zeros |
| `ArpNetwork.ZeroNeighborGetsNothing` | pkg/olap/tap.go:169-193 | a run in which a worker learns the all-zero address of another and the packet it wraps for it does not reach the owner's device |
| `TunLink.WrapAll` | pkg/olap/tap.go:169-193 | packets with known next hops are wrapped one by one for those neighbors |
| `TunLink.DeliverAll` | pkg/olap/socket.go:506-530 | of the frames that were read exactly the packets wrapped for a non-zero address are written, in order |
| `TunLink.AllReach` | pkg/olap/tap.go:250-286 | with non-zero neighbors those are all the packets |
| `TunLink.Carry` | pkg/olap/tap.go:169-286 | any list of packets wrapped, framed, encrypted, cut into reads of any size, reassembled and handed over: exactly those wrapped for a non-zero address are written to the other device, unchanged and in order |
| `Bridge.TableOfHistory` | pkg/network/bridge_virtual.go:158-180 | for every history the table holds exactly the sources whose latest frame no later expiry found too old, with the port and time of that frame |
| `Bridge.NoGroupLearned` | pkg/network/bridge_virtual.go:209-213 | no group address is ever learned |
| `Bridge.VirtualBridge.Learn` | pkg/network/bridge_virtual.go:209-252 | the table stays the one computed from the history |
| `Bridge.VirtualBridge.UniCast` | pkg/network/bridge_virtual.go:293-314 | a destination in the table gets the frame on its one port if that is up and not the source, else it is dropped; counters move accordingly |
| `Bridge.VirtualBridge.Flood` | pkg/network/bridge_virtual.go:267-291 | every port but the source gets the frame once |
| `Bridge.VirtualBridge.Input` | pkg/network/bridge_virtual.go:196-200 | in terms of the history: the port of the current frame of the destination gets the frame, and nothing else, or it is dropped if that port is down or the source; without a current frame every port but the source gets it once |
| `Bridge.VirtualBridge.Expire` | pkg/network/bridge_virtual.go:158-180 | the collect and delete loops leave the table computed from the history with this tick |
| `BridgeThreads.StepKeeps` | pkg/network/bridge_virtual.go:209-252 | each critical section keeps entries distinct objects, and an update under the read lock holds the entry that is in the table |
| `BridgeThreads.EntryOf` | pkg/network/bridge_virtual.go:209-252 | in every interleaving an entry's port is that of the frame whose Learn wrote the port last, and its time that of the last write of the time |
| `BridgeThreads.NamesLatestFrame` | pkg/network/bridge_virtual.go:209-252 | once no Learn for a source is under way, its entry names the port of its latest frame if and only if no earlier frame, from another port and still under way when that one arrived, wrote after it |
| `BridgeThreads.SequentialLearn` | pkg/network/bridge_virtual.go:209-252 | when the Learn calls of a source do not overlap its entry is that of its latest frame, port and time |
| `BridgeThreads.OverlapMixesFrames` | pkg/network/bridge_virtual.go:245-252 | a run in which the entry ends with the older frame's port and the newer frame's time |
| `BridgeThreads.DeletesTheCollected` | pkg/network/bridge_virtual.go:158-180 | in every run Expire deletes an entry if and only if it was too old when collected, whatever Learn did in between |
| `BridgeThreads.LostFresh` | pkg/network/bridge_virtual.go:158-180 | a deleted entry is a fresh one if and only if a Learn for its source wrote its time between the two phases |
| `BridgeThreads.RefreshedEntryCanBeLost` | pkg/network/bridge_virtual.go:158-180 | a run in which Expire deletes an entry refreshed since it was collected |
| `VirtualTap.StepKeeps` | pkg/network/tap_virtual.go:72-136 | each critical section and channel operation keeps counter, queue and readers consistent |
| `VirtualTap.NeverBlocks` | pkg/network/tap_virtual.go:72-136 | under any interleaving the counter is queued plus taken items, a send that passes its test has room, and what was received is a prefix of what was accepted |
| `VirtualTap.WritesArrive` | pkg/network/tap_virtual.go:72-117 | in every run what was accepted is, in order, the data of exactly the writes that found room, all others are counted as drops, and each receive got the oldest one left |
| `VirtualTap.Tap.Write` | pkg/network/tap_virtual.go:72-89 | data is appended to the channel if queued and uncounted items are below the limit, else dropped and counted; the send made with the lock held finds room |
| `VirtualTap.Tap.RecvTake` | pkg/network/tap_virtual.go:105-117 | a reader gets the oldest item |
| `VirtualTap.Tap.RecvDone` | pkg/network/tap_virtual.go:113-115 | the reader counts its item off |
| `Online.KeyInjective` | pkg/models/line.go:29-37 | different flows have different printed keys |
| `Online.HoldsNewest` | pkg/olsw/app/online.go:64-95 | after any frames list, map and cache hold the same flows, each once, the newest insertions up to the limit |
| `Online.CacheMirrors` | pkg/olsw/cache/online.go:16-18 | the capped cache mirrors the map exactly when the limit is not negative or nothing has come yet |
| `Online.Table.PopLine` | pkg/olsw/app/online.go:64-77 | at the limit the oldest flow leaves list, map and cache |
| `Online.Table.AddLine` | pkg/olsw/app/online.go:79-95 | a new flow enters all three after making room, a known one changes none |
| `Online.Table.OnFrame` | pkg/olsw/app/online.go:32-62 | a frame is refused exactly if it does not decode; an IPv4 frame enters the flow of its bytes: addresses, protocol, and for TCP and UDP the ports |
| `Networks.SortedUnique` | pkg/models/network.go:93-94 | two sorted lists with the same strings are the same list |
| `Networks.NetworkEqual` | pkg/models/network.go:74-102 | true exactly for the same object, or equal address and netmask and the same printed routes in any order |
| `Networks.SameIsEquivalence` | pkg/models/network.go:74-102 | so it is an equivalence relation |
| `Networks.PrintAlike` | pkg/models/network.go:27-29 | two routes print alike exactly if they are the same or one prefix runs on over the separator into the other's next hop |
| `Networks.SameRoutes` | pkg/models/network.go:83-102 | without commas in prefixes, the printed routes are the same in some order exactly if the routes are |

## Left out

- Sockets, TLS, KCP, websocket and UDP transports, deadlines, write errors and logging: a connection is a byte stream with arbitrary non-empty reads and writes, and a failing read.
- Foreign calls: netlink, iptables, the OVS client and its errors, LDAP; for the fabric only the flow entries, for users only the outcome of the check.
- Port names of tunnels: two remote addresses that differ only in their dots get the same name; the model takes names and port ids as given.
- `Messager.StreamMessager.Receive`: the source passes a minimum of 15; the model asks for at least the 4 header bytes, below which the source would slice past its data.
- `Codecs`: headers are values, because encoding and decoding alias nothing; the fill of a fresh buffer field by field is one concatenation.
- `LeaseCache.Cache.GetLease`: the branch for a client-chosen address, which no caller reaches, and range ends that are IPv6 addresses.
- The unlocked gap between address search and insertion, and readers racing with a close: handlers are atomic steps.
- The neighbor inspection's table: only that it refuses what does not decode.
- Keepalive and reconnect timers, the client side's Retry and connection switch, and the periodic refresh of neighbors: they add no state the theorems need.
- Hit times of flows and of points, statistics other than the admission and bridge counters: display only.
- Down followed by Up on a virtual tap: one up period; a reader's own buffer, which may cut an item short.
- Metric and mode of routes, which `NetworkEqual` does not look at.
- Hardware addresses as text: table keys are the six bytes.
- HTTP APIs, commands, configuration loading and the datagram messager: plumbing or simpler members of the same kind.
