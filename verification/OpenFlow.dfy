/** A pure evaluator for the fragment of OpenFlow that the fabric worker programs:
    highest-priority match (section 3.4 of the OpenFlow Switch Specification 1.0.0),
    a flow added with an identical match replaces the old one (section 4.6), a packet is
    not sent out of its ingress port (section 5.2.1), and the `resubmit` and `learn`
    actions of ovs-actions(7). */
module OpenFlow {
  import opened Options

  /** The packet fields and metadata that the flows read or write.  `tunId` is
      NXM_NX_TUN_ID[0..31] and `reg` is NXM_NX_REG10. */
  datatype Packet = Packet(inPort: nat, tunId: nat, reg: nat, src: nat, dst: nat)

  datatype Match = Match(inPort: Option<nat>, tunId: Option<nat>, reg: Option<nat>, dst: Option<nat>)

  datatype Key = Key(table: nat, priority: nat, fields: Match)

  datatype Action =
    | Drop
    | Output(port: nat)
    | LoadTunId(id: nat)
    | LoadReg(flag: nat)
    | Resubmit(table: nat)
    | Learn(table: nat, priority: nat)

  /** Two flows with the same table, priority and match are the same entry, so adding
      one of them is a map update. */
  type Flows = map<Key, seq<Action>>

  const LAST_TABLE: nat := 254

  predicate Agrees(field: Option<nat>, value: nat) {
    field.None? || field.value == value
  }

  predicate Matches(m: Match, p: Packet) {
    Agrees(m.inPort, p.inPort) && Agrees(m.tunId, p.tunId) && Agrees(m.reg, p.reg) && Agrees(m.dst, p.dst)
  }

  predicate Candidate(flows: Flows, table: nat, p: Packet, k: Key) {
    k in flows && k.table == table && Matches(k.fields, p)
  }

  ghost predicate IsBest(flows: Flows, table: nat, p: Packet, k: Key) {
    && Candidate(flows, table, p, k)
    && forall other :: Candidate(flows, table, p, other) ==> other.priority <= k.priority
  }

  /** The flow the switch uses.  Among several candidates of the highest priority the
      switch is free to choose, so nothing is known about which one this is. */
  ghost function Select(flows: Flows, table: nat, p: Packet): Option<Key> {
    if exists k :: IsBest(flows, table, p, k) then
      var k :| IsBest(flows, table, p, k); Some(k)
    else None
  }

  /** The entry that `learn` installs for a packet: match its tunnel id and its source as
      destination, output to the port it came from. */
  function LearnedKey(table: nat, priority: nat, tunId: nat, mac: nat): Key {
    Key(table, priority, Match(None, Some(tunId), None, Some(mac)))
  }

  predicate ActionsRise(table: nat, actions: seq<Action>) {
    forall i :: 0 <= i < |actions| && actions[i].Resubmit? ==> table < actions[i].table <= LAST_TABLE
  }

  /** Every resubmit goes to a higher table: the condition that makes evaluation end. */
  ghost predicate Rising(flows: Flows) {
    forall k :: k in flows ==> ActionsRise(k.table, flows[k])
  }

  /** Evaluation state.  `view` answers lookups, `installed` is what later packets see;
      they differ only when the switch lets a learned flow take effect after the packet
      that taught it. */
  datatype Exec = Exec(view: Flows, installed: Flows, pkt: Packet, outs: seq<nat>) {
    function Emit(port: nat): Exec {
      if port == pkt.inPort then this else this.(outs := outs + [port])
    }

    function Teach(table: nat, priority: nat, now: bool): Exec {
      var k := LearnedKey(table, priority, pkt.tunId, pkt.src);
      this.(installed := installed[k := [Output(pkt.inPort)]],
            view := if now then view[k := [Output(pkt.inPort)]] else view)
    }
  }

  /** An action other than a resubmit. */
  function Apply(a: Action, x: Exec, now: bool): (r: Exec)
    requires !a.Resubmit?
  {
    match a
    case Drop => x
    case Output(port) => x.Emit(port)
    case LoadTunId(id) => x.(pkt := x.pkt.(tunId := id))
    case LoadReg(flag) => x.(pkt := x.pkt.(reg := flag))
    case Learn(t, priority) => x.Teach(t, priority, now)
  }

  ghost function RunTable(table: nat, x: Exec, now: bool): (r: Exec)
    requires Rising(x.view)
    ensures Rising(r.view)
    decreases LAST_TABLE + 1 - table, 1, 0
  {
    var k := Select(x.view, table, x.pkt);
    if k.None? then x else RunActions(table, x.view[k.value], x, now)
  }

  ghost function RunActions(table: nat, actions: seq<Action>, x: Exec, now: bool): (r: Exec)
    requires Rising(x.view) && ActionsRise(table, actions)
    ensures Rising(r.view)
    decreases LAST_TABLE + 1 - table, 0, |actions|
  {
    if actions == [] then x else
      var next := if actions[0].Resubmit? then RunTable(actions[0].table, x, now) else Apply(actions[0], x, now);
      assert ActionsRise(table, actions[1..]);
      RunActions(table, actions[1..], next, now)
  }

  /** A packet enters at table 0. */
  ghost function Process(flows: Flows, p: Packet, now: bool): Exec
    requires Rising(flows)
  {
    RunTable(0, Exec(flows, flows, p, []), now)
  }

  lemma SelectUnique(flows: Flows, table: nat, p: Packet, k: Key)
    requires Candidate(flows, table, p, k)
    requires forall other :: Candidate(flows, table, p, other) && other != k ==> other.priority < k.priority
    ensures Select(flows, table, p) == Some(k)
  {
    assert IsBest(flows, table, p, k);
  }

  lemma SelectNone(flows: Flows, table: nat, p: Packet)
    requires forall k :: !Candidate(flows, table, p, k)
    ensures Select(flows, table, p) == None
  {
  }

  lemma RunPicked(table: nat, x: Exec, k: Key, now: bool)
    requires Rising(x.view) && Select(x.view, table, x.pkt) == Some(k) && k in x.view
    ensures RunTable(table, x, now) == RunActions(table, x.view[k], x, now)
  {
  }

  lemma RunOne(table: nat, a: Action, x: Exec, now: bool)
    requires Rising(x.view) && ActionsRise(table, [a])
    ensures RunActions(table, [a], x, now) ==
            if a.Resubmit? then RunTable(a.table, x, now) else Apply(a, x, now)
  {
    assert [a][1..] == [];
  }

  lemma RunTwo(table: nat, a: Action, t: nat, x: Exec, now: bool)
    requires Rising(x.view) && !a.Resubmit? && ActionsRise(table, [a, Resubmit(t)])
    ensures Rising(Apply(a, x, now).view)
    ensures RunActions(table, [a, Resubmit(t)], x, now) == RunTable(t, Apply(a, x, now), now)
  {
    assert [a, Resubmit(t)][1..] == [Resubmit(t)];
    RunOne(table, Resubmit(t), Apply(a, x, now), now);
  }

  function Outputs(ports: seq<nat>): seq<Action> {
    seq(|ports|, i requires 0 <= i < |ports| => Output(ports[i]))
  }

  function EmitAll(x: Exec, ports: seq<nat>): (r: Exec)
    ensures r == x.(outs := r.outs)
    decreases |ports|
  {
    if ports == [] then x else EmitAll(x.Emit(ports[0]), ports[1..])
  }

  /** Emitting a list without repeats adds exactly the list minus the ingress port. */
  lemma {:induction false} EmitAllAdds(x: Exec, ports: seq<nat>)
    requires forall i, j :: 0 <= i < j < |ports| ==> ports[i] != ports[j]
    ensures multiset(EmitAll(x, ports).outs) == multiset(x.outs) + multiset((set p | p in ports) - {x.pkt.inPort})
    decreases |ports|
  {
    if ports == [] {
      assert (set p | p in ports) == {};
    } else {
      var rest := ports[1..];
      EmitAllAdds(x.Emit(ports[0]), rest);
      assert ports[0] !in rest;
      assert (set p | p in ports) == (set p | p in rest) + {ports[0]};
    }
  }

  /** A block of outputs followed by `tail` emits them all and goes on with `tail`. */
  lemma {:induction false} RunOutputs(table: nat, ports: seq<nat>, tail: seq<Action>, x: Exec, now: bool)
    requires Rising(x.view) && ActionsRise(table, tail)
    ensures ActionsRise(table, Outputs(ports) + tail)
    ensures RunActions(table, Outputs(ports) + tail, x, now) == RunActions(table, tail, EmitAll(x, ports), now)
    decreases |ports|
  {
    var acts := Outputs(ports) + tail;
    assert ActionsRise(table, acts);
    if ports == [] {
      assert acts == tail;
    } else {
      assert acts[0] == Output(ports[0]);
      assert acts[1..] == Outputs(ports[1..]) + tail;
      RunOutputs(table, ports[1..], tail, x.Emit(ports[0]), now);
    }
  }
}
