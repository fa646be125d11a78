/** The flow program of the fabric worker and what it guarantees of every run. */
module Fabric {
  import opened Options
  import opened OpenFlow

  // Tables.
  const T_LS_TO_TUN: nat := 2
  const T_TUN_TO_LS: nat := 4
  const T_SOURCE_LEARN: nat := 10
  const T_UCAST_TO_TUN: nat := 20
  const T_FLOOD_TO_TUN: nat := 30
  const T_FLOOD_TO_BOR: nat := 31
  const T_FLOOD_LOOP: nat := 32

  // Values of the register flag.
  const F_FROM_LS: nat := 2
  const F_FROM_TUN: nat := 4

  /** The maps the worker keeps: OVS port of each tunnel and border by port name, OVS port
      of the patch of each network by VNI. */
  datatype Config = Config(tunnels: map<string, nat>, borders: map<string, nat>, networks: map<nat, nat>) {
    function Tunnels(): set<nat> { tunnels.Values }
    function Borders(): set<nat> { borders.Values }
    function Patches(): set<nat> { networks.Values }
    function Ports(): set<nat> { Tunnels() + Borders() + Patches() }

    /** Port ids are non-zero and no two ports share one. */
    ghost predicate Valid() {
      && 0 !in Ports()
      && Injective(tunnels) && Injective(borders) && Injective(networks)
      && Tunnels() !! Borders() && Tunnels() !! Patches() && Borders() !! Patches()
    }

    /** The VNI a frame belongs to: that of the patch it entered on, or the tunnel id it carries. */
    ghost function VniOf(p: Packet): nat {
      if p.inPort in Patches() then (var v :| v in networks && networks[v] == p.inPort; v) else p.tunId
    }
  }

  ghost predicate Injective<K(!new)>(m: map<K, nat>) {
    forall a, b :: a in m && b in m && m[a] == m[b] ==> a == b
  }

  // ---- The flow entries.

  const ANY: Match := Match(None, None, None, None)

  function OnPort(port: nat): Key { Key(0, 1, ANY.(inPort := Some(port))) }
  function OnFlag(table: nat, flag: nat): Key { Key(table, 1, ANY.(reg := Some(flag))) }
  function OnVni(table: nat, vni: nat, flag: nat): Key { Key(table, 2, ANY.(tunId := Some(vni), reg := Some(flag))) }
  function Learned(vni: nat, mac: nat): Key { LearnedKey(T_UCAST_TO_TUN, 1, vni, mac) }

  const DROP_ALL: Key := Key(0, 0, ANY)
  const SET_LS: Key := Key(T_LS_TO_TUN, 1, ANY)
  const SET_TUN: Key := Key(T_TUN_TO_LS, 1, ANY)
  const LEARN: Key := Key(T_SOURCE_LEARN, 0, ANY)
  const UNKNOWN: Key := Key(T_UCAST_TO_TUN, 0, ANY)
  const NO_TUN: Key := Key(T_FLOOD_TO_TUN, 0, ANY)
  const NO_BOR: Key := Key(T_FLOOD_TO_BOR, 0, ANY)

  /** The keys `upTables` installs, and the actions it gives them. */
  predicate IsBase(k: Key) {
    k == DROP_ALL || k == SET_LS || k == SET_TUN || k == LEARN || k == UNKNOWN || k == NO_TUN || k == NO_BOR
  }

  function BaseActions(table: nat): seq<Action> {
    if table == T_LS_TO_TUN then [LoadReg(F_FROM_LS), Resubmit(T_SOURCE_LEARN)]
    else if table == T_TUN_TO_LS then [LoadReg(F_FROM_TUN), Resubmit(T_SOURCE_LEARN)]
    else if table == T_SOURCE_LEARN then [Action.Learn(T_UCAST_TO_TUN, 1), Resubmit(T_UCAST_TO_TUN)]
    else if table == T_UCAST_TO_TUN then [Resubmit(T_FLOOD_TO_TUN)]
    else [Drop]
  }

  /** `order` lists each value of `m` once: one possible order of a Go map iteration. */
  ghost predicate Lists(order: seq<nat>, m: map<string, nat>) {
    && (forall i, j :: 0 <= i < j < |order| ==> order[i] != order[j])
    && (set p | p in order) == m.Values
  }

  function FloodTunnelActions(order: seq<nat>): seq<Action> { Outputs(order) + [Resubmit(T_FLOOD_TO_BOR)] }
  function FloodBorderActions(order: seq<nat>): seq<Action> { Outputs(order) + [Resubmit(T_FLOOD_LOOP)] }

  ghost predicate FloodsTunnels(actions: seq<Action>, c: Config) {
    exists order :: Lists(order, c.tunnels) && actions == FloodTunnelActions(order)
  }

  ghost predicate FloodsBorders(toTun: seq<Action>, toLs: seq<Action>, c: Config) {
    exists order :: Lists(order, c.borders) && toTun == Outputs(order) && toLs == FloodBorderActions(order)
  }

  // ---- The program: what the flow table holds for a configuration, in both directions.

  ghost predicate Ingress(c: Config, f: Flows) {
    && (forall v :: v in c.networks ==>
          OnPort(c.networks[v]) in f && f[OnPort(c.networks[v])] == [LoadTunId(v), Resubmit(T_LS_TO_TUN)])
    && (forall n :: n in c.borders ==>
          OnPort(c.borders[n]) in f && f[OnPort(c.borders[n])] == [Resubmit(T_LS_TO_TUN)])
    && (forall n :: n in c.tunnels ==>
          OnPort(c.tunnels[n]) in f && f[OnPort(c.tunnels[n])] == [Resubmit(T_TUN_TO_LS)])
  }

  ghost predicate Flooding(c: Config, f: Flows) {
    && (OnFlag(T_FLOOD_TO_TUN, F_FROM_LS) in f <==> c.tunnels != map[])
    && (c.tunnels != map[] ==> FloodsTunnels(f[OnFlag(T_FLOOD_TO_TUN, F_FROM_LS)], c))
    && (OnFlag(T_FLOOD_TO_BOR, F_FROM_TUN) in f <==> c.borders != map[])
    && (OnFlag(T_FLOOD_TO_BOR, F_FROM_LS) in f <==> c.borders != map[])
    && (c.borders != map[] ==>
          FloodsBorders(f[OnFlag(T_FLOOD_TO_BOR, F_FROM_TUN)], f[OnFlag(T_FLOOD_TO_BOR, F_FROM_LS)], c))
    && (forall v :: v in c.networks ==>
          && OnVni(T_FLOOD_TO_TUN, v, F_FROM_TUN) in f
          && f[OnVni(T_FLOOD_TO_TUN, v, F_FROM_TUN)] == [Output(c.networks[v]), Resubmit(T_FLOOD_TO_BOR)]
          && OnVni(T_FLOOD_LOOP, v, F_FROM_LS) in f
          && f[OnVni(T_FLOOD_LOOP, v, F_FROM_LS)] == [Output(c.networks[v])])
  }

  /** A learned flow names a known port, and if that port is a patch it is the patch of the
      flow's own VNI. */
  predicate LearnedOk(c: Config, vni: nat, actions: seq<Action>) {
    && |actions| == 1 && actions[0].Output? && actions[0].port in c.Ports()
    && (actions[0].port in c.Patches() ==> vni in c.networks && c.networks[vni] == actions[0].port)
  }

  predicate IsLearned(k: Key) {
    k.fields.tunId.Some? && k.fields.dst.Some? && k == Learned(k.fields.tunId.value, k.fields.dst.value)
  }

  predicate IsIngress(c: Config, k: Key) {
    k.fields.inPort.Some? && k.fields.inPort.value in c.Ports() && k == OnPort(k.fields.inPort.value)
  }

  predicate IsFlood(k: Key) {
    || k == OnFlag(T_FLOOD_TO_TUN, F_FROM_LS)
    || k == OnFlag(T_FLOOD_TO_BOR, F_FROM_TUN)
    || k == OnFlag(T_FLOOD_TO_BOR, F_FROM_LS)
  }

  predicate IsVni(c: Config, k: Key) {
    && k.fields.tunId.Some? && k.fields.tunId.value in c.networks
    && (k == OnVni(T_FLOOD_TO_TUN, k.fields.tunId.value, F_FROM_TUN) ||
        k == OnVni(T_FLOOD_LOOP, k.fields.tunId.value, F_FROM_LS))
  }

  /** Every entry of the table is one the worker or `learn` put there. */
  predicate Known(c: Config, k: Key) {
    IsBase(k) || IsIngress(c, k) || IsFlood(k) || IsVni(c, k) || IsLearned(k)
  }

  ghost predicate Program(c: Config, f: Flows) {
    && c.Valid()
    && (forall k :: IsBase(k) ==> k in f && f[k] == BaseActions(k.table))
    && Ingress(c, f)
    && Flooding(c, f)
    && (forall k :: k in f ==> Known(c, k))
    && (forall k :: k in f && IsLearned(k) ==> LearnedOk(c, k.fields.tunId.value, f[k]))
  }

  /** Resubmit chains of the program end because table numbers rise. */
  lemma ProgramRises(c: Config, f: Flows)
    requires Program(c, f)
    ensures Rising(f)
  {
    forall k | k in f ensures ActionsRise(k.table, f[k]) {
      assert Known(c, k);
      if IsIngress(c, k) {
        IngressRises(c, f, k);
      } else if IsFlood(k) {
        FloodRises(c, f, k);
      }
    }
  }

  lemma IngressRises(c: Config, f: Flows, k: Key)
    requires Ingress(c, f) && k in f && IsIngress(c, k)
    ensures ActionsRise(k.table, f[k])
  {
    var p := k.fields.inPort.value;
    if p in c.Patches() {
      var v :| v in c.networks && c.networks[v] == p;
    } else if p in c.Borders() {
      var n :| n in c.borders && c.borders[n] == p;
    } else {
      var n :| n in c.tunnels && c.tunnels[n] == p;
    }
  }

  lemma FloodRises(c: Config, f: Flows, k: Key)
    requires Flooding(c, f) && k in f && IsFlood(k)
    ensures ActionsRise(k.table, f[k])
  {
  }

  /** No packet ever has two candidates of the highest priority, so the switch's freedom to
      choose among them never matters. */
  lemma NoAmbiguity(c: Config, f: Flows, table: nat, p: Packet, a: Key, b: Key)
    requires Program(c, f)
    requires IsBest(f, table, p, a) && IsBest(f, table, p, b)
    ensures a == b
  {
    assert Candidate(f, table, p, a) && Candidate(f, table, p, b);
    assert a.priority == b.priority;
    SameKey(c, table, p, a, b);
  }

  lemma SameKey(c: Config, table: nat, p: Packet, a: Key, b: Key)
    requires Known(c, a) && Known(c, b) && a.priority == b.priority && a.table == b.table == table
    requires Matches(a.fields, p) && Matches(b.fields, p)
    ensures a == b
  {
  }
}
