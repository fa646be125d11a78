/** Isolation and flooding, for one packet and for every run of configuration changes,
    packets and timeouts of learned flows. */
module FabricRuns {
  import opened OpenFlow
  import opened Fabric
  import opened FabricStages

  /** A frame as it leaves tables 0 and 2/4: stamped with its VNI and its flag. */
  ghost function Stamped(c: Config, p: Packet): Packet {
    p.(tunId := c.VniOf(p), reg := if p.inPort in c.Tunnels() then F_FROM_TUN else F_FROM_LS)
  }

  /** The flow table lookups see after a frame taught its source. */
  ghost function Taught(c: Config, f: Flows, p: Packet): Flows {
    f[Learned(c.VniOf(p), p.src) := [Output(p.inPort)]]
  }

  /** The whole pipeline: unknown ports are dropped, every other frame teaches its source
      and is output once to each of its destinations. */
  lemma Pipeline(c: Config, f: Flows, p: Packet, now: bool)
    requires Program(c, f)
    ensures Rising(f)
    ensures p.inPort !in c.Ports() ==> Process(f, p, now) == Exec(f, f, p, [])
    ensures p.inPort in c.Ports() ==>
              var view := if now then Taught(c, f, p) else f;
              var r := Process(f, p, now);
              && r.installed == Taught(c, f, p) && Program(c, r.installed) && Program(c, view)
              && multiset(r.outs) == multiset(Destinations(c, view, Stamped(c, p)))
  {
    hide Program;
    ProgramRises(c, f);
    Pick0(c, f, p);
    PortKinds(c, f, p);
    var x := Exec(f, f, p, []);
    if p.inPort in c.Patches() {
      RunTwo(0, LoadTunId(c.VniOf(p)), T_LS_TO_TUN, x, now);
      Table2Or4(c, x.(pkt := p.(tunId := c.VniOf(p))), T_LS_TO_TUN, F_FROM_LS, now);
    } else if p.inPort in c.Borders() {
      RunOne(0, Resubmit(T_LS_TO_TUN), x, now);
      Table2Or4(c, x, T_LS_TO_TUN, F_FROM_LS, now);
    } else if p.inPort in c.Tunnels() {
      RunOne(0, Resubmit(T_TUN_TO_LS), x, now);
      Table2Or4(c, x, T_TUN_TO_LS, F_FROM_TUN, now);
    } else {
      RunOne(0, Drop, x, now);
    }
  }

  /** A port is of one kind, and may teach the VNI of the frames it brings. */
  lemma PortKinds(c: Config, f: Flows, p: Packet)
    requires Program(c, f)
    ensures c.Valid()
    ensures p.inPort in c.Ports() ==> LearnedOk(c, c.VniOf(p), [Output(p.inPort)])
    ensures p.inPort in c.Patches() ==> PatchOf(c, c.VniOf(p)) == {p.inPort}
  {
  }

  /** Isolation for one packet: whatever has been learned, a frame of one VNI is never output
      on the patch of another, and nothing goes back out of its ingress. */
  lemma PacketStaysInVni(c: Config, f: Flows, p: Packet, now: bool)
    requires Program(c, f)
    ensures Rising(f)
    ensures forall port :: port in Process(f, p, now).outs ==> port in c.Ports() && port != p.inPort
    ensures forall port :: port in Process(f, p, now).outs && port in c.Patches() ==>
                             port in PatchOf(c, c.VniOf(p))
  {
    hide Program;
    Pipeline(c, f, p, now);
    if p.inPort in c.Ports() {
      var view := if now then Taught(c, f, p) else f;
      var q := Stamped(c, p);
      var r := Process(f, p, now);
      PortKinds(c, f, p);
      DestinationsStay(c, view, q);
      forall port | port in r.outs ensures port in Destinations(c, view, q) {
        assert port in multiset(r.outs);
      }
    }
  }

  lemma DestinationsStay(c: Config, f: Flows, q: Packet)
    requires Program(c, f)
    ensures forall port :: port in Destinations(c, f, q) ==> port in c.Ports() && port != q.inPort
    ensures forall port :: port in Destinations(c, f, q) && port in c.Patches() ==> port in PatchOf(c, q.tunId)
  {
    hide Program;
    Pick20(c, f, q);
    Apart(c, f, q.tunId);
    PortKinds(c, f, q);
  }

  // ---- Flooding.

  /** Where a frame with an unlearned destination is meant to go. */
  ghost function Intended(c: Config, p: Packet): set<nat> {
    (if p.inPort in c.Patches() then c.Tunnels() + c.Borders()
     else if p.inPort in c.Borders() then c.Tunnels() + c.Borders() + PatchOf(c, p.tunId)
     else if p.tunId in c.networks then PatchOf(c, p.tunId) + c.Borders()
     else {}) - {p.inPort}
  }

  /** An unlearned destination is flooded to exactly the intended ports, each once, if and only
      if a regular tunnel exists, or the frame came in on one, or there is nowhere to flood to:
      before the first regular tunnel, table 30 drops everything that comes from a patch or a
      border. */
  lemma FloodsExactly(c: Config, f: Flows, p: Packet, now: bool)
    requires Program(c, f)
    requires p.inPort in c.Ports()
    requires Learned(c.VniOf(p), p.dst) !in (if now then Taught(c, f, p) else f)
    ensures Rising(f)
    ensures var r := Process(f, p, now);
            && (multiset(r.outs) == multiset(Intended(c, p)) <==>
                c.tunnels != map[] || p.inPort in c.Tunnels() || Intended(c, p) == {})
            && (c.tunnels == map[] && p.inPort !in c.Tunnels() ==> r.outs == [])
  {
    hide Program;
    Pipeline(c, f, p, now);
    PortKinds(c, f, p);
    var q := Stamped(c, p);
    var r := Process(f, p, now);
    assert multiset(r.outs) == multiset(FloodPorts(c, q));
    if c.tunnels == map[] && p.inPort !in c.Tunnels() {
      assert |r.outs| == |multiset(r.outs)| == 0;
      if Intended(c, p) != {} {
        var port :| port in Intended(c, p);
        assert port in multiset(Intended(c, p));
      }
    } else {
      FloodPortsIntended(c, p);
    }
  }

  lemma FloodPortsIntended(c: Config, p: Packet)
    requires c.Valid() && p.inPort in c.Ports() && (c.tunnels != map[] || p.inPort in c.Tunnels())
    ensures FloodPorts(c, Stamped(c, p)) == Intended(c, p)
  {
    if p.inPort in c.Borders() {
      assert c.borders != map[];
    }
  }

  // ---- Runs.

  datatype State = State(cfg: Config, flows: Flows)

  datatype Event =
    | AddBorder(name: string, port: nat)
    | AddTunnel(name: string, port: nat)
    | AddNetwork(vni: nat, port: nat)
    | Arrive(pkt: Packet, now: bool)
    | Expire(gone: set<Key>)

  /** Port ids are non-zero and distinct: a port is new, or it is the same port added again. */
  predicate NewOrSame<K(==)>(c: Config, m: map<K, nat>, k: K, port: nat) {
    port != 0 && (if k in m then m[k] == port else port !in c.Ports())
  }

  predicate Admissible(c: Config, e: Event) {
    match e
    case AddBorder(name, port) => NewOrSame(c, c.borders, name, port)
    case AddTunnel(name, port) => NewOrSame(c, c.tunnels, name, port)
    case AddNetwork(vni, port) => NewOrSame(c, c.networks, vni, port)
    case Arrive(_, _) => true
    case Expire(gone) => forall k :: k in gone ==> IsLearned(k)
  }

  function WithBorder(f: Flows, port: nat, order: seq<nat>): Flows {
    f[OnPort(port) := [Resubmit(T_LS_TO_TUN)]]
     [OnFlag(T_FLOOD_TO_BOR, F_FROM_TUN) := Outputs(order)]
     [OnFlag(T_FLOOD_TO_BOR, F_FROM_LS) := FloodBorderActions(order)]
  }

  function WithTunnel(f: Flows, port: nat, order: seq<nat>): Flows {
    f[OnPort(port) := [Resubmit(T_TUN_TO_LS)]][OnFlag(T_FLOOD_TO_TUN, F_FROM_LS) := FloodTunnelActions(order)]
  }

  function WithNetwork(f: Flows, vni: nat, port: nat): Flows {
    f[OnPort(port) := [LoadTunId(vni), Resubmit(T_LS_TO_TUN)]]
     [OnVni(T_FLOOD_TO_TUN, vni, F_FROM_TUN) := [Output(port), Resubmit(T_FLOOD_TO_BOR)]]
     [OnVni(T_FLOOD_LOOP, vni, F_FROM_LS) := [Output(port)]]
  }

  /** One step and the ports it outputs to; the flood lists may come in any order. */
  ghost predicate Step(s: State, e: Event, t: State, outs: seq<nat>) {
    match e
    case AddBorder(name, port) =>
      && t.cfg == s.cfg.(borders := s.cfg.borders[name := port]) && outs == []
      && exists order :: Lists(order, t.cfg.borders) && t.flows == WithBorder(s.flows, port, order)
    case AddTunnel(name, port) =>
      && t.cfg == s.cfg.(tunnels := s.cfg.tunnels[name := port]) && outs == []
      && exists order :: Lists(order, t.cfg.tunnels) && t.flows == WithTunnel(s.flows, port, order)
    case AddNetwork(vni, port) =>
      && t.cfg == s.cfg.(networks := s.cfg.networks[vni := port]) && outs == []
      && t.flows == WithNetwork(s.flows, vni, port)
    case Arrive(p, now) =>
      && t.cfg == s.cfg && Rising(s.flows)
      && t.flows == Process(s.flows, p, now).installed && outs == Process(s.flows, p, now).outs
    case Expire(gone) =>
      t.cfg == s.cfg && t.flows == s.flows - gone && outs == []
  }

  const EMPTY: Config := Config(map[], map[], map[])

  /** What `upTables` leaves in an empty bridge. */
  function BaseFlows(): Flows {
    map[DROP_ALL := BaseActions(0), SET_LS := BaseActions(T_LS_TO_TUN), SET_TUN := BaseActions(T_TUN_TO_LS),
        LEARN := BaseActions(T_SOURCE_LEARN), UNKNOWN := BaseActions(T_UCAST_TO_TUN),
        NO_TUN := BaseActions(T_FLOOD_TO_TUN), NO_BOR := BaseActions(T_FLOOD_TO_BOR)]
  }

  lemma BaseKeys(f: Flows)
    requires f == BaseFlows()
    ensures forall k :: k in f <==> IsBase(k)
    ensures forall k :: IsBase(k) ==> f[k] == BaseActions(k.table)
  {
  }

  lemma BaseIsProgram()
    ensures Program(EMPTY, BaseFlows())
  {
    var f := BaseFlows();
    BaseKeys(f);
    assert EMPTY.Valid();
    assert Ingress(EMPTY, f);
    assert Flooding(EMPTY, f);
    hide BaseFlows, Ingress, Flooding;
  }

  lemma ValuesOfUpdate<K>(m: map<K, nat>, k: K, port: nat)
    requires k in m ==> m[k] == port
    ensures m[k := port].Values == m.Values + {port}
  {
    var n := m[k := port];
    forall v | v in m.Values + {port} ensures v in n.Values {
      if v == port {
        assert n[k] == port;
      } else {
        var j :| j in m && m[j] == v;
        assert n[j] == v;
      }
    }
  }

  /** `d` is `c` with ports added. */
  ghost predicate Grows(c: Config, d: Config) {
    && c.Valid() && d.Valid() && c.Ports() <= d.Ports()
    && (forall v :: v in c.networks ==> v in d.networks && d.networks[v] == c.networks[v])
    && (forall p :: p in c.Ports() && p in d.Patches() ==> p in c.Patches())
  }

  lemma GrowsKeeps(c: Config, d: Config, f: Flows, k: Key)
    requires Grows(c, d)
    ensures Known(c, k) ==> Known(d, k)
    ensures k in f && IsLearned(k) && LearnedOk(c, k.fields.tunId.value, f[k]) ==>
              LearnedOk(d, k.fields.tunId.value, f[k])
  {
  }

  /** Entries of `g` that differ from `f` are known ones, not learned and not base ones. */
  ghost predicate Extends(d: Config, f: Flows, g: Flows) {
    && (forall k :: k in f ==> k in g)
    && (forall k :: k in g && (k in f ==> g[k] != f[k]) ==> Known(d, k) && !IsLearned(k) && !IsBase(k))
  }

  lemma ExtendKeeps(c: Config, d: Config, f: Flows, g: Flows)
    requires Program(c, f) && Grows(c, d) && Extends(d, f, g)
    requires Ingress(d, g) && Flooding(d, g)
    ensures Program(d, g)
  {
    hide Flooding, Ingress, FloodsTunnels, FloodsBorders;
    forall k ensures Known(c, k) ==> Known(d, k)
             ensures k in f && IsLearned(k) ==> LearnedOk(d, k.fields.tunId.value, f[k])
    {
      GrowsKeeps(c, d, f, k);
    }
  }

  lemma AddBorderKeeps(c: Config, f: Flows, name: string, port: nat, order: seq<nat>)
    requires Program(c, f) && NewOrSame(c, c.borders, name, port)
    requires Lists(order, c.borders[name := port])
    ensures Program(c.(borders := c.borders[name := port]), WithBorder(f, port, order))
  {
    var d, g := c.(borders := c.borders[name := port]), WithBorder(f, port, order);
    BorderGrows(c, name, port);
    BorderFloods(c, f, name, port, order);
    BorderIngress(c, f, name, port, order);
    hide *;
    ExtendKeeps(c, d, f, g);
  }

  lemma BorderGrows(c: Config, name: string, port: nat)
    requires c.Valid() && NewOrSame(c, c.borders, name, port)
    ensures Grows(c, c.(borders := c.borders[name := port]))
    ensures port in c.(borders := c.borders[name := port]).Ports()
  {
    ValuesOfUpdate(c.borders, name, port);
  }

  lemma BordersInjective(c: Config, f: Flows, name: string, port: nat)
    requires Program(c, f) && NewOrSame(c, c.borders, name, port)
    ensures Injective(c.borders[name := port])
  {
    BorderGrows(c, name, port);
  }

  lemma TunnelsInjective(c: Config, f: Flows, name: string, port: nat)
    requires Program(c, f) && NewOrSame(c, c.tunnels, name, port)
    ensures Injective(c.tunnels[name := port])
  {
    TunnelGrows(c, name, port);
  }

  lemma BorderIngress(c: Config, f: Flows, name: string, port: nat, order: seq<nat>)
    requires c.Valid() && Ingress(c, f) && NewOrSame(c, c.borders, name, port)
    ensures Ingress(c.(borders := c.borders[name := port]), WithBorder(f, port, order))
    ensures Extends(c.(borders := c.borders[name := port]), f, WithBorder(f, port, order))
  {
    ValuesOfUpdate(c.borders, name, port);
  }

  lemma BorderFloods(c: Config, f: Flows, name: string, port: nat, order: seq<nat>)
    requires Flooding(c, f) && Lists(order, c.borders[name := port])
    ensures Flooding(c.(borders := c.borders[name := port]), WithBorder(f, port, order))
  {
    var d, g := c.(borders := c.borders[name := port]), WithBorder(f, port, order);
    assert c.tunnels != map[] ==> FloodsTunnels(g[OnFlag(T_FLOOD_TO_TUN, F_FROM_LS)], d) by {
      if c.tunnels != map[] {
        var o :| Lists(o, c.tunnels) && f[OnFlag(T_FLOOD_TO_TUN, F_FROM_LS)] == FloodTunnelActions(o);
        assert Lists(o, d.tunnels);
      }
    }
    assert name in d.borders;
  }

  lemma AddTunnelKeeps(c: Config, f: Flows, name: string, port: nat, order: seq<nat>)
    requires Program(c, f) && NewOrSame(c, c.tunnels, name, port)
    requires Lists(order, c.tunnels[name := port])
    ensures Program(c.(tunnels := c.tunnels[name := port]), WithTunnel(f, port, order))
  {
    var d, g := c.(tunnels := c.tunnels[name := port]), WithTunnel(f, port, order);
    TunnelGrows(c, name, port);
    TunnelFloods(c, f, name, port, order);
    TunnelIngress(c, f, name, port, order);
    hide *;
    ExtendKeeps(c, d, f, g);
  }

  lemma TunnelGrows(c: Config, name: string, port: nat)
    requires c.Valid() && NewOrSame(c, c.tunnels, name, port)
    ensures Grows(c, c.(tunnels := c.tunnels[name := port]))
  {
    ValuesOfUpdate(c.tunnels, name, port);
  }

  lemma TunnelIngress(c: Config, f: Flows, name: string, port: nat, order: seq<nat>)
    requires c.Valid() && Ingress(c, f) && NewOrSame(c, c.tunnels, name, port)
    ensures Ingress(c.(tunnels := c.tunnels[name := port]), WithTunnel(f, port, order))
    ensures Extends(c.(tunnels := c.tunnels[name := port]), f, WithTunnel(f, port, order))
  {
    ValuesOfUpdate(c.tunnels, name, port);
  }

  lemma TunnelFloods(c: Config, f: Flows, name: string, port: nat, order: seq<nat>)
    requires Flooding(c, f) && Lists(order, c.tunnels[name := port])
    ensures Flooding(c.(tunnels := c.tunnels[name := port]), WithTunnel(f, port, order))
  {
    var d, g := c.(tunnels := c.tunnels[name := port]), WithTunnel(f, port, order);
    var tun, ls := OnFlag(T_FLOOD_TO_BOR, F_FROM_TUN), OnFlag(T_FLOOD_TO_BOR, F_FROM_LS);
    assert c.borders != map[] ==> FloodsBorders(g[tun], g[ls], d) by {
      if c.borders != map[] {
        var o :| Lists(o, c.borders) && f[tun] == Outputs(o) && f[ls] == FloodBorderActions(o);
        assert Lists(o, d.borders);
      }
    }
    assert name in d.tunnels;
  }

  lemma AddNetworkKeeps(c: Config, f: Flows, vni: nat, port: nat)
    requires Program(c, f) && NewOrSame(c, c.networks, vni, port)
    ensures Program(c.(networks := c.networks[vni := port]), WithNetwork(f, vni, port))
  {
    var d, g := c.(networks := c.networks[vni := port]), WithNetwork(f, vni, port);
    NetworkGrows(c, vni, port);
    NetworkFloods(c, f, vni, port);
    NetworkIngress(c, f, vni, port);
    hide *;
    ExtendKeeps(c, d, f, g);
  }

  lemma NetworkGrows(c: Config, vni: nat, port: nat)
    requires c.Valid() && NewOrSame(c, c.networks, vni, port)
    ensures Grows(c, c.(networks := c.networks[vni := port]))
  {
    ValuesOfUpdate(c.networks, vni, port);
    assert vni in c.networks ==> port in c.Patches();
  }

  lemma NetworkIngress(c: Config, f: Flows, vni: nat, port: nat)
    requires c.Valid() && Ingress(c, f) && NewOrSame(c, c.networks, vni, port)
    ensures Ingress(c.(networks := c.networks[vni := port]), WithNetwork(f, vni, port))
    ensures Extends(c.(networks := c.networks[vni := port]), f, WithNetwork(f, vni, port))
  {
    ValuesOfUpdate(c.networks, vni, port);
  }

  lemma NetworkFloods(c: Config, f: Flows, vni: nat, port: nat)
    requires Flooding(c, f) && NewOrSame(c, c.networks, vni, port)
    ensures Flooding(c.(networks := c.networks[vni := port]), WithNetwork(f, vni, port))
  {
    var d, g := c.(networks := c.networks[vni := port]), WithNetwork(f, vni, port);
    var flood := OnFlag(T_FLOOD_TO_TUN, F_FROM_LS);
    var tun, ls := OnFlag(T_FLOOD_TO_BOR, F_FROM_TUN), OnFlag(T_FLOOD_TO_BOR, F_FROM_LS);
    assert c.tunnels != map[] ==> FloodsTunnels(g[flood], d) by {
      if c.tunnels != map[] {
        var o :| Lists(o, c.tunnels) && f[flood] == FloodTunnelActions(o);
        assert Lists(o, d.tunnels);
      }
    }
    assert c.borders != map[] ==> FloodsBorders(g[tun], g[ls], d) by {
      if c.borders != map[] {
        var o :| Lists(o, c.borders) && f[tun] == Outputs(o) && f[ls] == FloodBorderActions(o);
        assert Lists(o, d.borders);
      }
    }
  }

  lemma ExpireKeeps(c: Config, f: Flows, gone: set<Key>)
    requires Program(c, f) && forall k :: k in gone ==> IsLearned(k)
    ensures Program(c, f - gone)
  {
    var g := f - gone;
    assert forall k :: IsBase(k) ==> k in g;
    assert Ingress(c, g);
    assert Flooding(c, g);
  }

  lemma StepKeeps(s: State, e: Event, t: State, outs: seq<nat>)
    requires Program(s.cfg, s.flows) && Admissible(s.cfg, e) && Step(s, e, t, outs)
    ensures Program(t.cfg, t.flows)
  {
    hide Program;
    match e
    case AddBorder(name, port) =>
      var order :| Lists(order, t.cfg.borders) && t.flows == WithBorder(s.flows, port, order);
      AddBorderKeeps(s.cfg, s.flows, name, port, order);
    case AddTunnel(name, port) =>
      var order :| Lists(order, t.cfg.tunnels) && t.flows == WithTunnel(s.flows, port, order);
      AddTunnelKeeps(s.cfg, s.flows, name, port, order);
    case AddNetwork(vni, port) =>
      AddNetworkKeeps(s.cfg, s.flows, vni, port);
    case Arrive(p, now) =>
      Pipeline(s.cfg, s.flows, p, now);
    case Expire(gone) =>
      ExpireKeeps(s.cfg, s.flows, gone);
  }

  /** A run from the freshly initialised bridge: `states` has one more element than `events`. */
  ghost predicate Run(states: seq<State>, events: seq<Event>, outs: seq<seq<nat>>) {
    && |states| == |events| + 1 && |outs| == |events|
    && states[0] == State(EMPTY, BaseFlows())
    && (forall i :: 0 <= i < |events| ==>
          Admissible(states[i].cfg, events[i]) && Step(states[i], events[i], states[i + 1], outs[i]))
  }

  lemma {:induction false} RunKeepsProgram(states: seq<State>, events: seq<Event>, outs: seq<seq<nat>>, i: nat)
    requires Run(states, events, outs) && i < |states|
    ensures Program(states[i].cfg, states[i].flows)
  {
    hide Program;
    if i == 0 {
      BaseIsProgram();
    } else {
      RunKeepsProgram(states, events, outs, i - 1);
      assert Admissible(states[i - 1].cfg, events[i - 1]);
      StepKeeps(states[i - 1], events[i - 1], states[i], outs[i - 1]);
    }
  }

  /** Isolation over every run: a frame that entered on the patch port of one VNI is never
      output on the patch port of another, whatever was configured, learned or timed out
      before; and it never goes back out of the port it came from. */
  lemma Isolation(states: seq<State>, events: seq<Event>, outs: seq<seq<nat>>, i: nat, v: nat, u: nat)
    requires Run(states, events, outs) && i < |events| && events[i].Arrive?
    requires var nets := states[i].cfg.networks;
             v in nets && u in nets && u != v && events[i].pkt.inPort == nets[v]
    ensures states[i].cfg.networks[u] !in outs[i]
    ensures events[i].pkt.inPort !in outs[i]
  {
    hide Program;
    var c, f, p := states[i].cfg, states[i].flows, events[i].pkt;
    RunKeepsProgram(states, events, outs, i);
    assert Step(states[i], events[i], states[i + 1], outs[i]);
    PacketStaysInVni(c, f, p, events[i].now);
    PortKinds(c, f, p);
    assert c.networks[u] in c.Patches() && c.networks[v] in c.Patches();
  }

  /** Over every run, a learned flow that names a patch port names the patch of its own VNI. */
  lemma LearnedPatches(states: seq<State>, events: seq<Event>, outs: seq<seq<nat>>, i: nat, vni: nat, mac: nat)
    requires Run(states, events, outs) && i < |states| && Learned(vni, mac) in states[i].flows
    ensures LearnedOk(states[i].cfg, vni, states[i].flows[Learned(vni, mac)])
  {
    RunKeepsProgram(states, events, outs, i);
    assert IsLearned(Learned(vni, mac));
  }

  /** Flooding over every run, whatever the order in which tunnels, borders and networks were added:
      a frame from a known port whose destination is not learned goes to exactly the intended ports,
      each once, if and only if a regular tunnel exists, or it came in on one, or there is nowhere to
      flood to. */
  lemma FloodsExactlyInRuns(states: seq<State>, events: seq<Event>, outs: seq<seq<nat>>, i: nat)
    requires Run(states, events, outs) && i < |events| && events[i].Arrive?
    requires events[i].pkt.inPort in states[i].cfg.Ports()
    requires var c, f, p := states[i].cfg, states[i].flows, events[i].pkt;
             Learned(c.VniOf(p), p.dst) !in (if events[i].now then Taught(c, f, p) else f)
    ensures var c, p := states[i].cfg, events[i].pkt;
            multiset(outs[i]) == multiset(Intended(c, p)) <==>
            c.tunnels != map[] || p.inPort in c.Tunnels() || Intended(c, p) == {}
  {
    hide Program;
    RunKeepsProgram(states, events, outs, i);
    assert Step(states[i], events[i], states[i + 1], outs[i]);
    FloodsExactly(states[i].cfg, states[i].flows, events[i].pkt, events[i].now);
  }

  // ---- What is learned.

  /** A frame from a known port, of this VNI and with this source. */
  ghost predicate Teaches(s: State, e: Event, vni: nat, mac: nat) {
    e.Arrive? && e.pkt.inPort in s.cfg.Ports() && s.cfg.VniOf(e.pkt) == vni && e.pkt.src == mac
  }

  predicate TimesOut(e: Event, vni: nat, mac: nat) { e.Expire? && Learned(vni, mac) in e.gone }

  /** Event `i` is the latest one before `n` that taught the address, and the flow has not timed out since. */
  ghost predicate LatestTeacher(states: seq<State>, events: seq<Event>, n: nat, i: nat, vni: nat, mac: nat)
    requires |states| == |events| + 1 && n <= |events|
  {
    && i < n && Teaches(states[i], events[i], vni, mac)
    && (forall j :: i < j < n ==> !Teaches(states[j], events[j], vni, mac) && !TimesOut(events[j], vni, mac))
  }

  lemma StepLearned(s: State, e: Event, t: State, outs: seq<nat>, vni: nat, mac: nat)
    requires Program(s.cfg, s.flows) && Admissible(s.cfg, e) && Step(s, e, t, outs)
    ensures var k := Learned(vni, mac);
            if Teaches(s, e, vni, mac) then k in t.flows && t.flows[k] == [Output(e.pkt.inPort)]
            else if TimesOut(e, vni, mac) then k !in t.flows
            else (k in t.flows <==> k in s.flows) && (k in s.flows ==> t.flows[k] == s.flows[k])
  {
    hide Program, Process;
    if e.Arrive? {
      Pipeline(s.cfg, s.flows, e.pkt, e.now);
    }
  }

  /** In every run a flow is learned for an address in a VNI if and only if a frame from that address
      in that VNI has come in and the flow has not timed out since the latest of them; it outputs to
      the port on which that latest frame came in. */
  lemma {:induction false} LearnedFromLatest(states: seq<State>, events: seq<Event>, outs: seq<seq<nat>>,
                                             n: nat, vni: nat, mac: nat)
    requires Run(states, events, outs) && n < |states|
    ensures Learned(vni, mac) in states[n].flows <==> exists i: nat :: LatestTeacher(states, events, n, i, vni, mac)
    ensures forall i: nat :: LatestTeacher(states, events, n, i, vni, mac) ==>
                          Learned(vni, mac) in states[n].flows &&
                          states[n].flows[Learned(vni, mac)] == [Output(events[i].pkt.inPort)]
  {
    hide Program, Step, Teaches, TimesOut, Admissible;
    if n == 0 {
      BaseKeys(states[0].flows);
    } else {
      var m := n - 1;
      LearnedFromLatest(states, events, outs, m, vni, mac);
      RunKeepsProgram(states, events, outs, m);
      StepLearned(states[m], events[m], states[n], outs[m], vni, mac);
      forall i: nat ensures LatestTeacher(states, events, n, i, vni, mac) <==>
                            if Teaches(states[m], events[m], vni, mac) then i == m
                            else !TimesOut(events[m], vni, mac) && LatestTeacher(states, events, m, i, vni, mac)
      {
        LatestTeacherNext(states, events, m, i, vni, mac);
      }
    }
  }

  /** How one more event changes which one is the latest teacher. */
  lemma LatestTeacherNext(states: seq<State>, events: seq<Event>, m: nat, i: nat, vni: nat, mac: nat)
    requires |states| == |events| + 1 && m < |events|
    ensures LatestTeacher(states, events, m + 1, i, vni, mac) <==>
            if Teaches(states[m], events[m], vni, mac) then i == m
            else !TimesOut(events[m], vni, mac) && LatestTeacher(states, events, m, i, vni, mac)
  {
    hide Teaches, TimesOut;
    assert i < m && LatestTeacher(states, events, m + 1, i, vni, mac) ==>
             !Teaches(states[m], events[m], vni, mac) && !TimesOut(events[m], vni, mac);
  }

  /** So in every run a frame for an address that has spoken in its VNI goes once, and only, to the
      port on which that address spoke last; not at all if that is the frame's own ingress. */
  lemma FollowsLatest(states: seq<State>, events: seq<Event>, outs: seq<seq<nat>>, n: nat, i: nat)
    requires Run(states, events, outs) && n < |events| && events[n].Arrive?
    requires events[n].pkt.inPort in states[n].cfg.Ports() && events[n].pkt.dst != events[n].pkt.src
    requires LatestTeacher(states, events, n, i, states[n].cfg.VniOf(events[n].pkt), events[n].pkt.dst)
    ensures outs[n] == if events[i].pkt.inPort == events[n].pkt.inPort then [] else [events[i].pkt.inPort]
  {
    hide Program, Process;
    var c, f, p, port := states[n].cfg, states[n].flows, events[n].pkt, events[i].pkt.inPort;
    LearnedFromLatest(states, events, outs, n, c.VniOf(p), p.dst);
    RunKeepsProgram(states, events, outs, n);
    assert Step(states[n], events[n], states[n + 1], outs[n]);
    Pipeline(c, f, p, events[n].now);
    assert multiset(outs[n]) == multiset({port} - {p.inPort});
    SingleOutput(outs[n], port, p.inPort);
  }

  lemma SingleOutput(outs: seq<nat>, port: nat, ingress: nat)
    requires multiset(outs) == multiset({port} - {ingress})
    ensures outs == if port == ingress then [] else [port]
  {
    var ports := {port} - {ingress};
    assert |outs| == |multiset(outs)| == |ports|;
    if port == ingress {
      assert ports == {};
    } else {
      assert ports == {port};
      assert port in multiset(outs);
    }
  }

  lemma BorderAndNetwork(name: string, border: nat, vni: nat, patch: nat)
    returns (states: seq<State>, events: seq<Event>, outs: seq<seq<nat>>)
    requires border != 0 && patch != 0 && border != patch
    ensures Run(states, events, outs) && |states| == 3 && |outs| == 2
    ensures events == [AddBorder(name, border), AddNetwork(vni, patch)]
    ensures states[2].cfg == Config(map[], map[name := border], map[vni := patch])
  {
    hide BaseFlows, WithBorder, WithNetwork;
    var s0 := State(EMPTY, BaseFlows());
    var s1 := State(EMPTY.(borders := map[name := border]), WithBorder(s0.flows, border, [border]));
    var s2 := State(s1.cfg.(networks := map[vni := patch]), WithNetwork(s1.flows, vni, patch));
    assert s1.cfg.borders[name] == border && border in [border];
    assert Lists([border], s1.cfg.borders);
    states, events, outs := [s0, s1, s2], [AddBorder(name, border), AddNetwork(vni, patch)], [[], []];
    assert Step(s0, events[0], s1, []) && Step(s1, events[1], s2, []);
  }

  lemma Extend(states: seq<State>, events: seq<Event>, outs: seq<seq<nat>>, e: Event, t: State, out: seq<nat>)
    requires Run(states, events, outs)
    requires Admissible(states[|events|].cfg, e) && Step(states[|events|], e, t, out)
    ensures Run(states + [t], events + [e], outs + [out])
  {
    hide Admissible, Step, BaseFlows;
    var ss, es, os := states + [t], events + [e], outs + [out];
    forall i | 0 <= i < |es| ensures Admissible(ss[i].cfg, es[i]) && Step(ss[i], es[i], ss[i + 1], os[i]) {
      assert i < |events| ==> Admissible(states[i].cfg, events[i]) && Step(states[i], events[i], states[i + 1], outs[i]);
    }
  }

  /** A border and a network but no tunnel yet: a run in which a frame from the border whose
      destination is unknown is dropped although the patch of its VNI is there. */
  lemma DroppedBeforeFirstTunnel(name: string, border: nat, vni: nat, patch: nat, p: Packet, now: bool)
    returns (states: seq<State>, events: seq<Event>, outs: seq<seq<nat>>)
    requires border != 0 && patch != 0 && border != patch
    requires p.inPort == border && p.tunId == vni && p.src != p.dst
    ensures Run(states, events, outs) && |events| == 3 && events[2] == Arrive(p, now)
    ensures Intended(states[2].cfg, p) == {patch} && outs[2] == []
  {
    hide Program, Process, Run;
    states, events, outs := BorderAndNetwork(name, border, vni, patch);
    var s := states[2];
    RunKeepsProgram(states, events, outs, 2);
    LearnedFromLatest(states, events, outs, 2, vni, p.dst);
    FewPorts(s.cfg, name, border, vni, patch, p);
    FloodsExactly(s.cfg, s.flows, p, now);
    var r := Process(s.flows, p, now);
    Extend(states, events, outs, Arrive(p, now), State(s.cfg, r.installed), r.outs);
    states, events, outs := states + [State(s.cfg, r.installed)], events + [Arrive(p, now)], outs + [r.outs];
  }

  lemma FewPorts(c: Config, name: string, border: nat, vni: nat, patch: nat, p: Packet)
    requires c == Config(map[], map[name := border], map[vni := patch])
    requires border != patch && p.inPort == border && p.tunId == vni
    ensures border in c.Ports() && c.VniOf(p) == vni && border !in c.Tunnels()
    ensures Intended(c, p) == {patch}
  {
    assert c.borders[name] == border && c.networks[vni] == patch;
    assert c.Borders() == {border} && c.Patches() == {patch} && c.Tunnels() == {};
  }
}
