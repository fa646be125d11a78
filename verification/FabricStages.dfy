/** The pipeline, one table at a time: what each table adds to a packet's outputs. */
module FabricStages {
  import opened Options
  import opened OpenFlow
  import opened Fabric

  /** `r` is `x` with each port of `ports` output once, and nothing else changed. */
  ghost predicate Adds(x: Exec, r: Exec, ports: set<nat>) {
    r == x.(outs := r.outs) && multiset(r.outs) == multiset(x.outs) + multiset(ports)
  }

  /** The patch of a VNI, if the VNI is configured. */
  function PatchOf(c: Config, vni: nat): set<nat> {
    if vni in c.networks then {c.networks[vni]} else {}
  }

  lemma AddsMore(x: Exec, y: Exec, r: Exec, a: set<nat>, b: set<nat>)
    requires Adds(x, y, a) && Adds(y, r, b) && a !! b
    ensures Adds(x, r, a + b)
  {
    assert multiset(a + b) == multiset(a) + multiset(b);
  }

  lemma AddsNothing(x: Exec, none: set<nat>)
    requires none == {}
    ensures Adds(x, x, none)
  {
  }

  lemma EmitAdds(x: Exec, port: nat)
    ensures Adds(x, x.Emit(port), {port} - {x.pkt.inPort})
  {
    assert port != x.pkt.inPort ==> {port} - {x.pkt.inPort} == {port};
    assert port == x.pkt.inPort ==> {port} - {x.pkt.inPort} == {};
  }

  // ---- Which flow each table selects.

  lemma Pick32(c: Config, f: Flows, p: Packet)
    requires Program(c, f) && p.reg == F_FROM_LS
    ensures var k := OnVni(T_FLOOD_LOOP, p.tunId, F_FROM_LS);
            if p.tunId in c.networks then
              Select(f, T_FLOOD_LOOP, p) == Some(k) && k in f && f[k] == [Output(c.networks[p.tunId])]
            else Select(f, T_FLOOD_LOOP, p) == None
  {
    var k := OnVni(T_FLOOD_LOOP, p.tunId, F_FROM_LS);
    forall other | Candidate(f, T_FLOOD_LOOP, p, other) ensures other == k && p.tunId in c.networks {
      assert Known(c, other);
    }
    if p.tunId in c.networks {
      SelectUnique(f, T_FLOOD_LOOP, p, k);
    } else {
      SelectNone(f, T_FLOOD_LOOP, p);
    }
  }

  lemma Pick31(c: Config, f: Flows, p: Packet)
    requires Program(c, f) && p.reg in {F_FROM_LS, F_FROM_TUN}
    ensures var k := OnFlag(T_FLOOD_TO_BOR, p.reg);
            if c.borders == map[] then
              Select(f, T_FLOOD_TO_BOR, p) == Some(NO_BOR) && NO_BOR in f && f[NO_BOR] == [Drop]
            else
              && Select(f, T_FLOOD_TO_BOR, p) == Some(k) && k in f
              && exists order :: Lists(order, c.borders) &&
                   f[k] == if p.reg == F_FROM_LS then FloodBorderActions(order) else Outputs(order)
  {
    var k := OnFlag(T_FLOOD_TO_BOR, p.reg);
    forall other | Candidate(f, T_FLOOD_TO_BOR, p, other) ensures other == k || other == NO_BOR {
      assert Known(c, other);
    }
    assert IsBase(NO_BOR);
    SelectUnique(f, T_FLOOD_TO_BOR, p, if c.borders == map[] then NO_BOR else k);
  }

  lemma Pick30(c: Config, f: Flows, p: Packet)
    requires Program(c, f) && p.reg in {F_FROM_LS, F_FROM_TUN}
    ensures var k := if p.reg == F_FROM_LS then OnFlag(T_FLOOD_TO_TUN, F_FROM_LS)
                     else OnVni(T_FLOOD_TO_TUN, p.tunId, F_FROM_TUN);
            if (if p.reg == F_FROM_LS then c.tunnels == map[] else p.tunId !in c.networks) then
              Select(f, T_FLOOD_TO_TUN, p) == Some(NO_TUN) && NO_TUN in f && f[NO_TUN] == [Drop]
            else
              && Select(f, T_FLOOD_TO_TUN, p) == Some(k) && k in f
              && (if p.reg == F_FROM_LS then FloodsTunnels(f[k], c)
                  else f[k] == [Output(c.networks[p.tunId]), Resubmit(T_FLOOD_TO_BOR)])
  {
    var k := if p.reg == F_FROM_LS then OnFlag(T_FLOOD_TO_TUN, F_FROM_LS)
             else OnVni(T_FLOOD_TO_TUN, p.tunId, F_FROM_TUN);
    forall other | Candidate(f, T_FLOOD_TO_TUN, p, other)
      ensures (other == k && (p.reg == F_FROM_TUN ==> p.tunId in c.networks)) || other == NO_TUN
    {
      assert Known(c, other);
    }
    assert IsBase(NO_TUN);
    SelectUnique(f, T_FLOOD_TO_TUN, p, if k in f then k else NO_TUN);
  }

  lemma Pick20(c: Config, f: Flows, p: Packet)
    requires Program(c, f)
    ensures var k := Learned(p.tunId, p.dst);
            if k in f then Select(f, T_UCAST_TO_TUN, p) == Some(k) && LearnedOk(c, p.tunId, f[k])
            else Select(f, T_UCAST_TO_TUN, p) == Some(UNKNOWN) && UNKNOWN in f && f[UNKNOWN] == [Resubmit(T_FLOOD_TO_TUN)]
  {
    var k := Learned(p.tunId, p.dst);
    forall other | Candidate(f, T_UCAST_TO_TUN, p, other) ensures other == k || other == UNKNOWN {
      assert Known(c, other);
    }
    assert IsBase(UNKNOWN) && IsLearned(k);
    SelectUnique(f, T_UCAST_TO_TUN, p, if k in f then k else UNKNOWN);
  }

  lemma PickBase(c: Config, f: Flows, p: Packet, k: Key)
    requires Program(c, f) && k in {SET_LS, SET_TUN, LEARN}
    ensures Select(f, k.table, p) == Some(k) && k in f && f[k] == BaseActions(k.table)
  {
    assert IsBase(k);
    forall other | Candidate(f, k.table, p, other) ensures other == k {
      assert Known(c, other);
    }
    SelectUnique(f, k.table, p, k);
  }

  /** The actions table 0 runs for a frame from a known port. */
  ghost function IngressActions(c: Config, p: Packet): seq<Action> {
    if p.inPort in c.Patches() then [LoadTunId(c.VniOf(p)), Resubmit(T_LS_TO_TUN)]
    else if p.inPort in c.Borders() then [Resubmit(T_LS_TO_TUN)]
    else if p.inPort in c.Tunnels() then [Resubmit(T_TUN_TO_LS)]
    else [Drop]
  }

  lemma Pick0(c: Config, f: Flows, p: Packet)
    requires Program(c, f)
    ensures var s := Select(f, 0, p);
            s.Some? && s.value in f && f[s.value] == IngressActions(c, p)
  {
    var k := OnPort(p.inPort);
    forall other | Candidate(f, 0, p, other)
      ensures (other == k && p.inPort in c.Ports()) || other == DROP_ALL
    {
      assert Known(c, other);
    }
    assert IsBase(DROP_ALL);
    IngressRow(c, f, p);
    SelectUnique(f, 0, p, if p.inPort in c.Ports() then k else DROP_ALL);
  }

  lemma IngressRow(c: Config, f: Flows, p: Packet)
    requires c.Valid() && Ingress(c, f)
    ensures p.inPort in c.Ports() ==> OnPort(p.inPort) in f && f[OnPort(p.inPort)] == IngressActions(c, p)
  {
    if p.inPort in c.Borders() {
      var n :| n in c.borders && c.borders[n] == p.inPort;
    } else if p.inPort in c.Tunnels() {
      var n :| n in c.tunnels && c.tunnels[n] == p.inPort;
    }
  }

  // ---- What each table adds.

  /** The sets of ports are apart, so adding one after another repeats none. */
  lemma Apart(c: Config, f: Flows, vni: nat)
    requires Program(c, f)
    ensures c.Tunnels() !! c.Borders() && PatchOf(c, vni) !! c.Borders() && PatchOf(c, vni) !! c.Tunnels()
  {
  }

  lemma Table32(c: Config, x: Exec, now: bool)
    requires Program(c, x.view) && Rising(x.view) && x.pkt.reg == F_FROM_LS
    ensures Adds(x, RunTable(T_FLOOD_LOOP, x, now), PatchOf(c, x.pkt.tunId) - {x.pkt.inPort})
  {
    hide Program;
    Pick32(c, x.view, x.pkt);
    if x.pkt.tunId in c.networks {
      var patch := c.networks[x.pkt.tunId];
      EmitAdds(x, patch);
      RunOne(T_FLOOD_LOOP, Output(patch), x, now);
    }
  }

  /** What table 31 adds for a frame of the local side: without a border it drops. */
  function BorderSide(c: Config, p: Packet): set<nat> {
    if c.borders == map[] then {} else c.Borders() + PatchOf(c, p.tunId) - {p.inPort}
  }

  lemma Table31FromLs(c: Config, x: Exec, now: bool)
    requires Program(c, x.view) && Rising(x.view) && x.pkt.reg == F_FROM_LS
    ensures Adds(x, RunTable(T_FLOOD_TO_BOR, x, now), BorderSide(c, x.pkt))
  {
    hide Program, RunTable, RunActions, Adds, Select;
    Pick31(c, x.view, x.pkt);
    if c.borders == map[] {
      RunPicked(T_FLOOD_TO_BOR, x, NO_BOR, now);
      RunOne(T_FLOOD_TO_BOR, Drop, x, now);
      AddsNothing(x, BorderSide(c, x.pkt));
    } else {
      var k := OnFlag(T_FLOOD_TO_BOR, F_FROM_LS);
      var order :| Lists(order, c.borders) && x.view[k] == FloodBorderActions(order);
      RunPicked(T_FLOOD_TO_BOR, x, k, now);
      OutputsThen(T_FLOOD_TO_BOR, order, T_FLOOD_LOOP, c.borders, x, now);
      var y := EmitAll(x, order);
      Table32(c, y, now);
      Apart(c, x.view, x.pkt.tunId);
      var a, b := c.Borders() - {x.pkt.inPort}, PatchOf(c, x.pkt.tunId) - {x.pkt.inPort};
      AddsMore(x, y, RunTable(T_FLOOD_LOOP, y, now), a, b);
      assert BorderSide(c, x.pkt) == a + b;
    }
  }

  /** A flood list followed by a resubmit. */
  lemma OutputsThen(table: nat, order: seq<nat>, t: nat, m: map<string, nat>, x: Exec, now: bool)
    requires Rising(x.view) && table < t <= LAST_TABLE && Lists(order, m)
    ensures ActionsRise(table, Outputs(order) + [Resubmit(t)])
    ensures RunActions(table, Outputs(order) + [Resubmit(t)], x, now) == RunTable(t, EmitAll(x, order), now)
    ensures Adds(x, EmitAll(x, order), m.Values - {x.pkt.inPort})
  {
    RunOutputs(table, order, [Resubmit(t)], x, now);
    RunOne(table, Resubmit(t), EmitAll(x, order), now);
    EmitAllAdds(x, order);
  }

  lemma OutputsOnly(table: nat, order: seq<nat>, m: map<string, nat>, x: Exec, now: bool)
    requires Rising(x.view) && Lists(order, m)
    ensures ActionsRise(table, Outputs(order))
    ensures Adds(x, RunActions(table, Outputs(order), x, now), m.Values - {x.pkt.inPort})
  {
    RunOutputs(table, order, [], x, now);
    assert Outputs(order) + [] == Outputs(order);
    EmitAllAdds(x, order);
  }

  lemma Table31FromTun(c: Config, x: Exec, now: bool)
    requires Program(c, x.view) && Rising(x.view) && x.pkt.reg == F_FROM_TUN
    ensures Adds(x, RunTable(T_FLOOD_TO_BOR, x, now), c.Borders() - {x.pkt.inPort})
  {
    hide Program, RunTable, RunActions, Adds, Select;
    Pick31(c, x.view, x.pkt);
    if c.borders == map[] {
      RunPicked(T_FLOOD_TO_BOR, x, NO_BOR, now);
      RunOne(T_FLOOD_TO_BOR, Drop, x, now);
      AddsNothing(x, c.Borders() - {x.pkt.inPort});
    } else {
      var k := OnFlag(T_FLOOD_TO_BOR, F_FROM_TUN);
      var order :| Lists(order, c.borders) && x.view[k] == Outputs(order);
      RunPicked(T_FLOOD_TO_BOR, x, k, now);
      OutputsOnly(T_FLOOD_TO_BOR, order, c.borders, x, now);
    }
  }

  /** What table 30 adds for a frame with the given flag. */
  function FloodPorts(c: Config, p: Packet): set<nat> {
    if p.reg == F_FROM_LS then
      if c.tunnels == map[] then {} else c.Tunnels() - {p.inPort} + BorderSide(c, p)
    else
      if p.tunId in c.networks then PatchOf(c, p.tunId) + c.Borders() - {p.inPort} else {}
  }

  lemma Table30FromLs(c: Config, x: Exec, now: bool)
    requires Program(c, x.view) && Rising(x.view) && x.pkt.reg == F_FROM_LS
    ensures Adds(x, RunTable(T_FLOOD_TO_TUN, x, now), FloodPorts(c, x.pkt))
  {
    hide Program, RunTable, RunActions, Adds, Select;
    Pick30(c, x.view, x.pkt);
    if c.tunnels == map[] {
      RunPicked(T_FLOOD_TO_TUN, x, NO_TUN, now);
      RunOne(T_FLOOD_TO_TUN, Drop, x, now);
      AddsNothing(x, FloodPorts(c, x.pkt));
    } else {
      var k := OnFlag(T_FLOOD_TO_TUN, F_FROM_LS);
      var order :| Lists(order, c.tunnels) && x.view[k] == FloodTunnelActions(order);
      RunPicked(T_FLOOD_TO_TUN, x, k, now);
      OutputsThen(T_FLOOD_TO_TUN, order, T_FLOOD_TO_BOR, c.tunnels, x, now);
      var y := EmitAll(x, order);
      Table31FromLs(c, y, now);
      Apart(c, x.view, x.pkt.tunId);
      AddsMore(x, y, RunTable(T_FLOOD_TO_BOR, y, now), c.Tunnels() - {x.pkt.inPort}, BorderSide(c, x.pkt));
    }
  }

  lemma Table30FromTun(c: Config, x: Exec, now: bool)
    requires Program(c, x.view) && Rising(x.view) && x.pkt.reg == F_FROM_TUN
    ensures Adds(x, RunTable(T_FLOOD_TO_TUN, x, now), FloodPorts(c, x.pkt))
  {
    hide Program, RunTable, RunActions, Adds, Select;
    Pick30(c, x.view, x.pkt);
    if x.pkt.tunId in c.networks {
      RunPicked(T_FLOOD_TO_TUN, x, OnVni(T_FLOOD_TO_TUN, x.pkt.tunId, F_FROM_TUN), now);
      PatchThenBorders(c, x, c.networks[x.pkt.tunId], now);
    } else {
      RunPicked(T_FLOOD_TO_TUN, x, NO_TUN, now);
      RunOne(T_FLOOD_TO_TUN, Drop, x, now);
      AddsNothing(x, FloodPorts(c, x.pkt));
    }
  }

  /** The entry `AddNetwork` puts in table 30: the patch, then the borders. */
  lemma PatchThenBorders(c: Config, x: Exec, patch: nat, now: bool)
    requires Program(c, x.view) && Rising(x.view) && x.pkt.reg == F_FROM_TUN
    requires PatchOf(c, x.pkt.tunId) == {patch}
    ensures Adds(x, RunActions(T_FLOOD_TO_TUN, [Output(patch), Resubmit(T_FLOOD_TO_BOR)], x, now),
                 {patch} + c.Borders() - {x.pkt.inPort})
  {
    hide Program, RunTable, RunActions, Adds, Select;
    var y, p := x.Emit(patch), x.pkt.inPort;
    RunTwo(T_FLOOD_TO_TUN, Output(patch), T_FLOOD_TO_BOR, x, now);
    EmitAdds(x, patch);
    Table31FromTun(c, y, now);
    Apart(c, x.view, x.pkt.tunId);
    AddsMore(x, y, RunTable(T_FLOOD_TO_BOR, y, now), {patch} - {p}, c.Borders() - {p});
    assert {patch} + c.Borders() - {p} == {patch} - {p} + (c.Borders() - {p});
  }

  /** Where table 20 sends a frame: the learned port if its destination is learned in `f`,
      else the flood set; never back to the ingress. */
  function Destinations(c: Config, f: Flows, p: Packet): set<nat> {
    var k := Learned(p.tunId, p.dst);
    if k in f && |f[k]| == 1 && f[k][0].Output? then {f[k][0].port} - {p.inPort} else FloodPorts(c, p)
  }

  lemma Table20(c: Config, x: Exec, now: bool)
    requires Program(c, x.view) && Rising(x.view) && x.pkt.reg in {F_FROM_LS, F_FROM_TUN}
    ensures Adds(x, RunTable(T_UCAST_TO_TUN, x, now), Destinations(c, x.view, x.pkt))
  {
    hide Program;
    Pick20(c, x.view, x.pkt);
    var k := Learned(x.pkt.tunId, x.pkt.dst);
    if k in x.view {
      var port := x.view[k][0].port;
      assert x.view[k] == [Output(port)];
      RunOne(T_UCAST_TO_TUN, Output(port), x, now);
      EmitAdds(x, port);
    } else {
      RunOne(T_UCAST_TO_TUN, Resubmit(T_FLOOD_TO_TUN), x, now);
      if x.pkt.reg == F_FROM_LS { Table30FromLs(c, x, now); } else { Table30FromTun(c, x, now); }
    }
  }

  /** Teaching a flow keeps the program, provided the packet's port may teach that VNI. */
  lemma TeachKeeps(c: Config, f: Flows, vni: nat, mac: nat, port: nat)
    requires Program(c, f) && LearnedOk(c, vni, [Output(port)])
    ensures Program(c, f[Learned(vni, mac) := [Output(port)]])
  {
    hide Flooding, Ingress;
    var k := Learned(vni, mac);
    var g := f[k := [Output(port)]];
    assert IsLearned(k) && !IsBase(k);
    TeachKeepsIngress(c, f, vni, mac, port);
    TeachKeepsFlooding(c, f, vni, mac, port);
    assert forall k' :: k' in g ==> Known(c, k');
  }

  lemma TeachKeepsIngress(c: Config, f: Flows, vni: nat, mac: nat, port: nat)
    requires Ingress(c, f)
    ensures Ingress(c, f[Learned(vni, mac) := [Output(port)]])
  {
  }

  lemma TeachKeepsFlooding(c: Config, f: Flows, vni: nat, mac: nat, port: nat)
    requires Flooding(c, f)
    ensures Flooding(c, f[Learned(vni, mac) := [Output(port)]])
  {
  }

  /** Table 10 teaches the source, then table 20 decides. */
  lemma Table10(c: Config, x: Exec, now: bool)
    requires Program(c, x.view) && Program(c, x.installed) && Rising(x.view)
    requires x.pkt.reg in {F_FROM_LS, F_FROM_TUN}
    requires LearnedOk(c, x.pkt.tunId, [Output(x.pkt.inPort)])
    ensures var y := x.Teach(T_UCAST_TO_TUN, 1, now);
            && Program(c, y.view) && Program(c, y.installed)
            && Adds(y, RunTable(T_SOURCE_LEARN, x, now), Destinations(c, y.view, x.pkt))
  {
    hide Program;
    PickBase(c, x.view, x.pkt, LEARN);
    RunTwo(T_SOURCE_LEARN, Action.Learn(T_UCAST_TO_TUN, 1), T_UCAST_TO_TUN, x, now);
    var y := x.Teach(T_UCAST_TO_TUN, 1, now);
    TeachKeeps(c, x.view, x.pkt.tunId, x.pkt.src, x.pkt.inPort);
    TeachKeeps(c, x.installed, x.pkt.tunId, x.pkt.src, x.pkt.inPort);
    Table20(c, y, now);
  }

  /** Tables 2 and 4 set the flag and go on to table 10. */
  lemma Table2Or4(c: Config, x: Exec, table: nat, flag: nat, now: bool)
    requires Program(c, x.view) && Program(c, x.installed) && Rising(x.view)
    requires (table == T_LS_TO_TUN && flag == F_FROM_LS) || (table == T_TUN_TO_LS && flag == F_FROM_TUN)
    requires LearnedOk(c, x.pkt.tunId, [Output(x.pkt.inPort)])
    ensures var y := x.(pkt := x.pkt.(reg := flag)).Teach(T_UCAST_TO_TUN, 1, now);
            && Program(c, y.view) && Program(c, y.installed)
            && Adds(y, RunTable(table, x, now), Destinations(c, y.view, y.pkt))
  {
    hide Program, RunTable, RunActions, Adds, Select, Destinations;
    var k := if table == T_LS_TO_TUN then SET_LS else SET_TUN;
    PickBase(c, x.view, x.pkt, k);
    RunPicked(table, x, k, now);
    RunTwo(table, LoadReg(flag), T_SOURCE_LEARN, x, now);
    Table10(c, x.(pkt := x.pkt.(reg := flag)), now);
  }
}
