/** The worker itself: it keeps three maps and programs the bridge through `addFlow`. */
module FabricWorker {
  import opened OpenFlow
  import opened Fabric
  import opened FabricRuns

  class Worker {
    var tunnels: map<string, nat>
    var borders: map<string, nat>
    var networks: map<nat, nat>
    var bridge: Flows

    function Now(): State reads this { State(Config(tunnels, borders, networks), bridge) }

    ghost predicate Valid() reads this { Program(Now().cfg, bridge) }

    constructor ()
      ensures Valid() && Now() == State(EMPTY, BaseFlows())
    {
      tunnels, borders, networks, bridge := map[], map[], map[], map[];
      new;
      UpTables();
      BaseIsProgram();
    }

    /** An entry with the same table, priority and match is replaced. */
    method AddFlow(k: Key, actions: seq<Action>)
      modifies this`bridge
      ensures bridge == old(bridge)[k := actions]
    {
      bridge := bridge[k := actions];
    }

    method UpTables()
      requires bridge == map[]
      modifies this`bridge
      ensures bridge == BaseFlows()
    {
      AddFlow(DROP_ALL, [Drop]);
      AddFlow(SET_LS, [LoadReg(F_FROM_LS), Resubmit(T_SOURCE_LEARN)]);
      AddFlow(SET_TUN, [LoadReg(F_FROM_TUN), Resubmit(T_SOURCE_LEARN)]);
      AddFlow(LEARN, [Action.Learn(T_UCAST_TO_TUN, 1), Resubmit(T_UCAST_TO_TUN)]);
      AddFlow(UNKNOWN, [Resubmit(T_FLOOD_TO_TUN)]);
      AddFlow(NO_TUN, [Drop]);
      AddFlow(NO_BOR, [Drop]);
    }

    /** Walks a map in an arbitrary order, as Go does, and outputs to each port once. */
    method OutputEach(ports: map<string, nat>) returns (actions: seq<Action>, ghost order: seq<nat>)
      requires Injective(ports)
      ensures Lists(order, ports) && actions == Outputs(order)
    {
      actions, order := [], [];
      var left := ports.Keys;
      while left != {}
        invariant left <= ports.Keys
        invariant forall i, j :: 0 <= i < j < |order| ==> order[i] != order[j]
        invariant forall p :: p in order <==> exists n :: n in ports.Keys - left && ports[n] == p
        invariant actions == Outputs(order)
        decreases left
      {
        var n :| n in left;
        assert ports[n] !in order;
        actions := actions + [Output(ports[n])];
        assert Outputs(order + [ports[n]]) == Outputs(order) + [Output(ports[n])];
        order := order + [ports[n]];
        left := left - {n};
      }
      assert (set p | p in order) == ports.Values;
    }

    method FloodToTunnel() returns (ghost order: seq<nat>)
      requires Injective(tunnels)
      modifies this`bridge
      ensures Lists(order, tunnels)
      ensures bridge == old(bridge)[OnFlag(T_FLOOD_TO_TUN, F_FROM_LS) := FloodTunnelActions(order)]
    {
      var actions;
      actions, order := OutputEach(tunnels);
      actions := actions + [Resubmit(T_FLOOD_TO_BOR)];
      AddFlow(OnFlag(T_FLOOD_TO_TUN, F_FROM_LS), actions);
    }

    method FloodToBorder() returns (ghost order: seq<nat>)
      requires Injective(borders)
      modifies this`bridge
      ensures Lists(order, borders)
      ensures bridge == old(bridge)[OnFlag(T_FLOOD_TO_BOR, F_FROM_TUN) := Outputs(order)]
                                   [OnFlag(T_FLOOD_TO_BOR, F_FROM_LS) := FloodBorderActions(order)]
    {
      var actions;
      actions, order := OutputEach(borders);
      AddFlow(OnFlag(T_FLOOD_TO_BOR, F_FROM_TUN), actions);
      actions := actions + [Resubmit(T_FLOOD_LOOP)];
      AddFlow(OnFlag(T_FLOOD_TO_BOR, F_FROM_LS), actions);
    }

    /** `port` is what the bridge reports for the port it was asked to create. */
    method AddTunnel(name: string, port: nat, border: bool)
      requires Valid()
      requires Admissible(Now().cfg, if border then Event.AddBorder(name, port) else Event.AddTunnel(name, port))
      modifies this
      ensures Valid()
      ensures Step(old(Now()), if border then Event.AddBorder(name, port) else Event.AddTunnel(name, port), Now(), [])
    {
      hide Program, Step;
      if border {
        AddBorderPort(name, port);
      } else {
        AddTunnelPort(name, port);
      }
    }

    method AddBorderPort(name: string, port: nat)
      requires Valid() && Admissible(Now().cfg, Event.AddBorder(name, port))
      modifies this
      ensures Valid() && Step(old(Now()), Event.AddBorder(name, port), Now(), [])
    {
      ghost var was := Now();
      hide Program, Lists, Outputs, FloodBorderActions;
      BordersInjective(was.cfg, was.flows, name, port);
      AddFlow(OnPort(port), [Resubmit(T_LS_TO_TUN)]);
      borders := borders[name := port];
      ghost var order := FloodToBorder();
      assert bridge == WithBorder(was.flows, port, order);
      AddBorderKeeps(was.cfg, was.flows, name, port, order);
    }

    method AddTunnelPort(name: string, port: nat)
      requires Valid() && Admissible(Now().cfg, Event.AddTunnel(name, port))
      modifies this
      ensures Valid() && Step(old(Now()), Event.AddTunnel(name, port), Now(), [])
    {
      ghost var was := Now();
      hide Program, Lists, Outputs, FloodTunnelActions;
      TunnelsInjective(was.cfg, was.flows, name, port);
      AddFlow(OnPort(port), [Resubmit(T_TUN_TO_LS)]);
      tunnels := tunnels[name := port];
      ghost var order := FloodToTunnel();
      assert bridge == WithTunnel(was.flows, port, order);
      AddTunnelKeeps(was.cfg, was.flows, name, port, order);
    }

    method AddNetwork(vni: nat, port: nat)
      requires Valid() && Admissible(Now().cfg, Event.AddNetwork(vni, port))
      modifies this
      ensures Valid() && Step(old(Now()), Event.AddNetwork(vni, port), Now(), [])
    {
      hide Program;
      ghost var was := Now();
      AddFlow(OnPort(port), [LoadTunId(vni), Resubmit(T_LS_TO_TUN)]);
      networks := networks[vni := port];
      AddFlow(OnVni(T_FLOOD_TO_TUN, vni, F_FROM_TUN), [Output(port), Resubmit(T_FLOOD_TO_BOR)]);
      AddFlow(OnVni(T_FLOOD_LOOP, vni, F_FROM_LS), [Output(port)]);
      AddNetworkKeeps(was.cfg, was.flows, vni, port);
    }
  }
}
