/** The forwarding table under concurrent `Learn` calls and an `Expire` whose collect and delete
    phases are apart.  The steps are the critical sections of the source.  An update in place runs
    under the read lock, so several may overlap and its two field writes are separate steps; table
    entries are objects, named by their position in `store`, that an update holds on to. */
module BridgeThreads {
  import opened Bytes
  import opened Bridge

  /** A frame handed to `Learn`. */
  datatype Arrival = Arrival(mac: Hw, port: nat)

  /** Where a goroutine is in `Learn` for the frame with that number: it has looked its source up
      and knows whether there was an entry, or it has written the time of entry `obj` and not yet
      the port. */
  datatype Pc = Idle | Looked(frame: nat, found: bool) | Updating(frame: nat, obj: nat)

  /** `deletes` is what a running `Expire` has collected, `arrived` all frames so far in order. */
  datatype World = World(store: seq<Fdb>, macs: map<Hw, nat>, pcs: seq<Pc>, deletes: set<Hw>, arrived: seq<Arrival>)

  datatype Step =
    | Look(t: nat, mac: Hw, port: nat)
    | Insert(t: nat, now: int)      // no entry was found: add one, under the lock
    | Skip(t: nat)                  // an entry was found but has gone since
    | SetUptime(t: nat, now: int)   // an entry was found: first field, under the read lock
    | SetDevice(t: nat)             // second field, still under it
    | Collect(now: int)
    | Delete

  /** Nobody holds the read lock for an update. */
  predicate Unlocked(w: World) { forall t :: 0 <= t < |w.pcs| ==> !w.pcs[t].Updating? }

  /** The source address thread `t` is working for. */
  predicate Works(w: World, t: nat) { t < |w.pcs| && !w.pcs[t].Idle? && w.pcs[t].frame < |w.arrived| }

  function MacOf(w: World, t: nat): Hw
    requires Works(w, t)
  {
    w.arrived[w.pcs[t].frame].mac
  }

  predicate Enabled(w: World, s: Step) {
    match s
    case Look(t, mac, _) => t < |w.pcs| && w.pcs[t].Idle? && !Group(mac)
    case Insert(t, _) => Works(w, t) && w.pcs[t].Looked? && !w.pcs[t].found && Unlocked(w)
    case Skip(t) => Works(w, t) && w.pcs[t].Looked? && w.pcs[t].found && MacOf(w, t) !in w.macs
    case SetUptime(t, _) =>
      Works(w, t) && w.pcs[t].Looked? && w.pcs[t].found && MacOf(w, t) in w.macs && w.macs[MacOf(w, t)] < |w.store|
    case SetDevice(t) => Works(w, t) && w.pcs[t].Updating? && w.pcs[t].obj < |w.store|
    case Collect(_) => forall m :: m in w.macs ==> w.macs[m] < |w.store|
    case Delete => Unlocked(w)
  }

  function Next(w: World, timeout: int, s: Step): World
    requires Enabled(w, s)
  {
    match s
    case Look(t, mac, port) =>
      w.(pcs := w.pcs[t := Looked(|w.arrived|, mac in w.macs)], arrived := w.arrived + [Arrival(mac, port)])
    case Insert(t, now) =>
      w.(pcs := w.pcs[t := Idle], macs := w.macs[MacOf(w, t) := |w.store|],
         store := w.store + [Fdb(w.arrived[w.pcs[t].frame].port, now)])
    case Skip(t) => w.(pcs := w.pcs[t := Idle])
    case SetUptime(t, now) =>
      var obj := w.macs[MacOf(w, t)];
      w.(pcs := w.pcs[t := Updating(w.pcs[t].frame, obj)], store := w.store[obj := w.store[obj].(uptime := now)])
    case SetDevice(t) =>
      var obj, port := w.pcs[t].obj, w.arrived[w.pcs[t].frame].port;
      w.(pcs := w.pcs[t := Idle], store := w.store[obj := w.store[obj].(device := port)])
    case Collect(now) => w.(deletes := set m | m in w.macs && now - w.store[w.macs[m]].uptime > timeout)
    case Delete => w.(macs := w.macs - w.deletes, deletes := {})
  }

  // ---- What every run keeps.

  /** Entries are distinct objects of the store; an update in progress holds the entry that is in
      the table, which is what the locks are for. */
  ghost predicate Inv(w: World) {
    && (forall m :: m in w.macs ==> w.macs[m] < |w.store|)
    && (forall m, n :: m in w.macs && n in w.macs && w.macs[m] == w.macs[n] ==> m == n)
    && (forall t :: 0 <= t < |w.pcs| && !w.pcs[t].Idle? ==> w.pcs[t].frame < |w.arrived|)
    && (forall t :: 0 <= t < |w.pcs| && w.pcs[t].Updating? ==> Holds(w, t))
    && (forall t, u :: 0 <= t < u < |w.pcs| && !w.pcs[t].Idle? && !w.pcs[u].Idle? ==> w.pcs[t].frame != w.pcs[u].frame)
  }

  predicate Holds(w: World, t: nat) {
    Works(w, t) && w.pcs[t].Updating? && MacOf(w, t) in w.macs && w.macs[MacOf(w, t)] == w.pcs[t].obj
  }

  ghost predicate Run(timeout: int, ws: seq<World>, steps: seq<Step>) {
    && |ws| == |steps| + 1
    && ws[0].store == [] && ws[0].macs == map[] && ws[0].deletes == {} && ws[0].arrived == []
    && (forall t :: 0 <= t < |ws[0].pcs| ==> ws[0].pcs[t] == Idle)
    && (forall i :: 0 <= i < |steps| ==> Enabled(ws[i], steps[i]) && ws[i + 1] == Next(ws[i], timeout, steps[i]))
  }

  lemma StepKeeps(w: World, timeout: int, s: Step)
    requires Inv(w) && Enabled(w, s)
    ensures Inv(Next(w, timeout, s))
  {
    var v := Next(w, timeout, s);
    forall t | 0 <= t < |v.pcs| && v.pcs[t].Updating? ensures Holds(v, t) {
      if w.pcs[t].Updating? { assert Holds(w, t); }
    }
  }

  lemma {:induction false} RunKeeps(timeout: int, ws: seq<World>, steps: seq<Step>, i: nat)
    requires Run(timeout, ws, steps) && i < |ws|
    ensures Inv(ws[i])
  {
    hide Next;
    if i > 0 {
      RunKeeps(timeout, ws, steps, i - 1);
      hide Inv;
      StepKeeps(ws[i - 1], timeout, steps[i - 1]);
    }
  }

  // ---- Which frame an entry comes from.

  datatype Field = Port | Time

  /** The step writes that field of the entry of `m`. */
  predicate Writes(w: World, s: Step, m: Hw, field: Field) {
    && (s.Insert? || (if field == Port then s.SetDevice? else s.SetUptime?))
    && Works(w, s.t) && MacOf(w, s.t) == m
  }

  /** Step `j` is the latest before `i` to write that field for `m`. */
  ghost predicate LastWrite(ws: seq<World>, steps: seq<Step>, m: Hw, field: Field, j: nat, i: nat)
    requires |ws| == |steps| + 1 && i < |ws|
  {
    j < i && Writes(ws[j], steps[j], m, field) && forall k :: j < k < i ==> !Writes(ws[k], steps[k], m, field)
  }

  function Entry(w: World, m: Hw): Fdb
    requires m in w.macs && w.macs[m] < |w.store|
  {
    w.store[w.macs[m]]
  }

  /** What one step does to an entry. */
  lemma StepOnEntry(w: World, timeout: int, s: Step, m: Hw)
    requires Inv(w) && Enabled(w, s) && m in Next(w, timeout, s).macs
    ensures Inv(Next(w, timeout, s))
    ensures var v := Next(w, timeout, s);
            && (Writes(w, s, m, Port) ==> Entry(v, m).device == w.arrived[w.pcs[s.t].frame].port)
            && (Writes(w, s, m, Time) ==> Entry(v, m).uptime == s.now)
            && (!Writes(w, s, m, Port) ==> m in w.macs && Entry(v, m).device == Entry(w, m).device)
            && (!Writes(w, s, m, Time) ==> m in w.macs && Entry(v, m).uptime == Entry(w, m).uptime)
  {
    StepKeeps(w, timeout, s);
    if s.SetDevice? {
      assert Holds(w, s.t);
    }
  }

  /** In every run an entry's port is that of the frame whose `Learn` wrote the port last, and its
      time is the one read by the `Learn` that wrote the time last. */
  lemma {:induction false} EntryOf(timeout: int, ws: seq<World>, steps: seq<Step>, i: nat, m: Hw)
    returns (p: nat, q: nat)
    requires Run(timeout, ws, steps) && i < |ws| && m in ws[i].macs
    ensures LastWrite(ws, steps, m, Port, p, i) && LastWrite(ws, steps, m, Time, q, i)
    ensures ws[i].macs[m] < |ws[i].store|
    ensures Entry(ws[i], m) == Fdb(ws[p].arrived[ws[p].pcs[steps[p].t].frame].port, steps[q].now)
  {
    hide Next, Enabled, Inv;
    var k := i - 1;
    RunKeeps(timeout, ws, steps, k);
    assert ws[i] == Next(ws[k], timeout, steps[k]);
    StepOnEntry(ws[k], timeout, steps[k], m);
    EntryInStore(ws[i], m);
    p, q := k, k;
    if !Writes(ws[k], steps[k], m, Port) || !Writes(ws[k], steps[k], m, Time) {
      if m in ws[k].macs {
        p, q := EntryOf(timeout, ws, steps, k, m);
      }
      p := if Writes(ws[k], steps[k], m, Port) then k else p;
      q := if Writes(ws[k], steps[k], m, Time) then k else q;
    }
  }

  lemma EntryInStore(w: World, m: Hw)
    requires Inv(w) && m in w.macs
    ensures w.macs[m] < |w.store|
  {
  }

  // ---- The latest frame and frames that overtake it.

  /** `f` is the latest frame from `m`. */
  ghost predicate Latest(arrived: seq<Arrival>, m: Hw, f: nat) {
    f < |arrived| && arrived[f].mac == m && forall g :: f < g < |arrived| ==> arrived[g].mac != m
  }

  /** No `Learn` for `m` is under way. */
  ghost predicate Quiet(w: World, m: Hw) { forall t: nat :: Works(w, t) ==> MacOf(w, t) != m }

  ghost predicate UnderWay(w: World, f: nat) { exists t: nat :: Works(w, t) && w.pcs[t].frame == f }

  /** Frame `f` arrived at step `a`. */
  predicate ArrivesAt(w: World, s: Step, f: nat) { s.Look? && |w.arrived| == f }

  /** The `Learn` of frame `g` wrote that field of the entry last. */
  ghost predicate WroteLast(ws: seq<World>, steps: seq<Step>, i: nat, m: Hw, field: Field, g: nat)
    requires |ws| == |steps| + 1 && i < |ws|
  {
    exists j: nat :: LastWrite(ws, steps, m, field, j, i) && ws[j].pcs[steps[j].t].frame == g
  }

  /** The `Learn` of an earlier frame `g` from the same source was under way when `f` arrived, and
      it wrote that field last. */
  ghost predicate Overtakes(ws: seq<World>, steps: seq<Step>, i: nat, m: Hw, field: Field, g: nat, f: nat)
    requires |ws| == |steps| + 1 && i < |ws|
  {
    && g < f && WroteLast(ws, steps, i, m, field, g)
    && exists a: nat :: a < i && ArrivesAt(ws[a], steps[a], f) && UnderWay(ws[a], g)
  }

  lemma {:induction false} ArrivedGrows(timeout: int, ws: seq<World>, steps: seq<Step>, a: nat, i: nat)
    requires Run(timeout, ws, steps) && a <= i < |ws|
    ensures ws[a].arrived <= ws[i].arrived
  {
    if a < i {
      ArrivedGrows(timeout, ws, steps, a, i - 1);
      assert ws[i] == Next(ws[i - 1], timeout, steps[i - 1]);
    }
  }

  /** Every frame arrived at some step. */
  lemma {:induction false} ArrivalOf(timeout: int, ws: seq<World>, steps: seq<Step>, i: nat, f: nat) returns (a: nat)
    requires Run(timeout, ws, steps) && i < |ws| && f < |ws[i].arrived|
    ensures a < i && ArrivesAt(ws[a], steps[a], f)
    ensures ws[i].arrived[f] == Arrival(steps[a].mac, steps[a].port)
  {
    assert ws[i] == Next(ws[i - 1], timeout, steps[i - 1]);
    if f < |ws[i - 1].arrived| {
      a := ArrivalOf(timeout, ws, steps, i - 1, f);
    } else {
      a := i - 1;
    }
  }

  /** A thread that works on a frame has done so ever since the frame arrived. */
  lemma {:induction false} WorksSince(timeout: int, ws: seq<World>, steps: seq<Step>, a: nat, j: nat, t: nat)
    requires Run(timeout, ws, steps) && a <= j < |ws| && Works(ws[j], t) && ws[j].pcs[t].frame < |ws[a].arrived|
    ensures Works(ws[a], t) && ws[a].pcs[t].frame == ws[j].pcs[t].frame
  {
    if a < j {
      ArrivedGrows(timeout, ws, steps, a, j - 1);
      assert Enabled(ws[j - 1], steps[j - 1]) && ws[j] == Next(ws[j - 1], timeout, steps[j - 1]);
      WorksSince(timeout, ws, steps, a, j - 1, t);
    }
  }

  /** The `Learn` of `f` has not yet come to that field. */
  ghost predicate Before(w: World, f: nat, field: Field) {
    exists t: nat :: Works(w, t) && w.pcs[t].frame == f && (field == Port || w.pcs[t].Looked?)
  }

  lemma StepFinishes(w: World, timeout: int, s: Step, f: nat, m: Hw, field: Field)
    requires Inv(w) && Enabled(w, s) && f < |w.arrived| && w.arrived[f].mac == m
    requires Before(w, f, field) || m !in w.macs
    ensures var v := Next(w, timeout, s);
            Before(v, f, field) || m !in v.macs || Writes(w, s, m, field)
  {
    var v := Next(w, timeout, s);
    if Before(w, f, field) {
      var t: nat :| Works(w, t) && w.pcs[t].frame == f && (field == Port || w.pcs[t].Looked?);
      if v.pcs[t] == w.pcs[t] || (s.SetUptime? && field == Port) {
        assert Works(v, t) && v.pcs[t].frame == f;
      } else {
        assert s.t == t;
      }
    }
  }

  /** Once a frame has arrived, its `Learn` is under way, or the field was written since, or there is
      no entry. */
  lemma {:induction false} Finishes(timeout: int, ws: seq<World>, steps: seq<Step>, a: nat, k: nat, m: Hw, field: Field)
    requires Run(timeout, ws, steps) && a < k < |ws| && steps[a].Look? && steps[a].mac == m
    ensures || Before(ws[k], |ws[a].arrived|, field) || m !in ws[k].macs
            || exists j :: a < j < k && Writes(ws[j], steps[j], m, field)
  {
    hide Next, Inv;
    var f := |ws[a].arrived|;
    assert ws[a + 1] == Next(ws[a], timeout, steps[a]);
    LookWorks(ws[a], timeout, steps[a]);
    if k > a + 1 {
      Finishes(timeout, ws, steps, a, k - 1, m, field);
      ArrivedGrows(timeout, ws, steps, a + 1, k - 1);
      RunKeeps(timeout, ws, steps, k - 1);
      assert ws[k] == Next(ws[k - 1], timeout, steps[k - 1]);
      if !exists j :: a < j < k - 1 && Writes(ws[j], steps[j], m, field) {
        StepFinishes(ws[k - 1], timeout, steps[k - 1], f, m, field);
      }
    } else {
      assert Before(ws[k], f, field);
    }
  }

  lemma LookWorks(w: World, timeout: int, s: Step)
    requires Enabled(w, s) && s.Look?
    ensures var v := Next(w, timeout, s);
            && Works(v, s.t) && v.pcs[s.t].Looked? && v.pcs[s.t].frame == |w.arrived|
            && v.arrived == w.arrived + [Arrival(s.mac, s.port)]
  {
  }

  /** The last write to an entry is by the latest frame, or by one that overtook it. */
  lemma LastWriter(timeout: int, ws: seq<World>, steps: seq<Step>, i: nat, m: Hw, field: Field, j: nat, f: nat)
    requires Run(timeout, ws, steps) && i < |ws| && m in ws[i].macs && Quiet(ws[i], m)
    requires Latest(ws[i].arrived, m, f) && LastWrite(ws, steps, m, field, j, i)
    ensures var g := ws[j].pcs[steps[j].t].frame; g == f || Overtakes(ws, steps, i, m, field, g, f)
  {
    hide Next, Enabled, Inv;
    var t := steps[j].t;
    var g := ws[j].pcs[t].frame;
    ArrivedGrows(timeout, ws, steps, j, i);
    assert ws[i].arrived[g].mac == m;
    if g != f {
      var a := ArrivalOf(timeout, ws, steps, i, f);
      Finishes(timeout, ws, steps, a, i, m, field);
      assert !Before(ws[i], f, field);
      var w :| a < w < i && Writes(ws[w], steps[w], m, field);
      assert a < j;
      WorksSince(timeout, ws, steps, a, j, t);
      assert UnderWay(ws[a], g);
    }
  }

  /** In every run, once no `Learn` for a source is under way, each field of its entry comes from its
      latest frame if and only if no earlier frame overtook that one; so the entry names the latest
      frame's port if and only if no frame from another port overtook it. */
  lemma NamesLatestFrame(timeout: int, ws: seq<World>, steps: seq<Step>, i: nat, m: Hw, f: nat)
    requires Run(timeout, ws, steps) && i < |ws| && m in ws[i].macs && Quiet(ws[i], m) && Latest(ws[i].arrived, m, f)
    ensures forall field :: WroteLast(ws, steps, i, m, field, f) <==>
              !exists g: nat :: Overtakes(ws, steps, i, m, field, g, f)
    ensures ws[i].macs[m] < |ws[i].store|
    ensures Entry(ws[i], m).device == ws[i].arrived[f].port <==>
              !exists g: nat :: Overtakes(ws, steps, i, m, Port, g, f) && ws[i].arrived[g].port != ws[i].arrived[f].port
  {
    hide Next, Enabled, Inv;
    var p, q := EntryOf(timeout, ws, steps, i, m);
    forall field ensures WroteLast(ws, steps, i, m, field, f) <==>
                         !exists g: nat :: Overtakes(ws, steps, i, m, field, g, f)
    {
      var j := if field == Port then p else q;
      LastWriter(timeout, ws, steps, i, m, field, j, f);
      OneLast(ws, steps, i, m, field, j);
    }
    LastWriter(timeout, ws, steps, i, m, Port, p, f);
    OneLast(ws, steps, i, m, Port, p);
    ArrivedGrows(timeout, ws, steps, p, i);
  }

  /** Only one frame wrote last. */
  lemma OneLast(ws: seq<World>, steps: seq<Step>, i: nat, m: Hw, field: Field, j: nat)
    requires |ws| == |steps| + 1 && i < |ws| && LastWrite(ws, steps, m, field, j, i)
    ensures forall g: nat :: WroteLast(ws, steps, i, m, field, g) <==> g == ws[j].pcs[steps[j].t].frame
  {
    assert forall k: nat :: LastWrite(ws, steps, m, field, k, i) ==> k == j;
  }

  /** When the `Learn` calls of a source do not overlap, its entry is that of its latest frame, port
      and time alike. */
  lemma SequentialLearn(timeout: int, ws: seq<World>, steps: seq<Step>, i: nat, m: Hw, f: nat) returns (p: nat, q: nat)
    requires Run(timeout, ws, steps) && i < |ws| && m in ws[i].macs && Quiet(ws[i], m) && Latest(ws[i].arrived, m, f)
    requires forall a :: 0 <= a < i && steps[a].Look? && steps[a].mac == m ==> Quiet(ws[a], m)
    ensures p < i && Writes(ws[p], steps[p], m, Port) && ws[p].pcs[steps[p].t].frame == f
    ensures q < i && Writes(ws[q], steps[q], m, Time) && ws[q].pcs[steps[q].t].frame == f
    ensures ws[i].macs[m] < |ws[i].store| && Entry(ws[i], m) == Fdb(ws[i].arrived[f].port, steps[q].now)
  {
    hide Next, Enabled, Inv;
    p, q := EntryOf(timeout, ws, steps, i, m);
    LastWriter(timeout, ws, steps, i, m, Port, p, f);
    LastWriter(timeout, ws, steps, i, m, Time, q, f);
    ArrivedGrows(timeout, ws, steps, p, i);
    NoneOvertakes(timeout, ws, steps, i, m, Port, p, f);
    NoneOvertakes(timeout, ws, steps, i, m, Time, q, f);
  }

  lemma NoneOvertakes(timeout: int, ws: seq<World>, steps: seq<Step>, i: nat, m: Hw, field: Field, j: nat, f: nat)
    requires Run(timeout, ws, steps) && i < |ws| && Latest(ws[i].arrived, m, f) && LastWrite(ws, steps, m, field, j, i)
    requires forall a :: 0 <= a < i && steps[a].Look? && steps[a].mac == m ==> Quiet(ws[a], m)
    ensures !Overtakes(ws, steps, i, m, field, ws[j].pcs[steps[j].t].frame, f)
  {
    hide Next, Enabled, Inv;
    var g := ws[j].pcs[steps[j].t].frame;
    ArrivedGrows(timeout, ws, steps, j, i);
    forall a: nat | a < i && ArrivesAt(ws[a], steps[a], f) ensures g < f ==> !UnderWay(ws[a], g) {
      ArrivedGrows(timeout, ws, steps, a, i);
      ArrivedGrows(timeout, ws, steps, a + 1, i);
      assert ws[a + 1] == Next(ws[a], timeout, steps[a]);
      LookWorks(ws[a], timeout, steps[a]);
      assert steps[a].mac == m;
    }
  }

  /** A run goes on with any enabled step. */
  lemma Extend(timeout: int, ws: seq<World>, steps: seq<Step>, s: Step, v: World)
    requires Run(timeout, ws, steps) && Enabled(ws[|steps|], s) && v == Next(ws[|steps|], timeout, s)
    ensures Run(timeout, ws + [v], steps + [s])
  {
    hide Enabled, Next;
    var xs, ys := ws + [v], steps + [s];
    forall i | 0 <= i < |ys| ensures Enabled(xs[i], ys[i]) && xs[i + 1] == Next(xs[i], timeout, ys[i]) {
      assert i < |steps| ==> Enabled(ws[i], steps[i]) && ws[i + 1] == Next(ws[i], timeout, steps[i]);
    }
  }

  /** One entry, and two threads that found it for frames that came in on different ports. */
  lemma TwoLearners(m: Hw, p0: nat, p1: nat, p2: nat) returns (ws: seq<World>, steps: seq<Step>)
    requires !Group(m)
    ensures Run(300, ws, steps) && |steps| == 4
    ensures ws[4] == World([Fdb(p0, 0)], map[m := 0], [Looked(1, true), Looked(2, true)], {},
                           [Arrival(m, p0), Arrival(m, p1), Arrival(m, p2)])
  {
    var w0 := World([], map[], [Idle, Idle], {}, []);
    var w1 := Next(w0, 300, Look(0, m, p0));
    var w2 := Next(w1, 300, Insert(0, 0));
    var w3 := Next(w2, 300, Look(0, m, p1));
    var w4 := Next(w3, 300, Look(1, m, p2));
    Extend(300, [w0], [], Look(0, m, p0), w1);
    Extend(300, [w0] + [w1], [] + [Look(0, m, p0)], Insert(0, 0), w2);
    ws, steps := [w0] + [w1] + [w2], [] + [Look(0, m, p0)] + [Insert(0, 0)];
    Extend(300, ws, steps, Look(0, m, p1), w3);
    ws, steps := ws + [w3], steps + [Look(0, m, p1)];
    Extend(300, ws, steps, Look(1, m, p2), w4);
    ws, steps := ws + [w4], steps + [Look(1, m, p2)];
  }

  /** Overlap can leave an older frame's port, and a port and a time of different frames: a run in
      which the latest frame came in on port `p2` and the entry has port `p1` and that frame's time. */
  lemma OverlapMixesFrames(m: Hw, p0: nat, p1: nat, p2: nat) returns (ws: seq<World>, steps: seq<Step>)
    requires !Group(m)
    ensures Run(300, ws, steps) && |steps| == 8 && Quiet(ws[8], m) && Latest(ws[8].arrived, m, 2)
    ensures ws[8].arrived[2].port == p2 && steps[5] == SetUptime(1, 2) && |ws[5].pcs| == 2 && ws[5].pcs[1] == Looked(2, true)
    ensures m in ws[8].macs && ws[8].macs[m] < |ws[8].store| && Entry(ws[8], m) == Fdb(p1, 2)
  {
    ws, steps := TwoLearners(m, p0, p1, p2);
    hide Run;
    var w5 := Next(ws[4], 300, SetUptime(0, 1));
    var w6 := Next(w5, 300, SetUptime(1, 2));
    var w7 := Next(w6, 300, SetDevice(1));
    var w8 := Next(w7, 300, SetDevice(0));
    Extend(300, ws, steps, SetUptime(0, 1), w5);
    ws, steps := ws + [w5], steps + [SetUptime(0, 1)];
    Extend(300, ws, steps, SetUptime(1, 2), w6);
    ws, steps := ws + [w6], steps + [SetUptime(1, 2)];
    Extend(300, ws, steps, SetDevice(1), w7);
    ws, steps := ws + [w7], steps + [SetDevice(1)];
    Extend(300, ws, steps, SetDevice(0), w8);
    ws, steps := ws + [w8], steps + [SetDevice(0)];
  }

  // ---- Expire.

  lemma {:induction false} BetweenPhases(timeout: int, ws: seq<World>, steps: seq<Step>, c: nat, d: nat)
    requires Run(timeout, ws, steps) && c < d < |ws|
    requires forall k :: c < k < d ==> !steps[k].Collect? && !steps[k].Delete?
    ensures ws[d].deletes == ws[c + 1].deletes && ws[c + 1].macs.Keys <= ws[d].macs.Keys
  {
    if c + 1 < d {
      BetweenPhases(timeout, ws, steps, c, d - 1);
      assert ws[d] == Next(ws[d - 1], timeout, steps[d - 1]);
    }
  }

  /** In every run an entry is deleted in the second phase of `Expire` if and only if it was too old
      in the first, whatever `Learn` did in between. */
  lemma DeletesTheCollected(timeout: int, ws: seq<World>, steps: seq<Step>, c: nat, d: nat, m: Hw)
    requires Run(timeout, ws, steps) && c < d < |steps| && steps[c].Collect? && steps[d].Delete?
    requires forall k :: c < k < d ==> !steps[k].Collect? && !steps[k].Delete?
    ensures m in ws[c].macs ==> ws[c].macs[m] < |ws[c].store|
    ensures m in ws[d].macs && m !in ws[d + 1].macs <==>
            m in ws[c].macs && steps[c].now - Entry(ws[c], m).uptime > timeout
  {
    hide Inv;
    RunKeeps(timeout, ws, steps, c);
    if m in ws[c].macs { EntryInStore(ws[c], m); }
    assert ws[c + 1] == Next(ws[c], timeout, steps[c]) && ws[d + 1] == Next(ws[d], timeout, steps[d]);
    BetweenPhases(timeout, ws, steps, c, d);
  }

  /** With a clock that does not run backwards, the entry lost in the second phase is a fresh one if
      and only if a `Learn` for that source wrote its time between the phases. */
  lemma LostFresh(timeout: int, ws: seq<World>, steps: seq<Step>, c: nat, d: nat, m: Hw)
    requires Run(timeout, ws, steps) && c < d < |steps| && steps[c].Collect? && steps[d].Delete? && 0 <= timeout
    requires forall k :: c < k < d ==> !steps[k].Collect? && !steps[k].Delete?
    requires forall k :: c < k < d && (steps[k].Insert? || steps[k].SetUptime?) ==> steps[c].now <= steps[k].now
    requires m in ws[d].macs && m !in ws[d + 1].macs
    ensures ws[d].macs[m] < |ws[d].store|
    ensures steps[c].now - Entry(ws[d], m).uptime <= timeout <==>
            exists k :: c < k < d && Writes(ws[k], steps[k], m, Time)
  {
    hide Inv, Next, Enabled;
    DeletesTheCollected(timeout, ws, steps, c, d, m);
    var _, q := EntryOf(timeout, ws, steps, d, m);
    var _, r := EntryOf(timeout, ws, steps, c, m);
    if q > c {
      assert q != c;
    } else {
      assert LastWrite(ws, steps, m, Time, q, c);
      assert q == r;
    }
  }

  /** Such a run: the entry of a source that has sent a frame at this very second is lost. */
  lemma RefreshedEntryCanBeLost(m: Hw, port: nat) returns (ws: seq<World>, steps: seq<Step>)
    requires !Group(m)
    ensures Run(300, ws, steps) && |steps| == 7 && steps[2] == Collect(301) && steps[6] == Delete
    ensures m in ws[6].macs && ws[6].macs[m] < |ws[6].store| && Entry(ws[6], m) == Fdb(port, 301)
    ensures m !in ws[7].macs
  {
    ws, steps := CollectedEntry(m, port);
    hide Run;
    var w4 := Next(ws[3], 300, Look(0, m, port));
    var w5 := Next(w4, 300, SetUptime(0, 301));
    var w6 := Next(w5, 300, SetDevice(0));
    var w7 := Next(w6, 300, Delete);
    Extend(300, ws, steps, Look(0, m, port), w4);
    ws, steps := ws + [w4], steps + [Look(0, m, port)];
    Extend(300, ws, steps, SetUptime(0, 301), w5);
    ws, steps := ws + [w5], steps + [SetUptime(0, 301)];
    Extend(300, ws, steps, SetDevice(0), w6);
    ws, steps := ws + [w6], steps + [SetDevice(0)];
    Extend(300, ws, steps, Delete, w7);
    ws, steps := ws + [w7], steps + [Delete];
  }

  lemma CollectedEntry(m: Hw, port: nat) returns (ws: seq<World>, steps: seq<Step>)
    requires !Group(m)
    ensures Run(300, ws, steps) && |steps| == 3 && steps[2] == Collect(301)
    ensures ws[3] == World([Fdb(port, 0)], map[m := 0], [Idle], {m}, [Arrival(m, port)])
  {
    var w0 := World([], map[], [Idle], {}, []);
    var w1 := Next(w0, 300, Look(0, m, port));
    var w2 := Next(w1, 300, Insert(0, 0));
    var w3 := Next(w2, 300, Collect(301));
    Extend(300, [w0], [], Look(0, m, port), w1);
    ws, steps := [w0] + [w1], [] + [Look(0, m, port)];
    Extend(300, ws, steps, Insert(0, 0), w2);
    ws, steps := ws + [w2], steps + [Insert(0, 0)];
    Extend(300, ws, steps, Collect(301), w3);
    ws, steps := ws + [w3], steps + [Collect(301)];
  }
}
