/** The promises of the session layer, over every run. */
module SessionTheorems {
  import opened Options
  import opened SafeMap
  import opened Sessions
  import opened SessionRuns
  import Leases

  /** A run from the state after start-up: no client yet, and a book of leases that may hold static
      hosts. */
  ghost predicate Run(cap: nat, states: seq<State>, events: seq<Event>, effects: seq<Effect>) {
    CapOk(cap) && Steps(cap, states, events, effects)
  }

  /** The same for any capacity of the client index. */
  ghost predicate Steps(cap: nat, states: seq<State>, events: seq<Event>, effects: seq<Effect>) {
    && |states| == |events| + 1 && |effects| == |events| && Starts(states[0])
    && (forall i :: 0 <= i < |events| ==> Goes(cap, states[i], events[i], states[i + 1], effects[i]))
  }

  ghost predicate Starts(s: State) {
    s == START.(book := s.book) && Leases.Agree(s.book)
  }

  ghost predicate Goes(cap: nat, s: State, e: Event, t: State, effect: Effect) {
    Allowed(s, e) && Ready(s, e) && Step(s, cap, e) == (t, effect)
  }

  lemma {:induction false} RunInv(cap: nat, states: seq<State>, events: seq<Event>, effects: seq<Effect>, i: nat)
    requires Run(cap, states, events, effects) && i < |states|
    ensures Inv(states[i])
  {
    hide Inv, Step, Allowed, Ready;
    if i == 0 {
      EmptyInv(states[0]);
    } else {
      RunInv(cap, states, events, effects, i - 1);
      assert Goes(cap, states[i - 1], events[i - 1], states[i], effects[i - 1]);
      StepKeeps(states[i - 1], cap, events[i - 1]);
    }
  }

  lemma Extend(cap: nat, states: seq<State>, events: seq<Event>, effects: seq<Effect>, e: Event, t: State, f: Effect)
    requires Steps(cap, states, events, effects) && Goes(cap, states[|events|], e, t, f)
    ensures Steps(cap, states + [t], events + [e], effects + [f])
  {
    hide Goes, Starts;
    var xs, ys, zs := states + [t], events + [e], effects + [f];
    forall i | 0 <= i < |ys| ensures Goes(cap, xs[i], ys[i], xs[i + 1], zs[i]) {
      assert i < |events| ==> Goes(cap, states[i], events[i], states[i + 1], effects[i]);
    }
  }

  // ---- Admission.

  /** In every run each accepted connection is either alive or was closed, the live ones are the
      registered ones and those waiting to be, they never exceed the limit, and so the client map
      never refuses one. */
  lemma Admission(cap: nat, states: seq<State>, events: seq<Event>, effects: seq<Effect>, i: nat)
    requires Run(cap, states, events, effects) && i < |states|
    ensures var s := states[i];
            && s.accept == s.alive + s.closed && s.alive == |s.registered| + |s.onQ|
            && s.alive <= MAX_CLIENT && !Full(s.registered, CLIENTS_CAP)
  {
    hide Sockets, Indexes, Leases.Agree;
    RunInv(cap, states, events, effects, i);
  }

  /** Step `i` closes client `id`. */
  predicate Closes(s: State, e: Event, id: nat) {
    e.Close? && s.offQ != [] && s.offQ[0] == id && Registered(s, id)
  }

  lemma ClosedStepStays(s: State, cap: nat, e: Event, id: nat)
    requires Inv(s) && Allowed(s, e) && Ready(s, e) && id < |s.socks| && s.socks[id].remote == ""
    requires s.socks[id].status == Closed
    ensures var t := Step(s, cap, e).0; id < |t.socks| && t.socks[id] == s.socks[id]
    ensures !Closes(s, e, id)
    ensures e.Close? && s.offQ[0] == id ==>
              var t := Step(s, cap, e).0; t == s.(offQ := s.offQ[1..])
  {
    hide Leases.Agree, Leases.Request, Leases.DelLease, Leases.InStore, Indexes, AddPoint, DelPoint, ByUuid;
    assert "" !in s.registered;
    if e.Register? {
      assert Waiting(s, s.onQ[0]);
    }
  }

  /** A client that was closed stays closed, and however often it is told to go offline again the
      counters do not move. */
  lemma {:induction false} CountedOnce(cap: nat, states: seq<State>, events: seq<Event>, effects: seq<Effect>,
                                       i: nat, j: nat, id: nat)
    requires Run(cap, states, events, effects) && i < j < |states| && Closes(states[i], events[i], id)
    ensures id < |states[j].socks| && states[j].socks[id].remote == "" && states[j].socks[id].status == Closed
    ensures j < |events| ==> !Closes(states[j], events[j], id)
    ensures j < |events| && events[j].Close? && states[j].offQ != [] && states[j].offQ[0] == id ==>
              states[j + 1] == states[j].(offQ := states[j].offQ[1..])
  {
    hide Inv, Step, Allowed, Ready;
    assert Goes(cap, states[j - 1], events[j - 1], states[j], effects[j - 1]);
    RunInv(cap, states, events, effects, j - 1);
    RunInv(cap, states, events, effects, j);
    if i == j - 1 {
      ClosesEmpties(states[i], cap, events[i], id);
    } else {
      CountedOnce(cap, states, events, effects, i, j - 1, id);
      ClosedStepStays(states[j - 1], cap, events[j - 1], id);
    }
    if j < |events| {
      assert Goes(cap, states[j], events[j], states[j + 1], effects[j]);
      ClosedStepStays(states[j], cap, events[j], id);
    }
  }

  lemma ClosesEmpties(s: State, cap: nat, e: Event, id: nat)
    requires Ready(s, e) && Closes(s, e, id)
    ensures var t := Step(s, cap, e).0; id < |t.socks| && t.socks[id].remote == "" && t.socks[id].status == Closed
  {
  }

  // ---- Takeover.

  /** In every run the three point indexes agree: the address index has exactly the clients, with
      their uuids, and the uuid index names a registered client that has that uuid and an open tap. */
  lemma PointIndexes(cap: nat, states: seq<State>, events: seq<Event>, effects: seq<Effect>, i: nat, u: string)
    requires Run(cap, states, events, effects) && i < |states|
    ensures var p := states[i].points;
            && p.addrUuid.Keys == p.clients.Keys
            && (forall a :: a in p.clients ==> p.addrUuid[a] == p.clients[a].uuid)
    ensures var s := states[i];
            u in s.points.uuidAddr ==>
              var a := s.points.uuidAddr[u];
              && a in s.points.clients && s.points.clients[a].uuid == u
              && a in s.registered && s.points.clients[a].client == s.registered[a]
              && s.points.clients[a].device < |s.taps| && s.taps[s.points.clients[a].device].open
  {
    hide Leases.Agree, Run;
    RunInv(cap, states, events, effects, i);
    var s := states[i];
    if u in s.points.uuidAddr {
      OneSocket(s, s.points.uuidAddr[u]);
      assert Backs(s, s.points.uuidAddr[u]);
    }
  }

  /** A login with a uuid that another connection holds makes the new connection the current one of
      that uuid and queues the older one to go offline, its point still in place. */
  lemma Takeover(s: State, cap: nat, id: nat, user: User, last: Option<nat>, older: Point)
    requires Inv(s) && CapOk(cap) && Registered(s, id) && s.socks[id].status != Auth
    requires ByUuid(s.points, Short(user.uuid)) == Some(older)
    ensures older.client < |s.socks|
    ensures var t, uuid := DoAuth(s, cap, id, user, true, last), Short(user.uuid);
            && uuid in t.points.uuidAddr && t.points.uuidAddr[uuid] == t.socks[id].address
            && older.client in t.offQ && older.uuid == uuid
            && t.socks[older.client].point == Some(older)
            && t.points.uuidAddr[uuid] != t.socks[older.client].address
  {
    hide Leases.Agree, Sockets, Indexes, Inv;
    var uuid := Short(user.uuid);
    OlderHolds(s, uuid);
    RoomForPoint(s, id);
    AddsToAll(s, cap, id, Point(uuid, user.alias, id, |s.taps|));
  }

  lemma OlderHolds(s: State, uuid: string)
    requires Inv(s) && ByUuid(s.points, uuid).Some?
    ensures var m := ByUuid(s.points, uuid).value;
            && m.uuid == uuid && m.client < |s.socks| && s.socks[m.client].point == Some(m)
            && s.socks[m.client].status == Auth && s.socks[m.client].address in s.points.clients
  {
    hide Leases.Agree;
    assert Backs(s, s.points.uuidAddr[uuid]);
  }

  /** Closing a connection whose uuid has a newer one touches nothing of the newer one: its index
      entry, its point, its open tap and every lease stay; its own tap is closed. */
  lemma SupersededClose(s: State, id: nat, uuid: string)
    requires Inv(s) && s.offQ != [] && s.offQ[0] == id && Registered(s, id)
    requires s.socks[id].point.Some? && s.socks[id].point.value.uuid == uuid
    requires uuid in s.points.uuidAddr && s.points.uuidAddr[uuid] != s.socks[id].address
    ensures Leases.InStore(s.book)
    ensures var t, newer := DoClose(s), s.points.uuidAddr[uuid];
            && t.book == s.book
            && t.points.uuidAddr == s.points.uuidAddr
            && newer in t.points.clients && t.points.clients[newer] == s.points.clients[newer]
            && newer in t.registered
            && t.points.clients[newer].device < |t.taps| && t.taps[t.points.clients[newer].device].open
            && s.socks[id].address !in t.points.clients
            && s.socks[id].point.value.device < |t.taps| && !t.taps[s.socks[id].point.value.device].open
  {
    assert Leases.InStore(s.book);
    CloseKeeps(s);
    RegisteredOpen(s, id);
    var addr := s.socks[id].address;
    OneSocket(s, addr);
    hide Leases.Agree, Sockets;
    var t, newer := DoClose(s), s.points.uuidAddr[uuid];
    assert Backs(s, addr);
    assert newer in t.points.clients;
    assert Backs(t, newer);
  }

  /** Closing the current connection of a uuid removes its index entry and its tap, and its lease
      unless that is static. */
  lemma CurrentClose(s: State, id: nat, uuid: string)
    requires Inv(s) && s.offQ != [] && s.offQ[0] == id && Registered(s, id)
    requires s.socks[id].point.Some? && s.socks[id].point.value.uuid == uuid
    requires uuid in s.points.uuidAddr && s.points.uuidAddr[uuid] == s.socks[id].address
    ensures Leases.InStore(s.book)
    ensures var t, device := DoClose(s), s.socks[id].point.value.device;
            && uuid !in t.points.uuidAddr && s.socks[id].address !in t.points.clients
            && device < |t.taps| && !t.taps[device].open
            && t.book == Leases.DelLease(s.book, uuid)
            && (uuid in s.book.uuid ==>
                  var l := s.book.store[s.book.uuid[uuid]];
                  if l.kind == Leases.STATIC then t.book == s.book
                  else uuid !in t.book.uuid && l.address !in t.book.addr)
  {
    assert Leases.InStore(s.book);
    RegisteredOpen(s, id);
    OneSocket(s, s.socks[id].address);
    Leases.DelLeaseKeeps(s.book, uuid);
    hide Leases.Agree, Leases.DelLease, Sockets;
    assert Backs(s, s.socks[id].address);
  }

  // ---- The login gate.

  /** The event is a login of `id` whose credentials are checked now, and accepted. */
  predicate Checked(s: State, e: Event, id: nat) {
    e.Login? && e.id == id && e.verdict == Accepted && id < |s.socks| && s.socks[id].status != Auth
  }

  /** Event `j` is a checked and accepted login of `id`, and no later event before `k` closed `id`. */
  ghost predicate LoggedIn(states: seq<State>, events: seq<Event>, id: nat, j: nat, k: nat)
    requires |states| == |events| + 1 && j < k < |states|
  {
    Checked(states[j], events[j], id) && forall i :: j < i < k ==> !Closes(states[i], events[i], id)
  }

  /** A client that is authenticated now was before, or just logged in; its tap is of the network it
      logged in to. */
  lemma AuthStep(s: State, cap: nat, e: Event, id: nat)
    requires Sockets(s) && Held(s) && Ready(s, e)
    requires var t := Step(s, cap, e).0; id < |t.socks| && t.socks[id].status == Auth
    ensures var t := Step(s, cap, e).0;
            if id < |s.socks| && s.socks[id].status == Auth
            then !Closes(s, e, id) && t.socks[id].point == s.socks[id].point
            else && Checked(s, e, id)
                 && (t.socks[id].point.Some? ==>
                       && t.socks[id].point.value.device == |s.taps| < |t.taps|
                       && t.taps[|s.taps|].network == e.user.network)
  {
    hide Leases.Request, Leases.DelLease, Leases.InStore, AddPoint, DelPoint, ByUuid, DoAuth;
    if e.Register? {
      assert Waiting(s, s.onQ[0]);
    } else if e.Login? {
      hide Sockets;
      AuthOfLogin(s, cap, e, id);
    } else if e.Close? {
      hide Held;
      AuthOfClose(s, id);
    }
  }

  lemma AuthOfLogin(s: State, cap: nat, e: Event, id: nat)
    requires Held(s) && e.Login? && e.id < |s.socks|
    ensures var t := DoAuth(s, cap, e.id, e.user, e.tapOk, e.last);
            && |t.socks| == |s.socks|
            && (id < |s.socks| && id != e.id ==> t.socks[id] == s.socks[id])
            && (s.socks[e.id].status != Auth && t.socks[e.id].point.Some? ==>
                  t.socks[e.id].point.value.device == |s.taps| < |t.taps| &&
                  t.taps[|s.taps|].network == e.user.network)
  {
  }

  lemma AuthOfClose(s: State, id: nat)
    requires Sockets(s) && Leases.InStore(s.book) && s.offQ != [] && s.offQ[0] < |s.socks| && id < |s.socks|
    ensures var t := DoClose(s);
            |t.socks| == |s.socks| && (if Closes(s, Close, id) then t.socks[id].status == Closed
                                       else t.socks[id] == s.socks[id])
  {
  }

  /** Taps keep their network. */
  lemma TapsStay(s: State, cap: nat, e: Event, d: nat)
    requires Ready(s, e) && d < |s.taps|
    ensures var t := Step(s, cap, e).0; d < |t.taps| && t.taps[d].network == s.taps[d].network
  {
    hide Leases.Request, Leases.DelLease, Leases.InStore, AddPoint, DelPoint, ByUuid;
  }

  lemma Parts(s: State)
    requires Inv(s)
    ensures Sockets(s) && Held(s)
  {
  }

  lemma {:induction false} AuthHasLogin(cap: nat, states: seq<State>, events: seq<Event>, effects: seq<Effect>,
                                        id: nat, k: nat) returns (j: nat)
    requires Run(cap, states, events, effects) && k < |states|
    requires id < |states[k].socks| && states[k].socks[id].status == Auth
    ensures j < k && LoggedIn(states, events, id, j, k)
    ensures states[k].socks[id].point.Some? ==>
              && states[k].socks[id].point.value.device == |states[j].taps| < |states[k].taps|
              && states[k].taps[|states[j].taps|].network == events[j].user.network
  {
    hide Inv, Step, Sockets, Held;
    assert k > 0;
    var s, e := states[k - 1], events[k - 1];
    RunInv(cap, states, events, effects, k - 1);
    assert Goes(cap, s, e, states[k], effects[k - 1]);
    Parts(s);
    AuthStep(s, cap, e, id);
    if id < |s.socks| && s.socks[id].status == Auth {
      j := AuthHasLogin(cap, states, events, effects, id, k - 1);
      if s.socks[id].point.Some? {
        TapsStay(s, cap, e, s.socks[id].point.value.device);
      }
    } else {
      j := k - 1;
    }
  }

  /** In every run, whatever of a client reaches the later hooks or a tap follows a login of that very
      client whose credentials were checked and accepted, with no close since; for a login that
      passes that may be the login itself.  The tap written to is the one that login created, for the
      network of those credentials. */
  lemma LoginGate(cap: nat, states: seq<State>, events: seq<Event>, effects: seq<Effect>, k: nat) returns (j: nat)
    requires Run(cap, states, events, effects) && k < |events| && (effects[k] == Passed || effects[k].Wrote?)
    ensures (events[k].Frame? || events[k].Login?) && j <= k
    ensures if j == k then Checked(states[k], events[k], events[k].id)
            else LoggedIn(states, events, events[k].id, j, k)
    ensures events[k].Frame? ==> j < k
    ensures effects[k].Wrote? ==>
              && effects[k].tap == |states[j].taps| < |states[k].taps|
              && states[k].taps[|states[j].taps|].network == events[j].user.network
  {
    hide Inv, Leases.Request, Leases.InStore;
    assert Goes(cap, states[k], events[k], states[k + 1], effects[k]);
    var id := events[k].id;
    if id < |states[k].socks| && states[k].socks[id].status == Auth {
      j := AuthHasLogin(cap, states, events, effects, id, k);
    } else {
      j := k;
    }
  }

  // ---- A capacity below the client limit.

  /** The first client logs in. */
  lemma OneLogin(cap: nat, a: string, u: User, s: State)
    returns (states: seq<State>, events: seq<Event>, effects: seq<Effect>)
    requires cap == 1 && a != "" && Starts(s)
    ensures Steps(cap, states, events, effects) && |events| == 3
    ensures var m := Point(Short(u.uuid), u.alias, 0, 0);
            states[3] == State([Sock(a, a, Auth, Some(m))], 1, 1, 0, [], [], map[a := 0],
                               Points(map[a := m], map[m.uuid := a], map[a := m.uuid]), [Tap(u.network, true)], s.book)
  {
    Leases.AgreeInStore(s.book);
    hide Leases.Agree, Leases.InStore, Short;
    var s1 := DoAccept(s, a);
    var s2 := DoRegister(s1);
    var e := Login(0, u, Accepted, true, None);
    var s3 := DoAuth(s2, cap, 0, u, true, None);
    Extend(cap, [s], [], [], Event.Accept(a), s1, Nothing);
    states, events, effects := [s] + [s1], [] + [Event.Accept(a)], [] + [Nothing];
    Extend(cap, states, events, effects, Register, s2, Nothing);
    states, events, effects := states + [s2], events + [Register], effects + [Nothing];
    Extend(cap, states, events, effects, e, s3, Passed);
    states, events, effects := states + [s3], events + [e], effects + [Passed];
  }

  /** With room for one point, the second login of a run leaves the indexes in disagreement. */
  lemma SmallCapDisagrees(cap: nat, a: string, b: string, u: User, v: User, s: State)
    returns (states: seq<State>, events: seq<Event>, effects: seq<Effect>)
    requires cap == 1 && a != "" && b != "" && a != b && Starts(s)
    ensures Steps(cap, states, events, effects) && |events| == 6
    ensures !PointsAgree(states[6].points)
  {
    states, events, effects := OneLogin(cap, a, u, s);
    Leases.AgreeInStore(s.book);
    hide Leases.Agree, Leases.InStore, Short, Steps;
    var s4 := DoAccept(states[3], b);
    var s5 := DoRegister(s4);
    var e := Login(1, v, Accepted, true, None);
    var s6 := DoAuth(s5, cap, 1, v, true, None);
    Extend(cap, states, events, effects, Event.Accept(b), s4, Nothing);
    states, events, effects := states + [s4], events + [Event.Accept(b)], effects + [Nothing];
    Extend(cap, states, events, effects, Register, s5, Nothing);
    states, events, effects := states + [s5], events + [Register], effects + [Nothing];
    Extend(cap, states, events, effects, e, s6, Passed);
    states, events, effects := states + [s6], events + [e], effects + [Passed];
    assert b in s6.points.addrUuid && b !in s6.points.clients;
  }
}
