/** What every run of the session handlers keeps. */
module SessionRuns {
  import opened Options
  import opened SafeMap
  import opened Sessions
  import Leases

  // ---- The invariant, in four parts.

  /** Every accepted connection was closed or is alive; every live one is registered or waits to
      be; there are never more than the limit. */
  predicate Counts(s: State) {
    && s.accept == s.alive + s.closed
    && s.alive == |s.registered| + |s.onQ|
    && s.alive <= MAX_CLIENT
  }

  predicate Waiting(s: State, id: nat) {
    && id < |s.socks|
    && s.socks[id] == Sock(s.socks[id].address, s.socks[id].address, Init, None)
    && s.socks[id].address != ""
  }

  /** Sockets that wait, sockets that are registered, and all others closed. */
  ghost predicate Sockets(s: State) {
    && (forall i :: 0 <= i < |s.onQ| ==> Waiting(s, s.onQ[i]) && s.socks[s.onQ[i]].remote !in s.registered)
    && (forall i, j :: 0 <= i < j < |s.onQ| ==> s.onQ[i] != s.onQ[j])
    && (forall i, j :: 0 <= i < j < |s.socks| && s.socks[i].remote != "" ==> s.socks[i].remote != s.socks[j].remote)
    && (forall a :: a in s.registered ==> a != "" && s.registered[a] < |s.socks| && IsOpen(s.socks[s.registered[a]], a))
    && (forall id :: 0 <= id < |s.socks| && s.socks[id].remote in s.registered ==> s.registered[s.socks[id].remote] == id)
    && (forall id :: 0 <= id < |s.socks| && s.socks[id].status !in {Init, Closed} ==> s.socks[id].remote in s.registered)
    && (forall i :: 0 <= i < |s.offQ| ==> s.offQ[i] < |s.socks|)
  }

  predicate IsOpen(c: Sock, addr: string) {
    c.remote == addr == c.address && c.status in {Connected, UnAuth, Auth}
  }

  /** The three point indexes agree with each other. */
  ghost predicate PointsAgree(p: Points) {
    && p.addrUuid.Keys == p.clients.Keys
    && (forall a :: a in p.clients ==> p.addrUuid[a] == p.clients[a].uuid)
    && (forall u :: u in p.uuidAddr ==> p.uuidAddr[u] in p.clients && p.clients[p.uuidAddr[u]].uuid == u)
  }

  /** They agree with the registered clients. */
  ghost predicate Backed(s: State) {
    forall a :: a in s.points.clients ==> a in s.registered && Backs(s, a)
  }

  ghost predicate Held(s: State) {
    forall id :: 0 <= id < |s.socks| && s.socks[id].point.Some? ==>
      && s.socks[id].status == Auth && s.socks[id].address in s.points.clients
      && s.points.clients[s.socks[id].address].client == id
  }

  ghost predicate Indexes(s: State) {
    PointsAgree(s.points) && Backed(s) && Held(s)
  }

  /** The point under an address is the one its registered socket holds, with an open tap of its own. */
  ghost predicate Backs(s: State, a: string)
    requires a in s.points.clients
  {
    var m := s.points.clients[a];
    && m.client < |s.socks| && s.socks[m.client].address == a && s.socks[m.client].point == Some(m)
    && m.device < |s.taps| && s.taps[m.device].open
    && (forall b :: b in s.points.clients && s.points.clients[b].device == m.device ==> b == a)
  }

  ghost predicate Inv(s: State) {
    Counts(s) && Sockets(s) && Indexes(s) && Leases.Agree(s.book)
  }

  lemma EmptyInv(s: State)
    requires s.socks == [] && s.onQ == [] && s.offQ == [] && s.registered == map[]
    requires s.accept == s.alive == s.closed == 0
    requires s.points == Points(map[], map[], map[]) && Leases.Agree(s.book)
    ensures Inv(s)
  {
    hide Leases.Agree;
  }

  lemma AllowedIsReady(s: State, e: Event)
    requires Inv(s) && Allowed(s, e)
    ensures Ready(s, e)
  {
  }

  // ---- Sizes.

  lemma SubsetSize<T>(a: set<T>, b: set<T>)
    requires a <= b
    ensures |a| <= |b|
  {
    assert |b| == |a| + |b - a|;
  }

  lemma {:induction false} InjectionSize(m: map<string, string>, keys: set<string>, into: set<string>)
    requires keys <= m.Keys
    requires forall u :: u in keys ==> m[u] in into
    requires forall u, v :: u in keys && v in keys && m[u] == m[v] ==> u == v
    ensures |keys| <= |into|
    decreases |keys|
  {
    if keys != {} {
      var u :| u in keys;
      InjectionSize(m, keys - {u}, into - {m[u]});
    }
  }

  /** The point under an address belongs to the socket registered there. */
  lemma OneSocket(s: State, a: string)
    requires Sockets(s) && Indexes(s) && a in s.points.clients
    ensures a in s.registered && s.points.clients[a].client == s.registered[a] < |s.socks|
    ensures s.socks[s.registered[a]].status == Auth && s.socks[s.registered[a]].point == Some(s.points.clients[a])
  {
    assert Backs(s, a);
    var id := s.points.clients[a].client;
    assert s.socks[id].remote in s.registered;
    assert IsOpen(s.socks[s.registered[s.socks[id].remote]], s.socks[id].remote);
  }

  /** No index is ever full: `Set` and `Reset` take effect whenever a registered client without a
      point logs in. */
  lemma RoomForPoint(s: State, id: nat)
    requires Inv(s) && Registered(s, id) && s.socks[id].status != Auth
    ensures s.socks[id].address == s.socks[id].remote && s.socks[id].address !in s.points.clients
    ensures |s.points.clients| < MAX_CLIENT && |s.points.addrUuid| < MAX_CLIENT && |s.points.uuidAddr| < MAX_CLIENT
  {
    hide Leases.Agree;
    var addr := s.socks[id].remote;
    RegisteredOpen(s, id);
    if addr in s.points.clients {
      OneSocket(s, addr);
    }
    hide Sockets;
    SubsetSize(s.points.clients.Keys, s.registered.Keys - {addr});
    UuidsFit(s);
    assert |s.points.addrUuid.Keys| == |s.points.clients.Keys|;
  }

  lemma RegisteredOpen(s: State, id: nat)
    requires Sockets(s) && Registered(s, id)
    ensures s.registered[s.socks[id].remote] == id && IsOpen(s.socks[id], s.socks[id].remote) && s.socks[id].remote != ""
  {
  }

  lemma UuidsFit(s: State)
    requires Indexes(s)
    ensures |s.points.uuidAddr| <= |s.points.clients|
  {
    InjectionSize(s.points.uuidAddr, s.points.uuidAddr.Keys, s.points.clients.Keys);
  }

  // ---- Each step keeps it.

  /** The indexes do not notice changes of sockets that keep their points, nor new sockets, taps
      and registrations. */
  lemma IndexesFrame(s: State, t: State)
    requires Indexes(s) && t.points == s.points && |s.socks| <= |t.socks|
    requires forall a :: a in s.points.clients ==> a in t.registered
    requires |s.taps| <= |t.taps| && forall i :: 0 <= i < |s.taps| ==> t.taps[i] == s.taps[i]
    requires forall id :: 0 <= id < |s.socks| ==>
               && t.socks[id].point == s.socks[id].point && t.socks[id].address == s.socks[id].address
               && (t.socks[id].point.Some? ==> t.socks[id].status == Auth)
    requires forall id :: |s.socks| <= id < |t.socks| ==> t.socks[id].point == None
    ensures Indexes(t)
  {
    forall a | a in t.points.clients ensures Backs(t, a) { assert Backs(s, a); }
  }

  lemma AcceptKeeps(s: State, addr: string)
    requires Inv(s) && Allowed(s, Accept(addr))
    ensures Inv(DoAccept(s, addr))
  {
    hide Leases.Agree, Sockets, Indexes;
    if s.alive < MAX_CLIENT {
      AcceptSockets(s, addr);
      AcceptIndexes(s, addr);
    } else {
      OffQueue(s);
      SocketsFrame(s, DoAccept(s, addr));
      ClientsRegistered(s);
      PointsAuth(s);
      IndexesFrame(s, DoAccept(s, addr));
    }
  }

  lemma SocketsFrame(s: State, t: State)
    requires Sockets(s) && t.socks == s.socks && t.onQ == s.onQ && t.registered == s.registered
    requires forall i :: 0 <= i < |t.offQ| ==> t.offQ[i] < |t.socks|
    ensures Sockets(t)
  {
  }

  lemma OffQueue(s: State)
    requires Sockets(s)
    ensures forall i :: 0 <= i < |s.offQ| ==> s.offQ[i] < |s.socks|
  {
  }

  lemma AcceptSockets(s: State, addr: string)
    requires Sockets(s) && Allowed(s, Accept(addr)) && s.alive < MAX_CLIENT
    ensures Sockets(DoAccept(s, addr))
  {
    var t := DoAccept(s, addr);
    assert t.socks == s.socks + [Sock(addr, addr, Init, None)] && t.onQ == s.onQ + [|s.socks|];
    assert t.registered == s.registered && t.offQ == s.offQ;
    hide DoAccept;
    assert forall i :: 0 <= i < |s.socks| ==> t.socks[i] == s.socks[i];
    assert addr !in s.registered by {
      assert forall a :: a in s.registered ==> s.socks[s.registered[a]].remote == a;
    }
    assert Waiting(t, |s.socks|);
    assert forall i :: 0 <= i < |s.onQ| ==> Waiting(s, s.onQ[i]) && s.socks[s.onQ[i]].remote != addr;
  }

  lemma AcceptIndexes(s: State, addr: string)
    requires Indexes(s) && s.alive < MAX_CLIENT
    ensures Indexes(DoAccept(s, addr))
  {
    hide Indexes;
    assert forall a :: a in s.points.clients ==> a in s.registered by { ClientsRegistered(s); }
    PointsAuth(s);
    IndexesFrame(s, DoAccept(s, addr));
  }

  lemma ClientsRegistered(s: State)
    requires Indexes(s)
    ensures forall a :: a in s.points.clients ==> a in s.registered
  {
  }

  lemma PointsAuth(s: State)
    requires Indexes(s)
    ensures forall id :: 0 <= id < |s.socks| && s.socks[id].point.Some? ==> s.socks[id].status == Auth
  {
  }

  lemma RegisterKeeps(s: State)
    requires Inv(s) && s.onQ != []
    ensures s.onQ[0] < |s.socks| && Inv(DoRegister(s))
  {
    hide Leases.Agree, Sockets, Indexes;
    HeadWaits(s);
    RegisterSockets(s);
    ClientsRegistered(s);
    PointsAuth(s);
    IndexesFrame(s, DoRegister(s));
  }

  lemma HeadWaits(s: State)
    requires Sockets(s) && s.onQ != []
    ensures Waiting(s, s.onQ[0]) && s.socks[s.onQ[0]].remote !in s.registered
  {
  }

  lemma RegisterSockets(s: State)
    requires Sockets(s) && s.onQ != [] && !Full(s.registered, CLIENTS_CAP)
    ensures s.onQ[0] < |s.socks| && Sockets(DoRegister(s))
  {
    var id := s.onQ[0];
    var t := DoRegister(s);
    var addr := s.socks[id].remote;
    assert Waiting(s, id);
    assert t.registered == s.registered[addr := id];
    assert forall i :: 0 <= i < |s.socks| && i != id ==> t.socks[i] == s.socks[i];
    forall i | 0 <= i < |t.onQ| ensures Waiting(t, t.onQ[i]) && t.socks[t.onQ[i]].remote !in t.registered {
      assert t.onQ[i] == s.onQ[i + 1];
      assert s.onQ[0] != s.onQ[i + 1];
      assert Waiting(s, s.onQ[i + 1]);
    }
    assert forall i :: 0 <= i < |t.onQ| ==> t.onQ[i] == s.onQ[i + 1];
  }

  lemma CloseSockets(s: State, id: nat, t: State)
    requires Sockets(s) && Registered(s, id)
    requires t.onQ == s.onQ && t.registered == s.registered - {s.socks[id].remote}
    requires t.socks == s.socks[id := Sock(s.socks[id].address, "", Closed, None)]
    requires forall i :: 0 <= i < |t.offQ| ==> t.offQ[i] < |s.socks|
    ensures Sockets(t)
  {
    RegisteredOpen(s, id);
    assert forall i :: 0 <= i < |s.onQ| ==> Waiting(s, s.onQ[i]) && s.onQ[i] != id;
  }

  /** What a close leaves of the indexes. */
  lemma CloseIndexes(s: State, id: nat, t: State)
    requires Sockets(s) && Indexes(s) && Registered(s, id)
    requires t.registered == s.registered - {s.socks[id].remote}
    requires t.socks == s.socks[id := Sock(s.socks[id].address, "", Closed, None)]
    requires t.points == OnClose'(s, id).points && t.taps == OnClose'(s, id).taps
    ensures Indexes(t)
  {
    var addr := s.socks[id].remote;
    RegisteredOpen(s, id);
    if addr in s.points.clients {
      OneSocket(s, addr);
      ClosePoint(s, id, t);
    } else {
      assert s.socks[id].point == None;
      ClientsRegistered(s);
      PointsAuth(s);
      IndexesFrame(s, t);
    }
  }

  /** `OnClose` without the leases. */
  function OnClose'(s: State, id: nat): State
    requires id < |s.socks|
  {
    OnClose(s.(book := Leases.NO_LEASES), id)
  }

  lemma ClosePoint(s: State, id: nat, t: State)
    requires Indexes(s) && id < |s.socks|
    requires var addr := s.socks[id].remote;
             addr == s.socks[id].address && addr in s.points.clients && s.points.clients[addr].client == id
    requires t.registered == s.registered - {s.socks[id].remote}
    requires t.socks == s.socks[id := Sock(s.socks[id].address, "", Closed, None)]
    requires t.points == OnClose'(s, id).points && t.taps == OnClose'(s, id).taps
    ensures Indexes(t)
  {
    hide PointsAgree, Backs, OnClose';
    CloseEffect(s, id);
    LeavePoints(s.points, s.socks[id].remote);
    forall a | a in t.points.clients ensures a in t.registered && Backs(t, a) {
      LeaveBacks(s, id, t, a);
    }
    assert Held(t);
  }

  lemma CloseEffect(s: State, id: nat)
    requires Backed(s) && id < |s.socks| && s.socks[id].remote == s.socks[id].address
    requires s.socks[id].remote in s.points.clients && s.points.clients[s.socks[id].remote].client == id
    ensures var addr, t := s.socks[id].remote, OnClose'(s, id);
            var device := s.points.clients[addr].device;
            && t.points == DelPoint(s.points, addr, addr) && t.points.clients == s.points.clients - {addr}
            && device < |s.taps| && t.taps == s.taps[device := s.taps[device].(open := false)]
  {
    assert Backs(s, s.socks[id].remote);
  }

  lemma LeavePoints(p: Points, addr: string)
    requires PointsAgree(p) && addr in p.clients
    ensures PointsAgree(DelPoint(p, addr, addr))
  {
  }

  lemma LeaveBacks(s: State, id: nat, t: State, a: string)
    requires Backed(s) && id < |s.socks| && t.registered == s.registered - {s.socks[id].address}
    requires s.socks[id].address in s.points.clients && s.points.clients[s.socks[id].address].device < |s.taps|
    requires t.points.clients == s.points.clients - {s.socks[id].address} && a in t.points.clients
    requires |t.socks| == |s.socks| && forall i :: 0 <= i < |s.socks| && i != id ==> t.socks[i] == s.socks[i]
    requires |t.taps| == |s.taps|
    requires forall i :: 0 <= i < |s.taps| && i != s.points.clients[s.socks[id].address].device ==> t.taps[i] == s.taps[i]
    ensures a in t.registered && Backs(t, a)
  {
    assert Backs(s, a) && Backs(s, s.socks[id].address);
  }

  lemma CloseKeeps(s: State)
    requires Inv(s) && s.offQ != []
    ensures s.offQ[0] < |s.socks| && Inv(DoClose(s))
  {
    hide Leases.Agree, Leases.InStore, Leases.DelLease, DelPoint, Sockets, Indexes, OnClose';
    OffQueue(s);
    Leases.AgreeInStore(s.book);
    var id, t := s.offQ[0], DoClose(s);
    assert forall i :: 0 <= i < |t.offQ| ==> t.offQ[i] == s.offQ[i + 1];
    if Registered(s, id) {
      CloseOpen(s, id, t);
    } else {
      SocketsFrame(s, t);
      ClientsRegistered(s);
      PointsAuth(s);
      IndexesFrame(s, t);
    }
  }

  lemma CloseOpen(s: State, id: nat, t: State)
    requires Inv(s) && s.offQ != [] && id == s.offQ[0] && Registered(s, id) && t == DoClose(s)
    requires forall i :: 0 <= i < |t.offQ| ==> t.offQ[i] < |s.socks|
    ensures Inv(t)
  {
    hide Leases.Agree, Sockets, Indexes;
    var addr := s.socks[id].remote;
    Leases.DelLeaseKeeps(s.book, Get(s.points.addrUuid, addr, ""));
    CloseSockets(s, id, t);
    CloseIndexes(s, id, t);
    assert t.registered.Keys == s.registered.Keys - {addr};
  }

  /** A status change of a registered socket, and more offline requests. */
  lemma StatusSockets(s: State, id: nat, c: Sock, t: State)
    requires Sockets(s) && Registered(s, id) && IsOpen(c, s.socks[id].remote)
    requires t.socks == s.socks[id := c] && t.onQ == s.onQ && t.registered == s.registered
    requires forall i :: 0 <= i < |t.offQ| ==> t.offQ[i] < |s.socks|
    ensures Sockets(t)
  {
    RegisteredOpen(s, id);
    assert forall i :: 0 <= i < |s.onQ| ==> Waiting(s, s.onQ[i]) && s.onQ[i] != id;
  }

  lemma StatusIndexes(s: State, id: nat, v: Status, t: State)
    requires Indexes(s) && id < |s.socks| && s.socks[id].status != Auth
    requires t.socks == s.socks[id := s.socks[id].(status := v)]
    requires t.points == s.points && t.registered == s.registered && t.taps == s.taps
    ensures Indexes(t)
  {
    assert s.socks[id].point == None;
    ClientsRegistered(s);
    PointsAuth(s);
    IndexesFrame(s, t);
  }

  /** `t` is `s` with a new point for socket `id` in all three indexes and a tap of its own. */
  ghost predicate Joins(s: State, id: nat, m: Point, t: State) {
    && id < |s.socks| && s.socks[id].status != Auth && s.socks[id].address !in s.points.clients
    && s.socks[id].address in s.registered && t.registered == s.registered
    && t.points == Points(s.points.clients[s.socks[id].address := m],
                          s.points.uuidAddr[m.uuid := s.socks[id].address],
                          s.points.addrUuid[s.socks[id].address := m.uuid])
    && m.client == id && m.device == |s.taps| && |t.taps| == |s.taps| + 1 && t.taps[m.device].open
    && (forall i :: 0 <= i < |s.taps| ==> t.taps[i] == s.taps[i])
    && t.socks == s.socks[id := s.socks[id].(status := Auth, point := Some(m))]
  }

  lemma JoinBacks(s: State, id: nat, m: Point, t: State, a: string)
    requires Backed(s) && Held(s) && Joins(s, id, m, t) && a in t.points.clients
    ensures a in t.registered && Backs(t, a)
  {
    assert forall b :: b in s.points.clients ==> Backs(s, b);
    assert s.socks[id].point == None;
    assert t.points.clients == s.points.clients[s.socks[id].address := m];
  }

  lemma JoinPoints(p: Points, addr: string, m: Point)
    requires PointsAgree(p) && addr !in p.clients
    ensures PointsAgree(Points(p.clients[addr := m], p.uuidAddr[m.uuid := addr], p.addrUuid[addr := m.uuid]))
  {
  }

  lemma JoinIndexes(s: State, id: nat, m: Point, t: State)
    requires Indexes(s) && Joins(s, id, m, t)
    ensures Indexes(t)
  {
    hide PointsAgree, Backs;
    JoinPoints(s.points, s.socks[id].address, m);
    forall a | a in t.points.clients ensures a in t.registered && Backs(t, a) {
      JoinBacks(s, id, m, t, a);
    }
    assert Held(t);
  }

  predicate CapOk(cap: nat) { cap == 0 || cap >= MAX_CLIENT }

  lemma AuthKeeps(s: State, cap: nat, id: nat, user: User, tapOk: bool, last: Option<nat>)
    requires Inv(s) && Registered(s, id) && s.socks[id].status != Auth && CapOk(cap)
    requires last.Some? ==> last.value < |s.socks|
    ensures Inv(DoAuth(s, cap, id, user, tapOk, last))
  {
    hide Leases.Agree, Sockets, Indexes;
    RoomForPoint(s, id);
    RegisteredOpen(s, id);
    OffQueue(s);
    OlderIsKnown(s, Short(user.uuid));
    var t := DoAuth(s, cap, id, user, tapOk, last);
    StatusSockets(s, id, t.socks[id], t);
    if tapOk {
      AddsToAll(s, cap, id, Point(Short(user.uuid), user.alias, id, |s.taps|));
      JoinIndexes(s, id, Point(Short(user.uuid), user.alias, id, |s.taps|), t);
    } else {
      StatusIndexes(s, id, Auth, t);
    }
  }

  lemma OlderIsKnown(s: State, uuid: string)
    requires Indexes(s)
    ensures ByUuid(s.points, uuid).Some? ==> ByUuid(s.points, uuid).value.client < |s.socks|
  {
    if ByUuid(s.points, uuid).Some? {
      assert Backs(s, s.points.uuidAddr[uuid]);
    }
  }

  /** With a capacity of at least the client limit every index takes the new point. */
  lemma AddsToAll(s: State, cap: nat, id: nat, m: Point)
    requires Inv(s) && Registered(s, id) && s.socks[id].status != Auth && CapOk(cap)
    ensures var addr := s.socks[id].address;
            AddPoint(s.points, cap, addr, m) ==
            Points(s.points.clients[addr := m], s.points.uuidAddr[m.uuid := addr], s.points.addrUuid[addr := m.uuid])
  {
    RoomForPoint(s, id);
    assert s.points.addrUuid.Keys == s.points.clients.Keys;
  }

  /** The capacity matters: a point enters all three indexes, or the indexes disagree, according to
      whether the client index has room. */
  lemma PointCap(s: State, cap: nat, id: nat, m: Point)
    requires Inv(s) && Registered(s, id) && s.socks[id].status != Auth
    ensures PointsAgree(AddPoint(s.points, cap, s.socks[id].address, m)) <==> !Full(s.points.clients, cap)
  {
    hide Leases.Agree, Sockets, Backed, Held;
    RoomForPoint(s, id);
    var addr := s.socks[id].address;
    if Full(s.points.clients, cap) {
      var p := AddPoint(s.points, cap, addr, m);
      assert addr in p.addrUuid && addr !in p.clients;
    } else {
      JoinPoints(s.points, addr, m);
    }
  }

  lemma LoginKeeps(s: State, cap: nat, e: Event)
    requires Inv(s) && e.Login? && Allowed(s, e) && CapOk(cap)
    ensures Inv(DoLogin(s, cap, e).0)
  {
    hide Leases.Agree, Sockets, Indexes, DoAuth;
    if s.socks[e.id].status != Auth {
      if e.verdict.Accepted? {
        AuthKeeps(s, cap, e.id, e.user, e.tapOk, e.last);
      } else if e.verdict.Refused? {
        var t := SetStatus(s, e.id, UnAuth);
        RegisteredOpen(s, e.id);
        OffQueue(s);
        StatusSockets(s, e.id, t.socks[e.id], t);
        StatusIndexes(s, e.id, UnAuth, t);
      }
    }
  }

  lemma FrameKeeps(s: State, id: nat, request: Request)
    requires Inv(s) && Allowed(s, Frame(id, request))
    ensures Leases.InStore(s.book) && Inv(DoFrame(s, id, request).0)
  {
    assert Leases.InStore(s.book);
    hide Leases.Agree, Leases.InStore, Leases.Request, Leases.Finds, Leases.Searches, Sockets, Indexes;
    var c := s.socks[id];
    if c.status == Auth && request.Leave? {
      OfflineKeeps(s, id);
    } else if c.status == Auth && request.IpAddr? && c.address in s.points.clients {
      LeaseKeeps(s.book, s.points.clients[c.address], request, c.address);
      BookKeeps(s, DoFrame(s, id, request).0);
    } else {
      assert DoFrame(s, id, request).0 == s;
    }
  }

  lemma BookKeeps(s: State, t: State)
    requires Inv(s) && t == s.(book := t.book) && Leases.Agree(t.book)
    ensures Inv(t)
  {
    hide Leases.Agree, Sockets, Indexes;
    OffQueue(s);
    SocketsFrame(s, t);
    ClientsRegistered(s);
    PointsAuth(s);
    IndexesFrame(s, t);
  }

  lemma LeaseKeeps(b: Leases.Book, p: Point, request: Request, addr: string)
    requires Leases.Agree(b) && Leases.AliasOk(b, p.uuid, p.alias) && request.IpAddr? && request.range.Valid()
    requires Leases.Searches(b, p.uuid, p.alias) ==> Leases.Finds(b.addr.Keys, request.range, request.found)
    ensures Leases.Agree(Leases.Request(b, p.uuid, p.alias, addr, request.found))
  {
    assert Leases.InStore(b);
    hide Leases.Agree, Leases.InStore, Leases.Request;
    if Leases.Searches(b, p.uuid, p.alias) {
      Leases.FoundIsFree(b, request.range, request.found);
    }
    Leases.RequestKeeps(b, p.uuid, p.alias, addr, request.found);
  }

  lemma StepKeeps(s: State, cap: nat, e: Event)
    requires Inv(s) && Allowed(s, e) && CapOk(cap)
    ensures Ready(s, e) && Inv(Step(s, cap, e).0)
  {
    AllowedIsReady(s, e);
    hide Inv, DoAccept, DoRegister, DoClose, DoLogin, DoFrame;
    match e
    case Accept(addr) => AcceptKeeps(s, addr);
    case Register => RegisterKeeps(s);
    case Offline(id) => OfflineKeeps(s, id);
    case Close => CloseKeeps(s);
    case Login(_, _, _, _, _) => LoginKeeps(s, cap, e);
    case Frame(id, request) => FrameKeeps(s, id, request);
  }

  lemma OfflineKeeps(s: State, id: nat)
    requires Inv(s) && id < |s.socks|
    ensures Inv(s.(offQ := s.offQ + [id]))
  {
    hide Leases.Agree, Sockets, Indexes;
    var t := s.(offQ := s.offQ + [id]);
    OffQueue(s);
    SocketsFrame(s, t);
    ClientsRegistered(s);
    PointsAuth(s);
    IndexesFrame(s, t);
  }
}
