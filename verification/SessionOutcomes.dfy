/** What becomes of every frame, login and offline request, over every run. */
module SessionOutcomes {
  import opened Options
  import opened Sessions
  import opened SessionRuns
  import opened SessionTheorems
  import Codecs
  import Leases

  // ---- Being logged in is a state.

  /** Before its login a client has no point. */
  lemma NoPointYet(s: State, id: nat)
    requires Inv(s) && id < |s.socks| && s.socks[id].status != Auth
    ensures s.socks[id].point == None
  {
  }

  /** The point of a login. */
  function PointOf(e: Event, taps: nat): Option<Point>
    requires e.Login?
  {
    if e.tapOk then Some(Point(Short(e.user.uuid), e.user.alias, e.id, taps)) else None
  }

  lemma CheckedStep(s: State, cap: nat, e: Event, id: nat)
    requires Inv(s) && Ready(s, e) && Checked(s, e, id)
    ensures var t := Step(s, cap, e).0;
            && id < |t.socks|
            && t.socks[id] == s.socks[id].(status := Auth, point := PointOf(e, |s.taps|))
  {
    hide Inv, Leases.InStore, AddPoint, ByUuid, Short;
    NoPointYet(s, id);
  }

  /** An authenticated socket changes only when it is closed. */
  lemma AuthStays(s: State, cap: nat, e: Event, id: nat)
    requires Inv(s) && Ready(s, e) && id < |s.socks| && s.socks[id].status == Auth && !Closes(s, e, id)
    ensures var t := Step(s, cap, e).0; id < |t.socks| && t.socks[id] == s.socks[id]
  {
    hide Leases.Agree, Leases.Request, Leases.DelLease, Leases.InStore, Indexes, AddPoint, DelPoint, ByUuid, Short;
    if e.Register? {
      assert Waiting(s, s.onQ[0]);
    }
  }

  /** From an accepted login to the next close a client is authenticated, with the point of that login. */
  lemma {:induction false} LoggedInIs(cap: nat, states: seq<State>, events: seq<Event>, effects: seq<Effect>,
                                      id: nat, j: nat, k: nat)
    requires Run(cap, states, events, effects) && j < k < |states| && LoggedIn(states, events, id, j, k)
    ensures id < |states[j].socks| && id < |states[k].socks|
    ensures states[k].socks[id] ==
            states[j].socks[id].(status := Auth, point := PointOf(events[j], |states[j].taps|))
  {
    hide Inv, Step, Allowed, Ready, Checked, Closes, PointOf;
    var s, e := states[k - 1], events[k - 1];
    RunInv(cap, states, events, effects, k - 1);
    assert Goes(cap, s, e, states[k], effects[k - 1]);
    CheckedIsLogin(states[j], events[j], id);
    if j == k - 1 {
      CheckedStep(s, cap, e, id);
    } else {
      LoggedInIs(cap, states, events, effects, id, j, k - 1);
      AuthStays(s, cap, e, id);
    }
  }

  lemma CheckedIsLogin(s: State, e: Event, id: nat)
    requires Checked(s, e, id)
    ensures e.Login? && e.id == id < |s.socks|
  {
  }

  /** A client that is logged in and has a point finds it in the index under its address, and one
      without a point finds none. */
  lemma OwnPoint(s: State, id: nat)
    requires Inv(s) && id < |s.socks| && s.socks[id].status == Auth
    ensures var a := s.socks[id].address;
            if s.socks[id].point.Some? then a in s.points.clients && s.points.clients[a] == s.socks[id].point.value
            else a !in s.points.clients
  {
    hide Leases.Agree;
    RegisteredOpen(s, id);
    var a := s.socks[id].address;
    if a in s.points.clients {
      OneSocket(s, a);
    }
  }

  // ---- Admission.

  /** In every run a connection is refused, and counted as closed, exactly when 128 are alive; otherwise it
      waits at the end of the queue.  The head of that queue is connected and registered under its
      address, which nobody had. */
  lemma Admitted(cap: nat, states: seq<State>, events: seq<Event>, effects: seq<Effect>, k: nat)
    requires Run(cap, states, events, effects) && k < |events|
    ensures var s, t := states[k], states[k + 1];
            match events[k]
            case Accept(addr) =>
              if s.alive == 128 then t == s.(accept := s.accept + 1, closed := s.closed + 1)
              else t == s.(accept := s.accept + 1, alive := s.alive + 1, onQ := s.onQ + [|s.socks|],
                           socks := s.socks + [Sock(addr, addr, Init, None)])
            case Register =>
              && s.onQ != [] && s.onQ[0] < |s.socks|
              && var c := s.socks[s.onQ[0]];
                 && c.address == c.remote && c.address !in s.registered
                 && t == s.(onQ := s.onQ[1..], registered := s.registered[c.address := s.onQ[0]],
                            socks := s.socks[s.onQ[0] := c.(status := Connected)])
            case _ => true
  {
    hide Sockets, Indexes, Leases.Agree, Leases.InStore, Allowed, DoClose, DoLogin, DoFrame;
    var s := states[k];
    RunInv(cap, states, events, effects, k);
    assert Goes(cap, s, events[k], states[k + 1], effects[k]);
    if events[k].Register? {
      HeadWaits(s);
    }
  }

  // ---- Frames.

  /** The book after a client asked for an address. */
  function Asked(b: Leases.Book, login: Event, addr: string, found: string): Leases.Book
    requires login.Login? && Leases.InStore(b)
  {
    if login.tapOk then Leases.Request(b, Short(login.user.uuid), login.user.alias, addr, found) else b
  }

  /** In every run a frame of a client that is not logged in is dropped and changes nothing.  Of a client
      that logged in at event `j`, an ethernet frame is written to the tap made by that login, if it was
      made and the frame is readable or not inspected; a request to leave puts the client on the offline
      queue; a request for an address makes the request of the uuid and alias of that login. */
  lemma FrameOutcome(cap: nat, states: seq<State>, events: seq<Event>, effects: seq<Effect>, k: nat)
    requires Run(cap, states, events, effects) && k < |events| && events[k].Frame?
    ensures (forall j: nat | j < k :: !LoggedIn(states, events, events[k].id, j, k)) ==>
              effects[k] == Dropped && states[k + 1] == states[k]
    ensures forall j: nat | j < k && LoggedIn(states, events, events[k].id, j, k) ::
              var s, t, id := states[k], states[k + 1], events[k].id;
              && events[j].Login? && id < |states[j].socks| && Leases.InStore(s.book)
              && match events[k].request
                 case Ethernet(data, inspect) =>
                   && t == s
                   && effects[k] == if events[j].tapOk && (inspect ==> Codecs.Readable(data))
                                    then Wrote(|states[j].taps|, data) else Passed
                 case Leave => effects[k] == Passed && t == s.(offQ := s.offQ + [id])
                 case IpAddr(_, found) =>
                   && effects[k] == Passed
                   && t == s.(book := Asked(s.book, events[j], states[j].socks[id].address, found))
                 case OtherControl => effects[k] == Passed && t == s
  {
    hide Inv, Leases.Request, Leases.InStore, Allowed, LoggedIn, Codecs.DecodeFrame, Codecs.Readable, Short;
    var s, id := states[k], events[k].id;
    assert Goes(cap, s, events[k], states[k + 1], effects[k]);
    RunInv(cap, states, events, effects, k);
    if s.socks[id].status == Auth {
      var i := AuthHasLogin(cap, states, events, effects, id, k);
      OwnPoint(s, id);
    }
    forall j: nat | j < k && LoggedIn(states, events, id, j, k)
      ensures events[j].Login? && id < |states[j].socks| && s.socks[id].status == Auth
      ensures s.socks[id] == states[j].socks[id].(status := Auth, point := PointOf(events[j], |states[j].taps|))
    {
      LoggedInIs(cap, states, events, effects, id, j, k);
      LoginOf(states, events, id, j, k);
    }
    if events[k].request.Ethernet? {
      Codecs.FrameParts(events[k].request.data);
    }
  }

  lemma LoginOf(states: seq<State>, events: seq<Event>, id: nat, j: nat, k: nat)
    requires |states| == |events| + 1 && j < k < |states| && LoggedIn(states, events, id, j, k)
    ensures events[j].Login? && events[j].id == id
  {
  }

  // ---- Logins.

  /** The client that stands for a uuid, if there is one. */
  function Holder(p: Points, uuid: string): seq<nat> {
    if uuid in p.uuidAddr && p.uuidAddr[uuid] in p.clients then [p.clients[p.uuidAddr[uuid]].client] else []
  }

  lemma HolderIs(s: State, uuid: string)
    requires Inv(s)
    ensures Holder(s.points, uuid) ==
            if ByUuid(s.points, uuid).Some? then [ByUuid(s.points, uuid).value.client] else []
  {
    hide Leases.Agree;
    if uuid in s.points.uuidAddr {
      assert s.points.uuidAddr[uuid] in s.registered;
    }
  }

  /** In every run a login of a client that is logged in passes and changes nothing; any other is
      dropped unless its credentials are accepted, and a refusal is noted.  An accepted one logs the
      client in; with a tap, the new tap is of the user's network, the point enters all three indexes
      under the client's address, and the user's last client and the uuid's previous holder are put on the
      offline queue. */
  lemma LoginOutcome(cap: nat, states: seq<State>, events: seq<Event>, effects: seq<Effect>, k: nat)
    requires Run(cap, states, events, effects) && k < |events| && events[k].Login?
    ensures events[k].id < |states[k].socks|
    ensures (exists j: nat | j < k :: LoggedIn(states, events, events[k].id, j, k)) ==>
              effects[k] == Passed && states[k + 1] == states[k]
    ensures (forall j: nat | j < k :: !LoggedIn(states, events, events[k].id, j, k)) ==>
              var s, t, e := states[k], states[k + 1], events[k];
              match e.verdict
              case BadJson => effects[k] == Dropped && t == s
              case Refused =>
                effects[k] == Dropped && t == s.(socks := s.socks[e.id := s.socks[e.id].(status := UnAuth)])
              case Accepted =>
                var last := if e.last.Some? then [e.last.value] else [];
                && effects[k] == Passed && LoggedIn(states, events, e.id, k, k + 1)
                && t == s.(socks := t.socks, taps := t.taps, points := t.points, offQ := t.offQ)
                && (!e.tapOk ==> t.taps == s.taps && t.points == s.points && t.offQ == s.offQ + last)
                && (e.tapOk ==>
                      var a, u := s.socks[e.id].remote, Short(e.user.uuid);
                      && t.taps == s.taps + [Tap(e.user.network, true)]
                      && t.points == Points(s.points.clients[a := Point(u, e.user.alias, e.id, |s.taps|)],
                                            s.points.uuidAddr[u := a], s.points.addrUuid[a := u])
                      && t.offQ == s.offQ + last + Holder(s.points, u))
  {
    hide Inv, Leases.InStore, AddPoint, ByUuid, Short, Holder;
    var s, e := states[k], events[k];
    assert Goes(cap, s, e, states[k + 1], effects[k]);
    RunInv(cap, states, events, effects, k);
    if s.socks[e.id].status == Auth {
      var i := AuthHasLogin(cap, states, events, effects, e.id, k);
    } else {
      forall j: nat | j < k ensures !LoggedIn(states, events, e.id, j, k) {
        if LoggedIn(states, events, e.id, j, k) {
          LoggedInIs(cap, states, events, effects, e.id, j, k);
        }
      }
      RoomForPoint(s, e.id);
      AddsToAll(s, cap, e.id, Point(Short(e.user.uuid), e.user.alias, e.id, |s.taps|));
      HolderIs(s, Short(e.user.uuid));
      assert s.offQ + [] == s.offQ;
    }
  }

  // ---- The offline queue.

  /** How many of the events from `i` up to `j` handle the head of the offline queue. */
  function Handled(events: seq<Event>, i: nat, j: nat): nat
    requires i <= j <= |events|
  {
    if i == j then 0 else Handled(events, i, j - 1) + (if events[j - 1].Close? then 1 else 0)
  }

  lemma QueueMoves(s: State, cap: nat, e: Event)
    requires Ready(s, e)
    ensures var t := Step(s, cap, e).0;
            && (e.Close? ==> t.offQ == s.offQ[1..]) && (!e.Close? ==> s.offQ <= t.offQ)
            && (e.Offline? ==> t == s.(offQ := s.offQ + [e.id]))
  {
    hide Leases.Request, Leases.DelLease, Leases.InStore, AddPoint, DelPoint, ByUuid, Short;
  }

  /** A client on the offline queue comes up by one place for each head that is handled. */
  lemma {:induction false} ComesUp(cap: nat, states: seq<State>, events: seq<Event>, effects: seq<Effect>,
                                   i: nat, j: nat, p: nat)
    requires Run(cap, states, events, effects) && i <= j < |states| && p < |states[i].offQ|
    requires Handled(events, i, j) <= p
    ensures var q := p - Handled(events, i, j); q < |states[j].offQ| && states[j].offQ[q] == states[i].offQ[p]
  {
    hide Step, Allowed, Ready;
    if i < j {
      ComesUp(cap, states, events, effects, i, j - 1, p);
      assert Goes(cap, states[j - 1], events[j - 1], states[j], effects[j - 1]);
      QueueMoves(states[j - 1], cap, events[j - 1]);
    }
  }

  /** In every run a client that is at place `p` of the offline queue is closed when the head has been
      handled `p` more times, unless it still waits to be registered or was closed before. */
  lemma OfflineHandled(cap: nat, states: seq<State>, events: seq<Event>, effects: seq<Effect>, i: nat, j: nat, p: nat)
    requires Run(cap, states, events, effects) && i <= j < |events| && p < |states[i].offQ|
    requires Handled(events, i, j) == p && events[j].Close?
    ensures var id := states[i].offQ[p];
            && id < |states[j].socks| && id < |states[j + 1].socks|
            && (Closes(states[j], events[j], id) <==> states[j].socks[id].status !in {Init, Closed})
            && states[j + 1].socks[id].status == (if states[j].socks[id].status == Init then Init else Closed)
  {
    hide Inv, Allowed, Leases.InStore, Registered, DoClose, DoLogin, DoFrame, DoAccept, DoRegister, Handled, CapOk;
    ComesUp(cap, states, events, effects, i, j, p);
    RunInv(cap, states, events, effects, j);
    assert Goes(cap, states[j], events[j], states[j + 1], effects[j]);
    Turn(states[j], states[i].offQ[p]);
  }

  lemma Turn(s: State, id: nat)
    requires Inv(s) && Leases.InStore(s.book) && s.offQ != [] && s.offQ[0] == id
    ensures id < |s.socks| && (Registered(s, id) <==> s.socks[id].status !in {Init, Closed})
    ensures id < |DoClose(s).socks|
    ensures DoClose(s).socks[id].status == if s.socks[id].status == Init then Init else Closed
  {
    hide Leases.Agree, Leases.InStore, Indexes;
    if Registered(s, id) {
      RegisteredOpen(s, id);
    }
  }

  // ---- Static leases.

  lemma StaticStep(s: State, cap: nat, e: Event, key: string, id: nat, ip: string)
    requires Ready(s, e) && Leases.Holds(s.book, key, id, ip, Leases.STATIC)
    ensures Leases.Holds(Step(s, cap, e).0.book, key, id, ip, Leases.STATIC)
  {
    hide Leases.Holds, Leases.DelLease, Leases.Request, Leases.InStore, AddPoint, DelPoint, ByUuid, Short;
    Leases.StaticKept(s.book, key, id, ip);
  }

  /** In every run a static lease that is there at the start is there with its address at any time. */
  lemma {:induction false} StaticStays(cap: nat, states: seq<State>, events: seq<Event>, effects: seq<Effect>,
                                       i: nat, key: string, id: nat, ip: string)
    requires Run(cap, states, events, effects) && i < |states|
    requires Leases.Holds(states[0].book, key, id, ip, Leases.STATIC)
    ensures Leases.Holds(states[i].book, key, id, ip, Leases.STATIC)
  {
    hide Inv, Step, Allowed, Ready, Leases.Holds;
    if i > 0 {
      StaticStays(cap, states, events, effects, i - 1, key, id, ip);
      assert Goes(cap, states[i - 1], events[i - 1], states[i], effects[i - 1]);
      StaticStep(states[i - 1], cap, events[i - 1], key, id, ip);
    }
  }
}
