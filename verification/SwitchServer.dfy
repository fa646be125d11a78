/** The handlers as the switch runs them, on fields updated in place: the accept loop and event
    queues of the server, the access hook and the point cache. */
module SwitchServer {
  import opened Options
  import opened SafeMap
  import opened Sessions
  import opened SessionRuns
  import opened SessionTheorems
  import Codecs
  import Leases

  class Switch {
    const cap: nat
    var socks: seq<Sock>
    var accept: nat
    var alive: int
    var closed: nat
    var onQ: seq<nat>
    var offQ: seq<nat>
    var registered: map<string, nat>
    var clients: map<string, Point>
    var uuidAddr: map<string, string>
    var addrUuid: map<string, string>
    var taps: seq<Tap>
    var book: Leases.Book

    function Now(): State
      reads this
    {
      State(socks, accept, alive, closed, onQ, offQ, registered, Points(clients, uuidAddr, addrUuid), taps, book)
    }

    ghost predicate Valid()
      reads this
    {
      CapOk(cap) && Inv(Now())
    }

    /** `book` holds the static hosts of the configuration. */
    constructor (cap: nat, book: Leases.Book)
      requires CapOk(cap) && Leases.Agree(book)
      ensures Valid() && this.cap == cap && Now() == START.(book := book) && Starts(Now())
    {
      hide Inv, CapOk;
      this.cap := cap;
      socks, accept, alive, closed, onQ, offQ, registered := [], 0, 0, 0, [], [], map[];
      clients, uuidAddr, addrUuid, taps, this.book := map[], map[], map[], [], book;
      new;
      assert Now() == START.(book := book);
      EmptyInv(Now());
    }

    /** The accept loop: count the connection, refuse it when the limit is reached, else queue it. */
    method PreAccept(addr: string) returns (ok: bool)
      requires Valid() && Allowed(Now(), Event.Accept(addr))
      modifies this
      ensures Valid() && Now() == Step(old(Now()), cap, Event.Accept(addr)).0
      ensures ok == (old(alive) < MAX_CLIENT)
    {
      hide Inv, Allowed, Ready;
      StepKeeps(Now(), cap, Event.Accept(addr));
      accept := accept + 1;
      if alive >= MAX_CLIENT {
        closed := closed + 1;
        return false;
      }
      alive := alive + 1;
      onQ := onQ + [|socks|];
      socks := socks + [Sock(addr, addr, Init, None)];
      ok := true;
    }

    /** The loop takes a new client from its queue. */
    method DoOnClient()
      requires Valid() && Allowed(Now(), Register)
      modifies this
      ensures Valid() && Ready(old(Now()), Register) && Now() == Step(old(Now()), cap, Register).0
    {
      hide Inv, Leases.InStore, CapOk, Set;
      StepKeeps(Now(), cap, Register);
      var id := onQ[0];
      onQ := onQ[1..];
      registered := Set(registered, CLIENTS_CAP, socks[id].remote, id);
      socks := socks[id := socks[id].(status := Connected)];
    }

    /** The loop takes a client that is to go offline; only a registered one counts. */
    method DoOffClient()
      requires Valid() && Allowed(Now(), Event.Close)
      modifies this
      ensures Valid() && Ready(old(Now()), Event.Close) && Now() == Step(old(Now()), cap, Event.Close).0
    {
      hide Inv, Leases.InStore, CapOk, Sessions.OnClose;
      StepKeeps(Now(), cap, Event.Close);
      var id := offQ[0];
      offQ := offQ[1..];
      if socks[id].remote in registered {
        CloseClient(id);
      }
    }

    method CloseClient(id: nat)
      requires id < |socks| && Leases.InStore(book)
      modifies this
      ensures var u := Sessions.OnClose(old(Now()).(closed := old(closed) + 1), id);
              Now() == u.(socks := u.socks[id := Sock(u.socks[id].address, "", Status.Closed, None)],
                          registered := u.registered - {old(socks)[id].remote}, alive := u.alive - 1)
    {
      hide Sessions.OnClose, Leases.InStore;
      var addr := socks[id].remote;
      closed := closed + 1;
      OnClose(id);
      socks := socks[id := Sock(socks[id].address, "", Status.Closed, None)];
      registered := registered - {addr};
      alive := alive - 1;
    }

    method OnClose(id: nat)
      requires id < |socks| && Leases.InStore(book)
      modifies this`book, this`taps, this`clients, this`uuidAddr, this`addrUuid
      ensures Now() == Sessions.OnClose(old(Now()), id)
    {
      var addr := socks[id].remote;
      var uuid := Get(addrUuid, addr, "");
      if Get(uuidAddr, uuid, "") == addr {
        book := Leases.DelLease(book, uuid);
      }
      DelPoint(addr);
    }

    method DelPoint(addr: string)
      modifies this`taps, this`clients, this`uuidAddr, this`addrUuid
      ensures var s := old(Now());
              var own := if addr in s.points.clients && s.points.clients[addr].client < |s.socks|
                         then s.socks[s.points.clients[addr].client].address else "";
              && Points(clients, uuidAddr, addrUuid) == Sessions.DelPoint(s.points, addr, own)
              && taps == if addr in s.points.clients && s.points.clients[addr].device < |s.taps|
                         then s.taps[s.points.clients[addr].device :=
                                       s.taps[s.points.clients[addr].device].(open := false)]
                         else s.taps
    {
      if addr in clients {
        var m := clients[addr];
        if m.device < |taps| {
          taps := taps[m.device := taps[m.device].(open := false)];
        }
        if Get(uuidAddr, m.uuid, "") == addr {
          uuidAddr := uuidAddr - {m.uuid};
        }
        addrUuid := addrUuid - {if m.client < |socks| then socks[m.client].address else ""};
        clients := clients - {addr};
      }
    }

    /** A login request reaches the access hook. */
    method HandleLogin(e: Event) returns (effect: Effect)
      requires Valid() && e.Login? && Allowed(Now(), e)
      modifies this
      ensures Valid() && Ready(old(Now()), e) && (Now(), effect) == Step(old(Now()), cap, e)
    {
      hide Inv, Leases.InStore, CapOk, Sessions.AddPoint, ByUuid;
      StepKeeps(Now(), cap, e);
      if socks[e.id].status == Auth {
        return Passed;
      }
      match e.verdict
      case BadJson =>
        effect := Dropped;
      case Refused =>
        socks := socks[e.id := socks[e.id].(status := UnAuth)];
        effect := Dropped;
      case Accepted =>
        if e.last.Some? {
          offQ := offQ + [e.last.value];
        }
        socks := socks[e.id := socks[e.id].(status := Auth)];
        OnAuth(e.id, e.user, e.tapOk);
        effect := Passed;
    }

    method OnAuth(id: nat, user: User, tapOk: bool)
      requires id < |socks| && socks[id].status == Auth
      modifies this`taps, this`offQ, this`socks, this`clients, this`uuidAddr, this`addrUuid
      ensures var s := old(Now());
              if !tapOk then Now() == s
              else
                var m := Point(Short(user.uuid), user.alias, id, |s.taps|);
                var older := ByUuid(s.points, m.uuid);
                Now() == s.(taps := s.taps + [Tap(user.network, true)],
                            offQ := if older.Some? then s.offQ + [older.value.client] else s.offQ,
                            socks := s.socks[id := s.socks[id].(point := Some(m))],
                            points := Sessions.AddPoint(s.points, cap, s.socks[id].address, m))
    {
      hide Sessions.AddPoint, Short;
      if !tapOk {
        return;
      }
      var m := Point(Short(user.uuid), user.alias, id, |taps|);
      taps := taps + [Tap(user.network, true)];
      var older := Get(uuidAddr, m.uuid, "");
      if older != "" && older in clients {
        offQ := offQ + [clients[older].client];
      }
      socks := socks[id := socks[id].(point := Some(m))];
      AddPoint(socks[id].address, m);
    }

    method AddPoint(addr: string, m: Point)
      modifies this`clients, this`uuidAddr, this`addrUuid
      ensures Points(clients, uuidAddr, addrUuid) == Sessions.AddPoint(old(Now()).points, cap, addr, m)
    {
      uuidAddr := Reset(uuidAddr, UUID_CAP, m.uuid, addr);
      addrUuid := Set(addrUuid, UUID_CAP, addr, m.uuid);
      clients := Set(clients, cap, addr, m);
    }

    /** A frame other than a login goes through the access hook and the request hook; an ethernet
        frame that gets that far is written to the client's own tap. */
    method ReadClient(id: nat, request: Request) returns (effect: Effect)
      requires Valid() && Allowed(Now(), Frame(id, request))
      modifies this
      ensures Valid() && Ready(old(Now()), Frame(id, request))
      ensures (Now(), effect) == Step(old(Now()), cap, Frame(id, request))
    {
      hide Inv, Leases.InStore, Leases.Request, Leases.Finds, Leases.Searches, CapOk;
      StepKeeps(Now(), cap, Frame(id, request));
      if socks[id].status != Auth {
        return Dropped;
      }
      effect := Passed;
      match request
      case Leave =>
        offQ := offQ + [id];
      case IpAddr(_, found) =>
        var addr := socks[id].address;
        if addr in clients {
          book := Leases.Request(book, clients[addr].uuid, clients[addr].alias, addr, found);
        }
      case Ethernet(data, inspect) =>
        if inspect && Codecs.DecodeFrame(data).None? {
          return;
        }
        if socks[id].point.Some? {
          effect := Wrote(socks[id].point.value.device, data);
        }
      case OtherControl =>
    }

    /** A client is to go offline. */
    method OffClient(id: nat)
      requires Valid() && Allowed(Now(), Offline(id))
      modifies this
      ensures Valid() && Now() == Step(old(Now()), cap, Offline(id)).0
    {
      hide Inv, Leases.InStore, CapOk;
      StepKeeps(Now(), cap, Offline(id));
      offQ := offQ + [id];
    }

    /** One event, handled by its method. */
    method Handle(e: Event) returns (effect: Effect)
      requires Valid() && Allowed(Now(), e)
      modifies this
      ensures Valid() && Goes(cap, old(Now()), e, Now(), effect)
    {
      hide Inv, Allowed, Leases.InStore, CapOk, DoAccept, DoRegister, DoClose, DoLogin, DoFrame;
      StepKeeps(Now(), cap, e);
      effect := Nothing;
      match e
      case Accept(addr) => var _ := PreAccept(addr);
      case Register => DoOnClient();
      case Offline(id) => OffClient(id);
      case Close => DoOffClient();
      case Login(_, _, _, _, _) => effect := HandleLogin(e);
      case Frame(id, request) => effect := ReadClient(id, request);
    }

    /** Any list of events, each allowed when its turn comes, takes a freshly started switch through a
        run; so what is proved of every run is proved of these methods. */
    method Serve(events: seq<Event>) returns (effects: seq<Effect>, ghost states: seq<State>)
      requires Valid() && Starts(Now()) && AllowedAll(Now(), cap, events)
      modifies this
      ensures Valid() && Run(cap, states, events, effects) && Now() == states[|events|]
    {
      hide Inv, Allowed, Ready, Step, CapOk, Goes, Leases.InStore, Starts;
      effects, states := [], [Now()];
      for i := 0 to |events|
        invariant Valid() && |states| == i + 1 && Now() == states[i]
        invariant Steps(cap, states, events[..i], effects)
        invariant AllowedAll(Now(), cap, events[i..])
      {
        ghost var was := Now();
        AllowedFirst(was, cap, events[i..]);
        assert events[i..][1..] == events[i + 1..];
        var effect := Handle(events[i]);
        GoesIsStep(cap, was, events[i], Now(), effect);
        SessionTheorems.Extend(cap, states, events[..i], effects, events[i], Now(), effect);
        assert events[..i + 1] == events[..i] + [events[i]];
        effects, states := effects + [effect], states + [Now()];
      }
      assert events[..|events|] == events;
    }
  }

  /** Each event is allowed in the state that those before it lead to. */
  ghost predicate AllowedAll(s: State, cap: nat, events: seq<Event>)
    decreases |events|
  {
    events == [] ||
    (Allowed(s, events[0]) && (Ready(s, events[0]) ==> AllowedAll(Step(s, cap, events[0]).0, cap, events[1..])))
  }

  lemma AllowedFirst(s: State, cap: nat, events: seq<Event>)
    requires AllowedAll(s, cap, events) && events != []
    ensures Allowed(s, events[0])
    ensures Ready(s, events[0]) ==> AllowedAll(Step(s, cap, events[0]).0, cap, events[1..])
  {
  }

  lemma GoesIsStep(cap: nat, s: State, e: Event, t: State, effect: Effect)
    requires Goes(cap, s, e, t, effect)
    ensures Ready(s, e) && Step(s, cap, e) == (t, effect)
  {
  }
}
