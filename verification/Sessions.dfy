/** The switch's view of its clients: admission, registration, login, takeover and close, with the
    point cache, taps and leases that hang on them.  Each handler is one atomic step. */
module Sessions {
  import opened Options
  import opened Bytes
  import opened SafeMap
  import Codecs
  import Leases

  const MAX_CLIENT: nat := 128
  const CLIENTS_CAP: nat := 1024
  const UUID_CAP: nat := 1024

  datatype Status = Init | Connected | UnAuth | Auth | Closed

  /** A logged-in client; `client` and `device` name its socket and its tap. */
  datatype Point = Point(uuid: string, alias: string, client: nat, device: nat)

  /** `remote` is emptied by Close, `address` never changes. */
  datatype Sock = Sock(address: string, remote: string, status: Status, point: Option<Point>)

  datatype Tap = Tap(network: string, open: bool)

  /** Credentials as they are checked: name and network filled in, alias in lower case. */
  datatype User = User(name: string, network: string, uuid: string, alias: string)

  datatype Points = Points(clients: map<string, Point>, uuidAddr: map<string, string>, addrUuid: map<string, string>)

  datatype State = State(
    socks: seq<Sock>, accept: nat, alive: int, closed: nat,
    onQ: seq<nat>, offQ: seq<nat>, registered: map<string, nat>,
    points: Points, taps: seq<Tap>, book: Leases.Book)

  const START: State :=
    State([], 0, 0, 0, [], [], map[], Points(map[], map[], map[]), [], Leases.NO_LEASES)

  datatype Verdict = BadJson | Refused | Accepted

  /** `inspect` says whether the switch is configured to look into ethernet frames. */
  datatype Request =
    | Ethernet(data: seq<byte>, inspect: bool)
    | Leave
    | IpAddr(range: Leases.Range, found: string)
    | OtherControl

  datatype Event =
    | Accept(addr: string)
    | Register
    | Offline(id: nat)
    | Close
    | Login(id: nat, user: User, verdict: Verdict, tapOk: bool, last: Option<nat>)
    | Frame(id: nat, request: Request)

  /** How far a frame got: dropped by the access hook, passed on to the later hooks, or passed on
      and written to a tap. */
  datatype Effect = Nothing | Dropped | Passed | Wrote(tap: nat, data: seq<byte>)

  // ---- The point cache.

  /** The switch shortens long uuids. */
  function Short(uuid: string): (r: string)
    ensures r <= uuid && |r| == if |uuid| > 13 then 13 else |uuid|
  {
    if |uuid| > 13 then uuid[..13] else uuid
  }

  function AddPoint(p: Points, cap: nat, addr: string, m: Point): Points {
    Points(Set(p.clients, cap, addr, m), Reset(p.uuidAddr, UUID_CAP, m.uuid, addr),
           Set(p.addrUuid, UUID_CAP, addr, m.uuid))
  }

  function DelPoint(p: Points, addr: string, own: string): Points {
    if addr !in p.clients then p
    else
      var m := p.clients[addr];
      Points(p.clients - {addr}, if Get(p.uuidAddr, m.uuid, "") == addr then p.uuidAddr - {m.uuid} else p.uuidAddr,
             p.addrUuid - {own})
  }

  /** The point that currently stands for a uuid. */
  function ByUuid(p: Points, uuid: string): Option<Point> {
    var addr := Get(p.uuidAddr, uuid, "");
    if addr != "" && addr in p.clients then Some(p.clients[addr]) else None
  }

  // ---- The handlers.

  function DoAccept(s: State, addr: string): State {
    if s.alive >= MAX_CLIENT then s.(accept := s.accept + 1, closed := s.closed + 1)
    else s.(accept := s.accept + 1, alive := s.alive + 1, onQ := s.onQ + [|s.socks|],
            socks := s.socks + [Sock(addr, addr, Init, None)])
  }

  function SetStatus(s: State, id: nat, v: Status): State
    requires id < |s.socks|
  {
    s.(socks := s.socks[id := s.socks[id].(status := v)])
  }

  function DoRegister(s: State): State
    requires s.onQ != [] && s.onQ[0] < |s.socks|
  {
    var id := s.onQ[0];
    SetStatus(s.(onQ := s.onQ[1..], registered := Set(s.registered, CLIENTS_CAP, s.socks[id].remote, id)),
              id, Connected)
  }

  /** The switch's own part of a close: the lease goes if this connection is the current one of its
      uuid, the point and its tap go in any case. */
  function OnClose(s: State, id: nat): State
    requires id < |s.socks| && Leases.InStore(s.book)
  {
    var addr := s.socks[id].remote;
    var uuid := Get(s.points.addrUuid, addr, "");
    var book := if Get(s.points.uuidAddr, uuid, "") == addr then Leases.DelLease(s.book, uuid) else s.book;
    var taps := if addr in s.points.clients && s.points.clients[addr].device < |s.taps|
                then s.taps[s.points.clients[addr].device := s.taps[s.points.clients[addr].device].(open := false)]
                else s.taps;
    var own := if addr in s.points.clients && s.points.clients[addr].client < |s.socks|
               then s.socks[s.points.clients[addr].client].address else "";
    s.(book := book, taps := taps, points := DelPoint(s.points, addr, own))
  }

  predicate Registered(s: State, id: nat) {
    id < |s.socks| && s.socks[id].remote in s.registered
  }

  function DoClose(s: State): State
    requires s.offQ != [] && s.offQ[0] < |s.socks| && Leases.InStore(s.book)
  {
    var id, t := s.offQ[0], s.(offQ := s.offQ[1..]);
    if !Registered(s, id) then t
    else
      var addr := s.socks[id].remote;
      var u := OnClose(t.(closed := t.closed + 1), id);
      u.(socks := u.socks[id := Sock(u.socks[id].address, "", Closed, None)],
         registered := u.registered - {addr}, alive := u.alive - 1)
  }

  /** A login that was accepted: the previous client of the user, and the previous point of the
      uuid, are told to go offline; the new point takes over. */
  function DoAuth(s: State, cap: nat, id: nat, user: User, tapOk: bool, last: Option<nat>): State
    requires id < |s.socks|
  {
    var t := SetStatus(s.(offQ := if last.Some? then s.offQ + [last.value] else s.offQ), id, Auth);
    if !tapOk then t
    else
      var m := Point(Short(user.uuid), user.alias, id, |s.taps|);
      var older := ByUuid(s.points, m.uuid);
      t.(taps := t.taps + [Tap(user.network, true)],
         offQ := if older.Some? then t.offQ + [older.value.client] else t.offQ,
         socks := t.socks[id := t.socks[id].(point := Some(m))],
         points := AddPoint(t.points, cap, t.socks[id].address, m))
  }

  function DoLogin(s: State, cap: nat, e: Event): (State, Effect)
    requires e.Login? && e.id < |s.socks|
  {
    if s.socks[e.id].status == Auth then (s, Passed)
    else match e.verdict
      case BadJson => (s, Dropped)
      case Refused => (SetStatus(s, e.id, UnAuth), Dropped)
      case Accepted => (DoAuth(s, cap, e.id, e.user, e.tapOk, e.last), Passed)
  }

  /** The inspecting hooks refuse a frame whose headers do not decode. */
  function DoFrame(s: State, id: nat, request: Request): (State, Effect)
    requires id < |s.socks| && Leases.InStore(s.book)
  {
    var c := s.socks[id];
    if c.status != Auth then (s, Dropped)
    else match request
      case Ethernet(data, inspect) =>
        (s, if c.point.Some? && (inspect ==> Codecs.DecodeFrame(data).Some?) then Wrote(c.point.value.device, data)
            else Passed)
      case Leave => (s.(offQ := s.offQ + [id]), Passed)
      case IpAddr(_, found) =>
        if c.address in s.points.clients then
          var p := s.points.clients[c.address];
          (s.(book := Leases.Request(s.book, p.uuid, p.alias, c.address, found)), Passed)
        else (s, Passed)
      case OtherControl => (s, Passed)
  }

  // ---- Steps.

  /** What is assumed of the environment: connections have non-empty addresses that differ from
      those of live ones, a login is handled only for a registered client, and a point's alias is
      not the key of another point's dynamic lease. */
  ghost predicate Allowed(s: State, e: Event) {
    match e
    case Accept(addr) => addr != "" && forall i :: 0 <= i < |s.socks| ==> s.socks[i].remote != addr
    case Register => s.onQ != []
    case Offline(id) => id < |s.socks|
    case Close => s.offQ != []
    case Login(id, _, _, _, last) => Registered(s, id) && (last.Some? ==> last.value < |s.socks|)
    case Frame(id, request) =>
      && id < |s.socks|
      && (request.IpAddr? && s.socks[id].address in s.points.clients ==>
            var p := s.points.clients[s.socks[id].address];
            && Leases.InStore(s.book) && Leases.AliasOk(s.book, p.uuid, p.alias) && request.range.Valid()
            && (Leases.Searches(s.book, p.uuid, p.alias) ==>
                  Leases.Finds(s.book.addr.Keys, request.range, request.found)))
  }

  predicate Ready(s: State, e: Event) {
    && Leases.InStore(s.book)
    && match e
       case Register => s.onQ != [] && s.onQ[0] < |s.socks|
       case Close => s.offQ != [] && s.offQ[0] < |s.socks|
       case Login(id, _, _, _, _) => id < |s.socks|
       case Frame(id, _) => id < |s.socks|
       case _ => true
  }

  function Step(s: State, cap: nat, e: Event): (State, Effect)
    requires Ready(s, e)
  {
    match e
    case Accept(addr) => (DoAccept(s, addr), Nothing)
    case Register => (DoRegister(s), Nothing)
    case Offline(id) => (s.(offQ := s.offQ + [id]), Nothing)
    case Close => (DoClose(s), Nothing)
    case Login(_, _, _, _, _) => DoLogin(s, cap, e)
    case Frame(id, request) => DoFrame(s, id, request)
  }
}
