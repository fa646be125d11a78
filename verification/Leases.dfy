/** Address leases, indexed by key and by address over two capped maps.  A lease is an object that
    both indexes share: it is modelled as a position in `store`, so a write through one index is
    seen through the other. */
module Leases {
  import opened Options
  import opened Bytes
  import opened Text
  import opened SafeMap

  const CAP: nat := 1024
  const STATIC: string := "static"

  datatype Lease = Lease(uuid: string, alias: string, address: string, kind: string, client: string)

  datatype Book = Book(store: seq<Lease>, uuid: map<string, nat>, addr: map<string, nat>)

  const NO_LEASES: Book := Book([], map[], map[])

  /** The address range of a network: the numbers of its first and last address, -1 when the
      text is not an address. */
  datatype Range = Range(start: int, end: int) {
    predicate Valid() { -1 <= start < U32 && -1 <= end < U32 }
  }

  // ---- What the operations do.

  /** `AddLease`: the new object goes into both indexes, each by set-if-absent. */
  function AddLease(b: Book, key: string, ip: string): Book {
    if ip == "" then b
    else Book(b.store + [Lease(key, key, ip, "", "")],
              Set(b.uuid, CAP, key, |b.store|), Set(b.addr, CAP, ip, |b.store|))
  }

  /** A host of the configuration: `AddLease`, then the object is marked static. */
  function AddStatic(b: Book, host: string, ip: string): Book {
    var c := AddLease(b, host, ip);
    if ip == "" then c else c.(store := c.store[|b.store| := c.store[|b.store|].(kind := STATIC)])
  }

  function DelLease(b: Book, key: string): Book
    requires InStore(b)
  {
    if key !in b.uuid then b
    else
      var l := b.store[b.uuid[key]];
      var c := if l.kind != STATIC then b.(uuid := b.uuid - {key}) else b;
      if l.address in c.addr && c.store[c.addr[l.address]].uuid == key
         && c.store[c.addr[l.address]].kind != STATIC
      then c.(addr := c.addr - {l.address})
      else c
  }

  /** What a request writes into the lease object it was given. */
  function Touch(b: Book, id: nat, l: Lease): Book
    requires id < |b.store|
  {
    b.(store := b.store[id := l])
  }

  predicate InStore(b: Book) {
    && (forall k :: k in b.uuid ==> b.uuid[k] < |b.store|)
    && (forall a :: a in b.addr ==> b.addr[a] < |b.store|)
  }

  // ---- The invariant.

  /** Each key's lease is indexed under its own address. */
  ghost predicate KeysIndexed(b: Book)
    requires InStore(b)
  {
    forall k :: k in b.uuid ==>
      b.store[b.uuid[k]].address in b.addr && b.addr[b.store[b.uuid[k]].address] == b.uuid[k]
  }

  /** Each address holds a lease with that address, and it is the lease of some key. */
  ghost predicate AddrsIndexed(b: Book)
    requires InStore(b)
  {
    forall a :: a in b.addr ==> b.store[b.addr[a]].address == a && HasKey(b, b.addr[a])
  }

  predicate HasKey(b: Book, id: nat) { id in b.uuid.Values }

  ghost predicate KeysDistinct(b: Book) {
    forall j, k :: j in b.uuid && k in b.uuid && b.uuid[j] == b.uuid[k] ==> j == k
  }

  /** A dynamic lease carries its key as uuid. */
  ghost predicate DynamicOwn(b: Book)
    requires InStore(b)
  {
    forall k :: k in b.uuid && b.store[b.uuid[k]].kind != STATIC ==> b.store[b.uuid[k]].uuid == k
  }

  /** The two indexes are inverse to each other on the same objects. */
  ghost predicate Inverse(b: Book) {
    InStore(b) && KeysIndexed(b) && AddrsIndexed(b) && KeysDistinct(b) && |b.uuid| == |b.addr|
  }

  /** What every run keeps: inverse indexes within the capacity, and each dynamic lease its own. */
  ghost predicate Agree(b: Book) {
    Inverse(b) && DynamicOwn(b) && |b.uuid| <= CAP && "" !in b.addr
  }

  lemma AgreeInStore(b: Book)
    requires Agree(b)
    ensures InStore(b)
  {
  }

  lemma NoLeasesAgree()
    ensures Agree(NO_LEASES)
  {
  }

  /** The two capped `Set` calls of `AddLease` take effect together or not at all. */
  lemma AddLeaseBothOrNone(b: Book, key: string, ip: string)
    requires Agree(b) && key !in b.uuid && ip !in b.addr
    ensures var c := AddLease(b, key, ip);
            if ip != "" && |b.uuid| < CAP
            then c.uuid == b.uuid[key := |b.store|] && c.addr == b.addr[ip := |b.store|]
            else c.uuid == b.uuid && c.addr == b.addr
    ensures Agree(AddLease(b, key, ip))
  {
    var c := AddLease(b, key, ip);
    if ip != "" && |b.uuid| < CAP {
      InsertKeeps(b, key, ip, c);
    } else if ip != "" {
      OnlyStoreKeeps(b, c);
    }
  }

  /** `c` is `b` with one more object, in both indexes. */
  ghost predicate Inserted(b: Book, key: string, ip: string, c: Book) {
    && |c.store| == |b.store| + 1 && c.store[|b.store|] == Lease(key, key, ip, "", "")
    && (forall i :: 0 <= i < |b.store| ==> c.store[i] == b.store[i])
    && key !in b.uuid && ip !in b.addr
    && c.uuid == b.uuid[key := |b.store|] && c.addr == b.addr[ip := |b.store|]
  }

  lemma InsertKeeps(b: Book, key: string, ip: string, c: Book)
    requires Agree(b) && |b.uuid| < CAP && ip != "" && Inserted(b, key, ip, c)
    ensures Agree(c)
  {
    InsertKeepsKeys(b, key, ip, c);
    InsertKeepsAddrs(b, key, ip, c);
    assert |c.uuid| == |b.uuid| + 1 && |c.addr| == |b.addr| + 1;
    hide KeysIndexed, AddrsIndexed, KeysDistinct, DynamicOwn, InStore, Inserted;
  }

  lemma InsertKeepsKeys(b: Book, key: string, ip: string, c: Book)
    requires InStore(b) && KeysIndexed(b) && KeysDistinct(b) && DynamicOwn(b) && Inserted(b, key, ip, c)
    ensures InStore(c) && KeysIndexed(c) && KeysDistinct(c) && DynamicOwn(c)
  {
  }

  lemma InsertKeepsAddrs(b: Book, key: string, ip: string, c: Book)
    requires InStore(b) && InStore(c) && AddrsIndexed(b) && Inserted(b, key, ip, c)
    ensures AddrsIndexed(c)
  {
    assert c.uuid[key] == |b.store|;
    forall a | a in c.addr ensures HasKey(c, c.addr[a]) {
      if a != ip {
        var k :| k in b.uuid && b.uuid[k] == b.addr[a];
        assert c.uuid[k] == c.addr[a];
      }
    }
  }

  /** The objects in the indexes are the same, up to what a request may write into them. */
  lemma OnlyStoreKeeps(b: Book, c: Book)
    requires Agree(b) && c == b.(store := c.store) && |b.store| <= |c.store|
    requires forall i :: 0 <= i < |b.store| ==> c.store[i].address == b.store[i].address
    requires DynamicOwn(c)
    ensures Agree(c)
  {
  }

  lemma AddStaticKeeps(b: Book, host: string, ip: string)
    requires Agree(b) && host !in b.uuid && ip !in b.addr
    ensures Agree(AddStatic(b, host, ip))
  {
    hide KeysIndexed, AddrsIndexed, KeysDistinct;
    AddLeaseBothOrNone(b, host, ip);
    if ip != "" {
      OnlyStoreKeeps(AddLease(b, host, ip), AddStatic(b, host, ip));
    }
  }

  /** Releasing a key removes a dynamic lease from both indexes and a static one from neither. */
  lemma DelLeaseKeeps(b: Book, key: string)
    requires Agree(b)
    ensures Agree(DelLease(b, key))
    ensures var c := DelLease(b, key);
            if key in b.uuid && b.store[b.uuid[key]].kind != STATIC
            then c == b.(uuid := b.uuid - {key}, addr := b.addr - {b.store[b.uuid[key]].address})
            else c == b
  {
    if key in b.uuid && b.store[b.uuid[key]].kind != STATIC {
      RemoveKeeps(b, key, b.store[b.uuid[key]].address);
    }
  }

  lemma RemoveKeeps(b: Book, key: string, ip: string)
    requires Agree(b) && key in b.uuid && ip == b.store[b.uuid[key]].address
    ensures Agree(b.(uuid := b.uuid - {key}, addr := b.addr - {ip}))
  {
    var c := b.(uuid := b.uuid - {key}, addr := b.addr - {ip});
    assert |c.uuid| == |b.uuid| - 1 by { assert c.uuid.Keys == b.uuid.Keys - {key}; }
    assert |c.addr| == |b.addr| - 1 by { assert c.addr.Keys == b.addr.Keys - {ip}; }
    assert AddrsIndexed(c) by {
      forall a | a in c.addr ensures HasKey(c, c.addr[a]) {
        var k :| k in b.uuid && b.uuid[k] == b.addr[a];
        assert k != key;
        assert c.uuid[k] == c.addr[a];
      }
    }
    assert KeysIndexed(c);
  }

  /** The lease of `key` may be rewritten by a request as far as its uuid stays its key, or it is
      static.  The indexes see the same objects as before. */
  lemma TouchKeeps(b: Book, key: string, l: Lease)
    requires Agree(b) && key in b.uuid
    requires var was := b.store[b.uuid[key]]; l.address == was.address && l.kind == was.kind
    ensures Agree(Touch(b, b.uuid[key], l)) <==> (l.kind == STATIC || l.uuid == key)
  {
    var c := Touch(b, b.uuid[key], l);
    if l.kind == STATIC || l.uuid == key {
      OnlyStoreKeeps(b, c);
    } else {
      assert c.store[c.uuid[key]].uuid != key;
    }
  }

  // ---- Requests.

  /** Which address a search of [start, end] finds: the first free one.  The 32-bit counter wraps
      after 255.255.255.255, so when that is the end of a range without a free address the search
      goes on from 0.0.0.0. */
  ghost predicate Finds(taken: set<string>, r: Range, ip: string)
    requires r.Valid()
  {
    if r.start < 0 || r.end < 0 || r.end < r.start then ip == ""
    else if exists n :: Free(taken, n) && r.start <= n <= r.end then FirstFrom(taken, r.start, ip)
    else if r.end == U32 - 1 then FirstFrom(taken, 0, ip)
    else ip == ""
  }

  predicate Free(taken: set<string>, n: int) { 0 <= n < U32 && Address(n) !in taken }

  ghost predicate FirstFrom(taken: set<string>, start: int, ip: string) {
    exists n :: start <= n && Free(taken, n) && ip == Address(n) && forall m :: start <= m < n ==> !Free(taken, m)
  }

  /** The text reads as an address of the range. */
  predicate InRange(r: Range, ip: string) {
    Read(ip).Some? && r.start <= Read(ip).value <= r.end
  }

  /** The counter of the search wraps: the range is not empty, ends at 255.255.255.255, and every
      address of it is taken. */
  ghost predicate Wraps(taken: set<string>, r: Range) {
    0 <= r.start <= r.end == U32 - 1 && forall s :: InRange(r, s) ==> s in taken
  }

  /** The address handed out reads as a number of the range if and only if the counter did not wrap. */
  lemma FoundInRange(taken: set<string>, r: Range, ip: string)
    requires r.Valid() && Finds(taken, r, ip)
    ensures ip == "" || InRange(r, ip) <==> !Wraps(taken, r)
  {
    hide Address, Read;
    WrapsFree(taken, r);
    if ip != "" {
      FoundReads(taken, r, ip);
    }
  }

  /** The address handed out is the lowest one that is not taken, of the range or, after a wrap, of
      all; there is none exactly if the range is empty or no address, or all of it is taken and the
      counter does not wrap. */
  lemma LowestFree(taken: set<string>, r: Range, ip: string)
    requires r.Valid() && Finds(taken, r, ip)
    ensures ip != "" ==> ip !in taken && Read(ip).Some?
    ensures ip != "" ==> forall s :: Read(s).Some? && s !in taken && (Wraps(taken, r) || r.start <= Read(s).value) ==>
                           Read(ip).value <= Read(s).value
    ensures ip == "" <==> r.start < 0 || r.end < r.start ||
                          (!Wraps(taken, r) && forall s :: InRange(r, s) ==> s in taken)
  {
    hide Address, Read;
    WrapsFree(taken, r);
    if ip != "" {
      FoundReads(taken, r, ip);
      forall s | Read(s).Some? && s !in taken && (Wraps(taken, r) || r.start <= Read(s).value)
        ensures Read(ip).value <= Read(s).value
      {
        Reads(s, Read(s).value);
        assert Free(taken, Read(s).value);
      }
    }
  }

  /** A number is free if and only if no taken text reads as it. */
  lemma FreeReads(taken: set<string>, n: nat)
    requires n < U32
    ensures Read(Address(n)) == Some(n) && (Free(taken, n) <==> Address(n) !in taken)
  {
    hide Address, Read;
    Reads(Address(n), n);
  }

  lemma WrapsFree(taken: set<string>, r: Range)
    requires r.Valid()
    ensures 0 <= r.start ==>
              ((forall s :: InRange(r, s) ==> s in taken) <==> forall n :: r.start <= n <= r.end ==> !Free(taken, n))
  {
    hide Address, Read;
    if forall s :: InRange(r, s) ==> s in taken {
      forall n: nat | r.start <= n <= r.end ensures !Free(taken, n) {
        FreeReads(taken, n);
        assert InRange(r, Address(n));
      }
    }
    if 0 <= r.start && forall n :: r.start <= n <= r.end ==> !Free(taken, n) {
      forall s | InRange(r, s) ensures s in taken {
        Reads(s, Read(s).value);
        assert !Free(taken, Read(s).value);
      }
    }
  }

  lemma FoundReads(taken: set<string>, r: Range, ip: string)
    requires r.Valid() && Finds(taken, r, ip) && ip != ""
    ensures 0 <= r.start <= r.end && ip !in taken && Read(ip).Some?
    ensures var from := if (exists n :: Free(taken, n) && r.start <= n <= r.end) then r.start else 0;
            from <= Read(ip).value && forall m: nat :: from <= m < Read(ip).value ==> !Free(taken, m)
    ensures (exists n :: Free(taken, n) && r.start <= n <= r.end) ==> Read(ip).value <= r.end
  {
    hide Address, Read;
    var from := if (exists n :: Free(taken, n) && r.start <= n <= r.end) then r.start else 0;
    var n: nat :| from <= n && Free(taken, n) && ip == Address(n) && forall m :: from <= m < n ==> !Free(taken, m);
    FreeReads(taken, n);
  }

  /** A request of a point without an address: the lease of its alias if there is one, else the
      lease of its uuid, else a new one.  `ip` is the address the search finds, if it is asked. */
  function Request(b: Book, uuid: string, alias: string, client: string, ip: string): Book
    requires InStore(b)
  {
    if alias in b.uuid then
      Touch(b, b.uuid[alias], b.store[b.uuid[alias]].(uuid := uuid, client := client))
    else if uuid == "" then b
    else if uuid in b.uuid then
      Touch(b, b.uuid[uuid], b.store[b.uuid[uuid]].(alias := alias, client := client))
    else
      var c := AddLease(b, uuid, ip);
      if uuid in c.uuid && c.uuid[uuid] < |c.store| then
        Touch(c, c.uuid[uuid], c.store[c.uuid[uuid]].(alias := alias, client := client))
      else c
  }

  /** The request needs a new address. */
  predicate Searches(b: Book, uuid: string, alias: string) {
    alias !in b.uuid && uuid != "" && uuid !in b.uuid
  }

  /** The alias of a point is not the key of another point's dynamic lease. */
  predicate AliasOk(b: Book, uuid: string, alias: string)
    requires InStore(b)
  {
    alias in b.uuid && b.store[b.uuid[alias]].kind != STATIC ==> alias == uuid
  }

  /** A request keeps what every run keeps exactly under that condition. */
  lemma RequestKeeps(b: Book, uuid: string, alias: string, client: string, ip: string)
    requires Agree(b) && (Searches(b, uuid, alias) ==> ip !in b.addr)
    ensures Agree(Request(b, uuid, alias, client, ip)) <==> AliasOk(b, uuid, alias)
  {
    if alias in b.uuid {
      TouchKeeps(b, alias, b.store[b.uuid[alias]].(uuid := uuid, client := client));
    } else if uuid != "" && uuid in b.uuid {
      TouchKeeps(b, uuid, b.store[b.uuid[uuid]].(alias := alias, client := client));
    } else if uuid != "" {
      AddLeaseBothOrNone(b, uuid, ip);
      var c := AddLease(b, uuid, ip);
      if uuid in c.uuid {
        TouchKeeps(c, uuid, c.store[c.uuid[uuid]].(alias := alias, client := client));
      }
    }
  }

  /** The lease a point is given: that of its alias if there is one, else its own, which is made if an
      address was found and the cache is not full.  It keeps its address, and every other key its
      lease. */
  lemma Answers(b: Book, uuid: string, alias: string, client: string, ip: string)
    requires Agree(b) && (Searches(b, uuid, alias) ==> ip !in b.addr) && uuid != ""
    ensures var key, c := if alias in b.uuid then alias else uuid, Request(b, uuid, alias, client, ip);
            && InStore(c)
            && (key in c.uuid <==> key in b.uuid || (ip != "" && |b.uuid| < CAP))
            && (key in c.uuid ==>
                  var l := c.store[c.uuid[key]];
                  && l.client == client && l.address == (if key in b.uuid then b.store[b.uuid[key]].address else ip)
                  && (if alias in b.uuid then l.uuid == uuid else l.alias == alias)
                  && (key !in b.uuid ==> l.uuid == uuid && l.kind == ""))
            && (forall k :: k != key ==> (k in c.uuid <==> k in b.uuid))
            && (forall k :: k != key && k in b.uuid ==>
                  c.uuid[k] == b.uuid[k] && c.store[c.uuid[k]] == b.store[b.uuid[k]])
  {
    hide AddrsIndexed, DynamicOwn;
    assert |b.uuid| == |b.addr|;
  }

  /** The indexes are still inverse after a request and the release of the key that is its alias, if
      and only if the alias was not the key of another point's dynamic lease.  Otherwise the point
      took over the lease object, so the release leaves its address behind. */
  lemma AliasDecides(b: Book, uuid: string, alias: string, client: string, ip: string)
    requires Agree(b) && (Searches(b, uuid, alias) ==> ip !in b.addr)
    ensures InStore(Request(b, uuid, alias, client, ip))
    ensures Inverse(DelLease(Request(b, uuid, alias, client, ip), alias)) <==> AliasOk(b, uuid, alias)
    ensures !AliasOk(b, uuid, alias) ==>
              Orphaned(DelLease(Request(b, uuid, alias, client, ip), alias), b.store[b.uuid[alias]].address)
  {
    RequestInStore(b, uuid, alias, client, ip);
    if AliasOk(b, uuid, alias) {
      RequestKeeps(b, uuid, alias, client, ip);
      DelLeaseKeeps(Request(b, uuid, alias, client, ip), alias);
    } else {
      AliasOrphans(b, uuid, alias, client, ip);
      NotInverse(DelLease(Request(b, uuid, alias, client, ip), alias), b.store[b.uuid[alias]].address);
    }
  }

  /** The address is taken, by a lease that no key leads to and whose address no key's lease has. */
  ghost predicate Orphaned(b: Book, ip: string) {
    && InStore(b) && ip in b.addr && b.store[b.addr[ip]].address == ip
    && forall k :: k in b.uuid ==> b.store[b.uuid[k]].address != ip
  }

  lemma NotInverse(b: Book, ip: string)
    requires Orphaned(b, ip)
    ensures !HasKey(b, b.addr[ip]) && !Inverse(b)
  {
    assert !HasKey(b, b.addr[ip]);
  }

  lemma RequestInStore(b: Book, uuid: string, alias: string, client: string, ip: string)
    requires InStore(b)
    ensures InStore(Request(b, uuid, alias, client, ip))
  {
  }

  lemma AliasOrphans(b: Book, uuid: string, alias: string, client: string, ip: string)
    requires Agree(b) && !AliasOk(b, uuid, alias)
    ensures InStore(Request(b, uuid, alias, client, ip))
    ensures Orphaned(DelLease(Request(b, uuid, alias, client, ip), alias), b.store[b.uuid[alias]].address)
  {
    var c := Request(b, uuid, alias, client, ip);
    var d := DelLease(c, alias);
    var held := b.store[b.uuid[alias]].address;
    assert c.uuid == b.uuid && c.addr == b.addr;
    assert forall i :: 0 <= i < |b.store| ==> c.store[i].address == b.store[i].address;
    assert d.addr == b.addr && d.uuid == b.uuid - {alias} && d.store == c.store;
    forall k | k in d.uuid ensures d.store[d.uuid[k]].address != held {
      assert b.addr[b.store[b.uuid[k]].address] == b.uuid[k] != b.uuid[alias];
    }
  }

  /** A full cache still leaves an address among any 1025, so the search ends even when its
      counter wraps. */
  lemma FreeBelow(taken: set<string>, k: nat)
    requires |taken| < k < U32
    ensures exists n :: n < k && Free(taken, n)
  {
    Texts(k);
    var texts := set n | 0 <= n < k :: Address(n);
    assert |texts| == |texts * taken| + |texts - taken| && |taken| == |texts * taken| + |taken - texts|;
    var t :| t in texts && t !in taken;
    var n :| 0 <= n < k && Address(n) == t;
    assert Free(taken, n);
  }

  lemma {:induction false} Texts(k: nat)
    requires k < U32
    ensures |set n | 0 <= n < k :: Address(n)| == k
  {
    hide Address;
    var now := set n | 0 <= n < k :: Address(n);
    if k == 0 {
      assert now == {};
    } else {
      Texts(k - 1);
      var before := set n | 0 <= n < k - 1 :: Address(n);
      assert now == before + {Address(k - 1)};
      forall n | 0 <= n < k - 1 ensures Address(n) != Address(k - 1) {
        if Address(n) == Address(k - 1) { AddressInjective(n, k - 1); }
      }
    }
  }

  // ---- Runs.

  datatype Event =
    | Host(name: string, ip: string)
    | Ask(uuid: string, alias: string, client: string, range: Range, found: string)
    | Release(key: string)

  ghost predicate Allowed(b: Book, e: Event) {
    match e
    case Host(name, ip) => name !in b.uuid && ip !in b.addr
    case Ask(uuid, alias, _, range, found) =>
      && InStore(b) && AliasOk(b, uuid, alias) && range.Valid()
      && (Searches(b, uuid, alias) ==> Finds(b.addr.Keys, range, found))
    case Release(_) => true
  }

  function Step(b: Book, e: Event): Book
    requires InStore(b)
  {
    match e
    case Host(name, ip) => AddStatic(b, name, ip)
    case Ask(uuid, alias, client, _, found) => Request(b, uuid, alias, client, found)
    case Release(key) => DelLease(b, key)
  }

  ghost predicate Run(books: seq<Book>, events: seq<Event>) {
    && |books| == |events| + 1 && books[0] == NO_LEASES
    && (forall i :: 0 <= i < |events| ==>
          InStore(books[i]) && Allowed(books[i], events[i]) && books[i + 1] == Step(books[i], events[i]))
  }

  /** In every run the indexes are inverse to each other on the same lease objects; so no address
      is ever held by two keys. */
  lemma {:induction false} RunAgrees(books: seq<Book>, events: seq<Event>, i: nat)
    requires Run(books, events) && i < |books|
    ensures Agree(books[i])
  {
    hide Agree;
    NoLeasesAgree();
    if i > 0 {
      RunAgrees(books, events, i - 1);
      StepKeeps(books[i - 1], events[i - 1]);
    }
  }

  lemma StepKeeps(b: Book, e: Event)
    requires Agree(b) && Allowed(b, e)
    ensures Agree(Step(b, e))
  {
    hide Agree;
    match e
    case Host(name, ip) => AddStaticKeeps(b, name, ip);
    case Ask(uuid, alias, client, range, found) =>
      if Searches(b, uuid, alias) {
        FoundIsFree(b, range, found);
      }
      RequestKeeps(b, uuid, alias, client, found);
    case Release(key) => DelLeaseKeeps(b, key);
  }

  lemma FoundIsFree(b: Book, r: Range, ip: string)
    requires Agree(b) && r.Valid() && Finds(b.addr.Keys, r, ip)
    ensures ip !in b.addr
  {
  }

  /** The key has this lease object, address and kind. */
  ghost predicate Holds(b: Book, key: string, id: nat, ip: string, kind: string) {
    && InStore(b) && key in b.uuid && b.uuid[key] == id && b.store[id].address == ip && b.store[id].kind == kind
    && ip in b.addr && b.addr[ip] == id
  }

  lemma StepKeepsLease(b: Book, e: Event, key: string, id: nat, ip: string, kind: string)
    requires Agree(b) && Allowed(b, e) && Holds(b, key, id, ip, kind)
    requires e == Release(key) ==> kind == STATIC
    ensures Holds(Step(b, e), key, id, ip, kind)
  {
    hide Holds, Agree, Finds, Searches, AliasOk, AddStatic, Request, DelLease;
    AgreeInStore(b);
    match e
    case Host(name, at) => AddKeepsLease(b, name, at, key, id, ip, kind);
    case Ask(uuid, alias, client, _, found) => RequestKeepsLease(b, uuid, alias, client, found, key, id, ip, kind);
    case Release(k) => DelKeepsLease(b, k, key, id, ip, kind);
  }

  lemma AddKeepsLease(b: Book, name: string, at: string, key: string, id: nat, ip: string, kind: string)
    requires Holds(b, key, id, ip, kind)
    ensures Holds(AddStatic(b, name, at), key, id, ip, kind)
  {
  }

  lemma RequestKeepsLease(b: Book, uuid: string, alias: string, client: string, found: string,
                          key: string, id: nat, ip: string, kind: string)
    requires Holds(b, key, id, ip, kind)
    ensures Holds(Request(b, uuid, alias, client, found), key, id, ip, kind)
  {
  }

  lemma DelKeepsLease(b: Book, k: string, key: string, id: nat, ip: string, kind: string)
    requires Agree(b) && Holds(b, key, id, ip, kind) && (k == key ==> kind == STATIC)
    ensures Holds(DelLease(b, k), key, id, ip, kind)
  {
    hide AddrsIndexed, DynamicOwn;
  }

  /** A static lease survives every request and every release. */
  lemma StaticKept(b: Book, key: string, id: nat, ip: string)
    requires Holds(b, key, id, ip, STATIC)
    ensures forall k :: Holds(DelLease(b, k), key, id, ip, STATIC)
    ensures forall uuid, alias, client, found ::
              Holds(Request(b, uuid, alias, client, found), key, id, ip, STATIC)
  {
    forall uuid, alias, client, found ensures Holds(Request(b, uuid, alias, client, found), key, id, ip, STATIC) {
      RequestKeepsLease(b, uuid, alias, client, found, key, id, ip, STATIC);
    }
  }

  /** In every run a key keeps its lease and its address until it is released, and one that is static
      for ever. */
  lemma {:induction false} LeaseStays(books: seq<Book>, events: seq<Event>, i: nat, j: nat, key: string,
                                      id: nat, ip: string, kind: string)
    requires Run(books, events) && i <= j < |books| && Holds(books[i], key, id, ip, kind)
    requires kind == STATIC || forall n :: i <= n < j ==> events[n] != Release(key)
    ensures Holds(books[j], key, id, ip, kind)
  {
    hide Step, Allowed, Agree, Holds;
    if i < j {
      LeaseStays(books, events, i, j - 1, key, id, ip, kind);
      RunAgrees(books, events, j - 1);
      StepKeepsLease(books[j - 1], events[j - 1], key, id, ip, kind);
    }
  }

  /** So a host of the configuration has its address in every later state, unless the cache was full. */
  lemma HostStays(books: seq<Book>, events: seq<Event>, i: nat, j: nat, name: string, ip: string)
    requires Run(books, events) && i < j < |books| && events[i] == Host(name, ip) && ip != ""
    ensures |books[i].uuid| < CAP ==> Holds(books[j], name, |books[i].store|, ip, STATIC)
    ensures books[i + 1].store == books[i].store + [Lease(name, name, ip, STATIC, "")]
    ensures |books[i].uuid| >= CAP ==> name !in books[i + 1].uuid && ip !in books[i + 1].addr
  {
    hide Agree, Finds, Request, DelLease;
    RunAgrees(books, events, i);
    HostHolds(books[i], name, ip);
    if |books[i].uuid| < CAP {
      LeaseStays(books, events, i + 1, j, name, |books[i].store|, ip, STATIC);
    }
  }

  lemma HostHolds(b: Book, name: string, ip: string)
    requires Agree(b) && name !in b.uuid && ip !in b.addr && ip != ""
    ensures |b.uuid| < CAP ==> Holds(AddStatic(b, name, ip), name, |b.store|, ip, STATIC)
    ensures |b.uuid| >= CAP ==> name !in AddStatic(b, name, ip).uuid && ip !in AddStatic(b, name, ip).addr
    ensures AddStatic(b, name, ip).store == b.store + [Lease(name, name, ip, STATIC, "")]
  {
    hide KeysIndexed, AddrsIndexed, DynamicOwn, KeysDistinct;
    assert |b.uuid| == |b.addr|;
  }

  lemma NoAddressHeldTwice(books: seq<Book>, events: seq<Event>, i: nat, j: string, k: string)
    requires Run(books, events) && i < |books| && InStore(books[i])
    requires j in books[i].uuid && k in books[i].uuid
    requires books[i].store[books[i].uuid[j]].address == books[i].store[books[i].uuid[k]].address
    ensures j == k
  {
    RunAgrees(books, events, i);
  }

  /** New leases get free addresses; whose alias a request names does not matter here. */
  ghost predicate Possible(b: Book, e: Event) {
    match e
    case Host(name, ip) => ip !in b.addr
    case Ask(uuid, alias, _, range, found) =>
      range.Valid() && (Searches(b, uuid, alias) ==> Finds(b.addr.Keys, range, found))
    case Release(_) => true
  }

  lemma StepKeepsOrphan(b: Book, e: Event, ip: string)
    requires Orphaned(b, ip) && Possible(b, e)
    ensures Orphaned(Step(b, e), ip)
  {
    hide Orphaned, AddStatic, Request, DelLease, Finds;
    OrphanInStore(b, ip);
    match e
    case Host(name, at) => AddKeepsOrphan(b, name, at, ip);
    case Ask(uuid, alias, client, range, found) =>
      if Searches(b, uuid, alias) {
        OrphanNotFound(b, range, found, ip);
      }
      RequestKeepsOrphan(b, uuid, alias, client, found, ip);
    case Release(key) => DelKeepsOrphan(b, key, ip);
  }

  lemma OrphanInStore(b: Book, ip: string)
    requires Orphaned(b, ip)
    ensures InStore(b) && ip in b.addr
  {
  }

  lemma RequestKeepsOrphan(b: Book, uuid: string, alias: string, client: string, found: string, ip: string)
    requires Orphaned(b, ip) && (Searches(b, uuid, alias) ==> found == "" || found != ip)
    ensures Orphaned(Request(b, uuid, alias, client, found), ip)
  {
    if Searches(b, uuid, alias) {
      AddKeepsOrphan(b, uuid, found, ip);
    }
  }

  lemma DelKeepsOrphan(b: Book, key: string, ip: string)
    requires Orphaned(b, ip)
    ensures Orphaned(DelLease(b, key), ip)
  {
  }

  lemma OrphanNotFound(b: Book, r: Range, found: string, ip: string)
    requires Orphaned(b, ip) && r.Valid() && Finds(b.addr.Keys, r, found)
    ensures found == "" || found != ip
  {
    hide Address;
  }

  lemma AddKeepsOrphan(b: Book, key: string, at: string, ip: string)
    requires Orphaned(b, ip) && (at == "" || at != ip)
    ensures Orphaned(AddLease(b, key, at), ip) && Orphaned(AddStatic(b, key, at), ip)
  {
  }

  /** An orphaned address stays taken for ever: in every further run it is indexed and no key leads to
      it. */
  lemma {:induction false} OrphanedForEver(books: seq<Book>, events: seq<Event>, ip: string, i: nat)
    requires |books| == |events| + 1 && Orphaned(books[0], ip) && i < |books|
    requires forall j :: 0 <= j < |events| ==>
               InStore(books[j]) && Possible(books[j], events[j]) && books[j + 1] == Step(books[j], events[j])
    ensures Orphaned(books[i], ip) && ip in books[i].addr && !HasKey(books[i], books[i].addr[ip])
  {
    if i > 0 {
      OrphanedForEver(books, events, ip, i - 1);
      hide Step, Possible;
      StepKeepsOrphan(books[i - 1], events[i - 1], ip);
    }
    NotInverse(books[i], ip);
  }

  /** The wrap in a run: the last address of all is taken by a host, a request for a range that ends
      there gets 0.0.0.0. */
  lemma WrapHandsOutZero(host: string, u: string, alias: string, client: string, zero: nat, last: nat)
    returns (books: seq<Book>, events: seq<Event>)
    requires host != u && host != alias && u != "" && zero == 0 && last == U32 - 1
    ensures |books| == 3 && Run(books, events)
    ensures events[1..] == [Ask(u, alias, client, Range(last, last), Address(zero))]
    ensures HasAddress(books[2], u, Address(zero)) && Read(Address(zero)) == Some(0)
  {
    hide Address, Read, Finds, Step, Request;
    ReadAddress(zero);
    var top, r := Address(last), Range(last, last);
    var e0, e1 := Host(host, top), Ask(u, alias, client, r, Address(zero));
    WrapFinds(zero, last);
    HostStep(host, top);
    var b1 := Step(NO_LEASES, e0);
    assert b1.addr.Keys == {top};
    WrapStep(b1, u, alias, client, Address(zero));
    StepIsRequest(b1, e1);
    books, events := [NO_LEASES, b1, Step(b1, e1)], [e0, e1];
  }

  predicate HasAddress(b: Book, key: string, ip: string) {
    key in b.uuid && b.uuid[key] < |b.store| && b.store[b.uuid[key]].address == ip
  }

  lemma StepIsRequest(b: Book, e: Event)
    requires InStore(b) && e.Ask?
    ensures Step(b, e) == Request(b, e.uuid, e.alias, e.client, e.found)
  {
  }

  lemma HostStep(host: string, ip: string)
    requires ip != ""
    ensures var b := Step(NO_LEASES, Host(host, ip));
            |b.store| == 1 && InStore(b) && b.uuid == map[host := 0] && b.addr == map[ip := 0]
  {
  }

  lemma WrapFinds(zero: nat, last: nat)
    requires zero == 0 && last == U32 - 1
    ensures Address(zero) != Address(last) && Finds({Address(last)}, Range(last, last), Address(zero))
  {
    hide Address;
    if Address(zero) == Address(last) { AddressInjective(zero, last); }
    assert Free({Address(last)}, zero);
  }

  lemma WrapStep(b: Book, u: string, alias: string, client: string, ip: string)
    requires |b.store| == 1 && InStore(b) && Searches(b, u, alias) && |b.uuid| == |b.addr| == 1
    requires ip != "" && ip !in b.addr
    ensures var c := Request(b, u, alias, client, ip);
            HasAddress(c, u, ip)
  {
  }
}
