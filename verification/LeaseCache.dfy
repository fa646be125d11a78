/** The lease cache as the switch runs it: maps updated in place and an address search. */
module LeaseCache {
  import opened Bytes
  import opened Text
  import opened SafeMap
  import opened Leases

  class Cache {
    var networks: map<string, Range>
    var store: seq<Lease>
    var uuid: map<string, nat>
    var addr: map<string, nat>

    function Now(): Book reads this { Book(store, uuid, addr) }

    ghost predicate Valid() reads this {
      Agree(Now()) && forall n :: n in networks ==> networks[n].Valid()
    }

    constructor (networks: map<string, Range>)
      requires forall n :: n in networks ==> networks[n].Valid()
      ensures Valid() && Now() == NO_LEASES && this.networks == networks
    {
      this.networks := networks;
      store, uuid, addr := [], map[], map[];
    }

    /** Searches the range for an address that nobody holds. */
    method AllocLease(r: Range) returns (ip: string)
      requires r.Valid() && Valid()
      ensures Finds(addr.Keys, r, ip)
    {
      hide KeysIndexed, AddrsIndexed, KeysDistinct, DynamicOwn, Address;
      if r.start < 0 || r.end < 0 {
        return "";
      }
      var i := r.start;
      ghost var wrapped := false;
      while i <= r.end
        invariant wrapped ==> r.end == U32 - 1 && 0 <= i < U32
        invariant !wrapped ==> r.start <= i && (i <= r.end + 1 || r.end < r.start) && i < U32
        invariant forall n :: r.start <= n < (if wrapped then U32 else i) ==> !Free(addr.Keys, n)
        invariant wrapped ==> forall n :: 0 <= n < i ==> !Free(addr.Keys, n)
        decreases !wrapped, U32 - i
      {
        var text := Address(i);
        if text !in addr {
          assert Free(addr.Keys, i);
          return text;
        }
        if i == U32 - 1 {
          if wrapped {
            FreeBelow(addr.Keys, CAP + 1);
          }
          wrapped := true;
        }
        i := (i + 1) % U32;
      }
      return "";
    }

    method AddLease(key: string, ip: string) returns (id: int)
      modifies this`store, this`uuid, this`addr
      ensures Now() == Leases.AddLease(old(Now()), key, ip)
      ensures id == if ip == "" then -1 else |old(store)|
    {
      if ip == "" {
        return -1;
      }
      id := |store|;
      store := store + [Lease(key, key, ip, "", "")];
      uuid := Set(uuid, CAP, key, id);
      addr := Set(addr, CAP, ip, id);
    }

    /** A host of a network's configuration. */
    method AddHost(host: string, ip: string)
      requires Valid() && host !in uuid && ip !in addr
      modifies this`store, this`uuid, this`addr
      ensures Valid() && Now() == AddStatic(old(Now()), host, ip)
    {
      hide KeysIndexed, AddrsIndexed, KeysDistinct, DynamicOwn;
      AddStaticKeeps(Now(), host, ip);
      var id := AddLease(host, ip);
      if id >= 0 {
        store := store[id := store[id].(kind := STATIC)];
      }
    }

    method DelLease(key: string)
      requires Valid()
      modifies this`uuid, this`addr
      ensures Valid() && Now() == Leases.DelLease(old(Now()), key)
    {
      hide KeysIndexed, AddrsIndexed, KeysDistinct, DynamicOwn;
      ghost var was := Now();
      DelLeaseKeeps(was, key);
      var ip := "";
      if key in uuid {
        var l := store[uuid[key]];
        ip := l.address;
        if l.kind != STATIC {
          uuid := uuid - {key};
        }
      }
      if ip in addr && store[addr[ip]].uuid == key && store[addr[ip]].kind != STATIC {
        addr := addr - {ip};
      }
    }

    /** The lease for a point that asks for an address: -1 when there is none. */
    method GetLease(point: string, alias: string, client: string, network: string)
      returns (id: int, ghost found: string)
      requires Valid() && network in networks
      modifies this`store, this`uuid, this`addr
      ensures Agree(Now()) <==> AliasOk(old(Now()), point, alias)
      ensures Searches(old(Now()), point, alias) ==> Finds(old(addr.Keys), networks[network], found)
      ensures Now() == Request(old(Now()), point, alias, client, found)
      ensures var key := if alias in old(uuid) then alias else point;
              id == if key in uuid && (alias in old(uuid) || point != "") then uuid[key] else -1
      ensures id >= 0 ==> id < |store| && HasKey(Now(), id) && store[id].client == client
      ensures id < 0 ==> alias !in uuid && (point == "" || point !in uuid)
    {
      hide KeysIndexed, AddrsIndexed, KeysDistinct, DynamicOwn;
      ghost var was := Now();
      found := "";
      id := if alias in uuid then uuid[alias] else -1;
      if id < 0 {
        if point != "" && point in uuid {
          id := uuid[point];
        } else if point != "" {
          var ip := AllocLease(networks[network]);
          found := ip;
          var _ := AddLease(point, ip);
          id := if point in uuid then uuid[point] else -1;
        }
        if id >= 0 {
          store := store[id := store[id].(alias := alias)];
        }
      } else {
        store := store[id := store[id].(uuid := point)];
      }
      if id >= 0 {
        store := store[id := store[id].(client := client)];
      }
      assert store == Request(was, point, alias, client, found).store;
      if Searches(was, point, alias) {
        FoundIsFree(was, networks[network], found);
      }
      RequestKeeps(was, point, alias, client, found);
    }
  }
}
