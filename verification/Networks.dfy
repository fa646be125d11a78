/** Equality of networks up to the order of their routes. */
module Networks {
  datatype Route = Route(prefix: string, nextHop: string)

  function Print(r: Route): string { r.prefix + ", " + r.nextHop }

  /** One prefix runs on over the separator where the other's next hop begins. */
  ghost predicate RunsOn(a: Route, b: Route) {
    exists x: string :: b.prefix == a.prefix + ", " + x && a.nextHop == x + ", " + b.nextHop
  }

  /** Two routes print alike if and only if they are the same, or one prefix runs on; so routes whose
      prefixes have no comma print alike only if they are the same. */
  lemma PrintAlike(a: Route, b: Route)
    ensures Print(a) == Print(b) <==> a == b || RunsOn(a, b) || RunsOn(b, a)
    ensures ',' !in a.prefix && ',' !in b.prefix ==> (Print(a) == Print(b) <==> a == b)
  {
    if Print(a) == Print(b) {
      if |a.prefix| <= |b.prefix| { LongerRunsOn(a, b); } else { LongerRunsOn(b, a); }
    }
    RunsOnPrints(a, b);
    RunsOnPrints(b, a);
  }

  lemma LongerRunsOn(a: Route, b: Route)
    requires Print(a) == Print(b) && |a.prefix| <= |b.prefix|
    ensures a == b || RunsOn(a, b)
  {
    var s, n, m := Print(a), |a.prefix|, |b.prefix|;
    assert s[..n] == a.prefix && s[..m] == b.prefix && s[n + 2..] == a.nextHop && s[m + 2..] == b.nextHop;
    assert s[n] == ',' && s[n + 1] == ' ' && s[m] == ',' && s[m + 1] == ' ';
    if m >= n + 2 {
      var x := s[n + 2..m];
      assert b.prefix == a.prefix + ", " + x;
      assert a.nextHop == x + ", " + b.nextHop;
    }
  }

  lemma RunsOnPrints(a: Route, b: Route)
    ensures RunsOn(a, b) ==> Print(a) == Print(b) && ',' in b.prefix
  {
    if RunsOn(a, b) {
      var x: string :| b.prefix == a.prefix + ", " + x && a.nextHop == x + ", " + b.nextHop;
      assert b.prefix[|a.prefix|] == ',';
      assert Print(a) == a.prefix + ", " + x + ", " + b.nextHop;
    }
  }

  // ---- Sorting strings.

  predicate Leq(a: string, b: string) {
    a == "" || (b != "" && (a[0] < b[0] || (a[0] == b[0] && Leq(a[1..], b[1..]))))
  }

  lemma {:induction false} LeqTotal(a: string, b: string)
    ensures Leq(a, b) || Leq(b, a)
    ensures Leq(a, b) && Leq(b, a) ==> a == b
  {
    if a != "" && b != "" && a[0] == b[0] {
      LeqTotal(a[1..], b[1..]);
      assert a == [a[0]] + a[1..] && b == [b[0]] + b[1..];
    }
  }

  lemma {:induction false} LeqTrans(a: string, b: string, c: string)
    requires Leq(a, b) && Leq(b, c)
    ensures Leq(a, c)
  {
    if a != "" && a[0] == b[0] == c[0] {
      LeqTrans(a[1..], b[1..], c[1..]);
    }
  }

  ghost predicate Sorted(s: seq<string>) {
    forall i, j :: 0 <= i < j < |s| ==> Leq(s[i], s[j])
  }

  function Insert(x: string, s: seq<string>): seq<string> {
    if s == [] || Leq(x, s[0]) then [x] + s else [s[0]] + Insert(x, s[1..])
  }

  /** Stands for the library's sort: a sorted permutation. */
  function Sort(s: seq<string>): seq<string> {
    if s == [] then [] else Insert(s[0], Sort(s[1..]))
  }

  lemma {:induction false} InsertSorts(x: string, s: seq<string>)
    requires Sorted(s)
    ensures Sorted(Insert(x, s)) && multiset(Insert(x, s)) == multiset(s) + multiset{x}
  {
    hide Leq;
    var r := Insert(x, s);
    if s == [] {
    } else if Leq(x, s[0]) {
      forall j | 1 <= j < |r| ensures Leq(x, r[j]) {
        if j > 1 { LeqTrans(x, s[0], s[j - 1]); }
      }
    } else {
      InsertSorts(x, s[1..]);
      LeqTotal(x, s[0]);
      assert s == [s[0]] + s[1..];
      var t := Insert(x, s[1..]);
      forall j | 0 <= j < |t| ensures Leq(s[0], t[j]) {
        assert t[j] in multiset(t);
      }
    }
  }

  lemma {:induction false} SortSorts(s: seq<string>)
    ensures Sorted(Sort(s)) && multiset(Sort(s)) == multiset(s)
  {
    if s != [] {
      SortSorts(s[1..]);
      InsertSorts(s[0], Sort(s[1..]));
      assert s == [s[0]] + s[1..];
    }
  }

  lemma HeadsEqual(a: seq<string>, b: seq<string>)
    requires Sorted(a) && Sorted(b) && a != [] && b != [] && a[0] in b && b[0] in a
    ensures a[0] == b[0]
  {
    hide Leq;
    var i :| 0 <= i < |b| && b[i] == a[0];
    var j :| 0 <= j < |a| && a[j] == b[0];
    LeqTotal(a[0], b[0]);
  }

  /** There is only one way to sort. */
  lemma {:induction false} SortedUnique(a: seq<string>, b: seq<string>)
    requires Sorted(a) && Sorted(b) && multiset(a) == multiset(b)
    ensures a == b
  {
    hide Leq;
    assert |multiset(a)| == |a| && |multiset(b)| == |b|;
    if a != [] {
      assert a[0] in multiset(b) && b[0] in multiset(a);
      HeadsEqual(a, b);
      TailsEqual(a, b);
      SortedUnique(a[1..], b[1..]);
      assert a == [a[0]] + a[1..] && b == [b[0]] + b[1..];
    }
  }

  lemma TailsEqual(a: seq<string>, b: seq<string>)
    requires a != [] && b != [] && a[0] == b[0] && multiset(a) == multiset(b)
    ensures multiset(a[1..]) == multiset(b[1..])
  {
    assert a == [a[0]] + a[1..] && b == [b[0]] + b[1..];
    assert multiset(a[1..]) == multiset(a) - multiset{a[0]};
    assert multiset(b[1..]) == multiset(b) - multiset{b[0]};
  }

  // ---- Networks.

  class Network {
    const ifAddr: string
    const netmask: string
    const routes: seq<Route>

    constructor (ifAddr: string, netmask: string, routes: seq<Route>)
      ensures this.ifAddr == ifAddr && this.netmask == netmask && this.routes == routes
    {
      this.ifAddr, this.netmask, this.routes := ifAddr, netmask, routes;
    }
  }

  function Printed(routes: seq<Route>): seq<string> {
    seq(|routes|, i requires 0 <= i < |routes| => Print(routes[i]))
  }

  /** The same object, or the same address, netmask and printed routes in any order. */
  ghost predicate Same(o: Network?, n: Network?) {
    o == n || (o != null && n != null && o.ifAddr == n.ifAddr && o.netmask == n.netmask &&
               multiset(Printed(o.routes)) == multiset(Printed(n.routes)))
  }

  ghost predicate NoCommas(routes: seq<Route>) {
    forall i :: 0 <= i < |routes| ==> ',' !in routes[i].prefix
  }

  /** With prefixes that have no comma, the printed routes are the same in some order if and only if the
      routes are. */
  lemma {:induction false} SameRoutes(a: seq<Route>, b: seq<Route>)
    requires NoCommas(a) && NoCommas(b)
    ensures multiset(Printed(a)) == multiset(Printed(b)) <==> multiset(a) == multiset(b)
  {
    hide Print, Printed;
    if a == [] {
      PrintedSize(b);
      PrintedSize(a);
    } else if a[0] in b {
      var i :| 0 <= i < |b| && b[i] == a[0];
      SameRoutes(a[1..], b[..i] + b[i + 1..]);
      SameWithout(a, b, i);
    } else {
      assert a[0] in multiset(a) && a[0] !in multiset(b);
      NotPrinted(a[0], b);
      PrintedSize(a);
      assert Print(a[0]) in multiset(Printed(a)) && Print(a[0]) !in multiset(Printed(b));
    }
  }

  /** A route that both have may be left out. */
  lemma SameWithout(a: seq<Route>, b: seq<Route>, i: nat)
    requires a != [] && i < |b| && a[0] == b[i]
    ensures var rest := b[..i] + b[i + 1..];
            && (multiset(a) == multiset(b) <==> multiset(a[1..]) == multiset(rest))
            && (multiset(Printed(a)) == multiset(Printed(b)) <==> multiset(Printed(a[1..])) == multiset(Printed(rest)))
  {
    hide Print, Printed;
    var rest := b[..i] + b[i + 1..];
    TakeOut(a, 0);
    TakeOut(b, i);
    assert a[..0] + a[1..] == a[1..];
    Cancel(multiset(a[1..]), multiset(rest), a[0]);
    Cancel(multiset(Printed(a[1..])), multiset(Printed(rest)), Print(a[0]));
  }

  lemma Cancel<T>(x: multiset<T>, y: multiset<T>, e: T)
    ensures x + multiset{e} == y + multiset{e} <==> x == y
  {
    assert (x + multiset{e}) - multiset{e} == x && (y + multiset{e}) - multiset{e} == y;
  }

  lemma PrintedSize(a: seq<Route>)
    ensures |Printed(a)| == |a| && (a != [] ==> Printed(a)[0] == Print(a[0]))
    ensures |multiset(Printed(a))| == |a| && |multiset(a)| == |a|
  {
  }

  lemma NotPrinted(r: Route, b: seq<Route>)
    requires ',' !in r.prefix && NoCommas(b) && r !in b
    ensures Print(r) !in Printed(b)
  {
    hide Print;
    forall i | 0 <= i < |b| ensures Print(b[i]) != Print(r) { PrintAlike(b[i], r); }
  }

  lemma TakeOut(s: seq<Route>, i: nat)
    requires i < |s|
    ensures multiset(s) == multiset(s[..i] + s[i + 1..]) + multiset{s[i]}
    ensures multiset(Printed(s)) == multiset(Printed(s[..i] + s[i + 1..])) + multiset{Print(s[i])}
  {
    hide Print;
    var rest := s[..i] + s[i + 1..];
    assert s == s[..i] + [s[i]] + s[i + 1..];
    var p := Printed(s);
    assert p == p[..i] + [p[i]] + p[i + 1..];
    assert Printed(rest) == p[..i] + p[i + 1..];
  }

  method PrintAll(routes: seq<Route>) returns (r: seq<string>)
    ensures r == Printed(routes)
  {
    r := [];
    for i := 0 to |routes|
      invariant r == Printed(routes[..i])
    {
      r := r + [Print(routes[i])];
      assert routes[..i + 1] == routes[..i] + [routes[i]];
    }
    assert routes[..|routes|] == routes;
  }

  method NetworkEqual(o: Network?, n: Network?) returns (r: bool)
    ensures r <==> Same(o, n)
  {
    if o == n {
      return true;
    } else if o == null || n == null {
      return false;
    } else if o.ifAddr != n.ifAddr || o.netmask != n.netmask {
      return false;
    }
    var ors := PrintAll(o.routes);
    var nrs := PrintAll(n.routes);
    assert |multiset(ors)| == |ors| && |multiset(nrs)| == |nrs|;
    if |ors| != |nrs| {
      return false;
    }
    SortDecides(ors, nrs);
    r := EqualStrings(Sort(ors), Sort(nrs));
  }

  /** Sorting makes order irrelevant. */
  lemma SortDecides(a: seq<string>, b: seq<string>)
    ensures Sort(a) == Sort(b) <==> multiset(a) == multiset(b)
    ensures |Sort(a)| == |a| && |Sort(b)| == |b|
  {
    hide Sort, Leq;
    SortSorts(a);
    SortSorts(b);
    if multiset(a) == multiset(b) {
      SortedUnique(Sort(a), Sort(b));
    }
    assert |multiset(Sort(a))| == |Sort(a)| && |multiset(a)| == |a|;
    assert |multiset(Sort(b))| == |Sort(b)| && |multiset(b)| == |b|;
  }

  method EqualStrings(a: seq<string>, b: seq<string>) returns (r: bool)
    requires |a| == |b|
    ensures r <==> a == b
  {
    for i := 0 to |a|
      invariant forall j :: 0 <= j < i ==> a[j] == b[j]
    {
      if a[i] != b[i] {
        return false;
      }
    }
    return true;
  }

  /** So it is an equivalence relation. */
  lemma SameIsEquivalence(a: Network?, b: Network?, c: Network?)
    ensures Same(a, a)
    ensures Same(a, b) <==> Same(b, a)
    ensures Same(a, b) && Same(b, c) ==> Same(a, c)
  {
  }
}
