/** Decimal numbers and dotted quads as text, and a reader that takes them apart again. */
module Text {
  import opened Options
  import opened Bytes

  function Digit(d: nat): char
    requires d < 10
  {
    '0' + d as char
  }

  function Decimal(n: nat): (s: string)
    ensures s != [] && forall i :: 0 <= i < |s| ==> '0' <= s[i] <= '9'
  {
    if n < 10 then [Digit(n)] else Decimal(n / 10) + [Digit(n % 10)]
  }

  // ---- Reading.

  predicate AllDigits(s: string) { forall i :: 0 <= i < |s| ==> '0' <= s[i] <= '9' }

  /** The value of a text of digits: each counts ten times the next. */
  function Value(s: string): nat
    requires AllDigits(s)
  {
    if s == [] then 0 else 10 * Value(s[..|s| - 1]) + (s[|s| - 1] as int - '0' as int)
  }

  /** A decimal number as it is written: digits without leading zeros. */
  predicate Written(s: string) { s != [] && AllDigits(s) && (s[0] == '0' ==> |s| == 1) }

  lemma {:induction false} ValueOfDecimal(n: nat)
    ensures Written(Decimal(n)) && Value(Decimal(n)) == n && (n > 0 ==> Decimal(n)[0] != '0')
  {
    var s := Decimal(n);
    if n >= 10 {
      ValueOfDecimal(n / 10);
      assert s[..|s| - 1] == Decimal(n / 10);
    } else {
      assert s[..0] == [];
    }
  }

  lemma {:induction false} DecimalOfValue(s: string)
    requires Written(s)
    ensures Decimal(Value(s)) == s && (s[0] != '0' ==> Value(s) > 0)
  {
    var n := |s| - 1;
    assert s == s[..n] + [s[n]];
    if n > 0 {
      DecimalOfValue(s[..n]);
    } else {
      assert s[..n] == [];
    }
  }

  lemma DecimalInjective(a: nat, b: nat)
    requires Decimal(a) == Decimal(b)
    ensures a == b
  {
    ValueOfDecimal(a);
    ValueOfDecimal(b);
  }

  /** The text before and after the first separator. */
  function Cut(s: string, sep: char): Option<(string, string)> {
    if s == [] then None
    else if s[0] == sep then Some(([], s[1..]))
    else
      var r := Cut(s[1..], sep);
      if r.None? then None else Some(([s[0]] + r.value.0, r.value.1))
  }

  lemma {:induction false} CutJoined(a: string, sep: char, x: string)
    requires sep !in a
    ensures Cut(a + [sep] + x, sep) == Some((a, x))
  {
    var s := a + [sep] + x;
    if a == [] {
      assert s[1..] == x;
    } else {
      assert a == [a[0]] + a[1..] && s[1..] == a[1..] + [sep] + x;
      CutJoined(a[1..], sep, x);
    }
  }

  lemma {:induction false} JoinCut(s: string, sep: char)
    requires Cut(s, sep).Some?
    ensures Cut(s, sep).value.0 + [sep] + Cut(s, sep).value.1 == s
  {
    if s[0] != sep {
      JoinCut(s[1..], sep);
      assert s == [s[0]] + s[1..];
    }
  }

  predicate Octet(s: string) { Written(s) && Value(s) < 256 }

  /** The number that a dotted quad stands for. */
  function Read(s: string): Option<nat> {
    var p := Cut(s, '.');
    if p.None? then None
    else
      var q := Cut(p.value.1, '.');
      if q.None? then None
      else
        var r := Cut(q.value.1, '.');
        if r.None? then None
        else ReadParts(p.value.0, q.value.0, r.value.0, r.value.1)
  }

  function ReadParts(a: string, b: string, c: string, d: string): Option<nat> {
    if Octet(a) && Octet(b) && Octet(c) && Octet(d)
    then Some(((Value(a) * 256 + Value(b)) * 256 + Value(c)) * 256 + Value(d))
    else None
  }

  /** Text before the first separator is determined by the whole. */
  lemma SplitUnique(sep: char, a: string, x: string, b: string, y: string)
    requires sep !in a && sep !in b && a + [sep] + x == b + [sep] + y
    ensures a == b && x == y
  {
    NotLonger(sep, a, x, b, y);
    NotLonger(sep, b, y, a, x);
    var s := a + [sep] + x;
    assert s[..|a|] == a && s[..|b|] == b;
    assert s[|a| + 1..] == x && s[|b| + 1..] == y;
  }

  lemma NotLonger(sep: char, a: string, x: string, b: string, y: string)
    requires sep !in b && a + [sep] + x == b + [sep] + y
    ensures |b| <= |a|
  {
    var s := a + [sep] + x;
    assert forall i :: 0 <= i < |b| ==> s[i] == b[i] && s[i] != sep;
    assert s[|a|] == sep;
  }

  /** An IPv4 address as text. */
  function Dotted(ip: Ip): (s: string)
    ensures s != []
  {
    Decimal(ip[0]) + ['.'] + (Decimal(ip[1]) + ['.'] + (Decimal(ip[2]) + ['.'] + Decimal(ip[3])))
  }

  lemma DottedInjective(a: Ip, b: Ip)
    requires Dotted(a) == Dotted(b)
    ensures a == b
  {
    var a2, b2 := Decimal(a[2]) + ['.'] + Decimal(a[3]), Decimal(b[2]) + ['.'] + Decimal(b[3]);
    var a1, b1 := Decimal(a[1]) + ['.'] + a2, Decimal(b[1]) + ['.'] + b2;
    SplitUnique('.', Decimal(a[0]), a1, Decimal(b[0]), b1);
    SplitUnique('.', Decimal(a[1]), a2, Decimal(b[1]), b2);
    SplitUnique('.', Decimal(a[2]), Decimal(a[3]), Decimal(b[2]), Decimal(b[3]));
    forall i | 0 <= i < 4 ensures a[i] == b[i] {
      DecimalInjective(a[i], b[i]);
    }
  }

  lemma DottedHas(c: char, ip: Ip)
    requires c != '.' && !('0' <= c <= '9')
    ensures c !in Dotted(ip)
  {
  }

  /** The text of the address with number `n`. */
  function Address(n: nat): (s: string)
    requires n < U32
    ensures s != []
  {
    Dotted(PutU32(n))
  }

  lemma AddressBytes(n: nat)
    requires n < U32
    ensures var b := PutU32(n);
            var w, x, y, z: int := b[0], b[1], b[2], b[3];
            n == ((w * 256 + x) * 256 + y) * 256 + z
  {
    U32GetPut(n);
  }

  lemma ReadJoined(a: string, b: string, c: string, d: string)
    requires '.' !in a && '.' !in b && '.' !in c
    ensures Read(a + ['.'] + (b + ['.'] + (c + ['.'] + d))) == ReadParts(a, b, c, d)
  {
    hide Cut, ReadParts;
    CutJoined(a, '.', b + ['.'] + (c + ['.'] + d));
    CutJoined(b, '.', c + ['.'] + d);
    CutJoined(c, '.', d);
  }

  lemma ReadAddress(n: nat)
    requires n < U32
    ensures Read(Address(n)) == Some(n)
  {
    hide Value, Decimal, Read;
    var b := PutU32(n);
    AddressBytes(n);
    hide PutU32;
    ValueOfDecimal(b[0]);
    ValueOfDecimal(b[1]);
    ValueOfDecimal(b[2]);
    ValueOfDecimal(b[3]);
    ReadJoined(Decimal(b[0]), Decimal(b[1]), Decimal(b[2]), Decimal(b[3]));
  }

  lemma AddressOfRead(s: string)
    requires Read(s).Some?
    ensures Read(s).value < U32 && s == Address(Read(s).value)
  {
    hide Value, Cut, Decimal, Dotted, PutU32;
    JoinCut(s, '.');
    var p := Cut(s, '.').value;
    JoinCut(p.1, '.');
    var q := Cut(p.1, '.').value;
    JoinCut(q.1, '.');
    var r := Cut(q.1, '.').value;
    AddressOfParts(p.0, q.0, r.0, r.1);
  }

  lemma AddressOfParts(a: string, b: string, c: string, d: string)
    requires ReadParts(a, b, c, d).Some?
    ensures var n := ReadParts(a, b, c, d).value;
            n < U32 && Address(n) == a + ['.'] + (b + ['.'] + (c + ['.'] + d))
  {
    hide Value, Decimal, AllDigits, PutU32;
    var ip: Ip := [Value(a), Value(b), Value(c), Value(d)];
    U32PutGet(ip);
    var n := ReadParts(a, b, c, d).value;
    assert GetU32(ip) == n;
    DecimalOfValue(a);
    DecimalOfValue(b);
    DecimalOfValue(c);
    DecimalOfValue(d);
  }

  /** Printing and reading are inverse: a text reads as `n` if and only if it is the text of `n`. */
  lemma Reads(s: string, n: nat)
    ensures Read(s) == Some(n) <==> n < U32 && s == Address(n)
  {
    hide Read, Address;
    if n < U32 { ReadAddress(n); }
    if Read(s).Some? { AddressOfRead(s); }
  }

  lemma AddressInjective(a: nat, b: nat)
    requires a < U32 && b < U32 && Address(a) == Address(b)
    ensures a == b
  {
    hide Read, Address;
    ReadAddress(a);
    ReadAddress(b);
  }
}
