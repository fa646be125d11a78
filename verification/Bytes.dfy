/** Bytes, slices of byte arrays, and big-endian numbers. */
module Bytes {
  type byte = x: int | 0 <= x < 256
  type u16 = n: nat | n < 0x1_0000
  type u32 = n: nat | n < 0x1_0000_0000

  /** Hardware and IPv4 addresses. */
  type Hw = s: seq<byte> | |s| == 6 witness [0, 0, 0, 0, 0, 0]
  type Ip = s: seq<byte> | |s| == 4 witness [0, 0, 0, 0]

  const U16: nat := 0x1_0000
  const U32: nat := 0x1_0000_0000

  function GetU16(hi: byte, lo: byte): (n: nat)
    ensures n < U16
  {
    var h: int := hi; var l: int := lo;
    h * 256 + l
  }

  function PutU16(n: nat): (b: seq<byte>)
    requires n < U16
    ensures |b| == 2 && GetU16(b[0], b[1]) == n
  {
    [n / 256, n % 256]
  }

  lemma U16RoundTrip(hi: byte, lo: byte)
    ensures PutU16(GetU16(hi, lo)) == [hi, lo]
  {
  }

  function PutU32(n: nat): (b: seq<byte>)
    requires n < U32
    ensures |b| == 4
  {
    PutU16(n / 0x1_0000) + PutU16(n % 0x1_0000)
  }

  function GetU32(b: seq<byte>): (n: nat)
    requires |b| == 4
    ensures n < U32
  {
    GetU16(b[0], b[1]) * 0x1_0000 + GetU16(b[2], b[3])
  }

  lemma U32GetPut(n: nat)
    requires n < U32
    ensures GetU32(PutU32(n)) == n
  {
    var b := PutU32(n);
    assert b[..2] == PutU16(n / 0x1_0000) && b[2..] == PutU16(n % 0x1_0000);
  }

  lemma U32PutGet(b: seq<byte>)
    requires |b| == 4
    ensures PutU32(GetU32(b)) == b
  {
    U16RoundTrip(b[0], b[1]);
    U16RoundTrip(b[2], b[3]);
    hide PutU16, GetU16;
    var hi, lo, n := GetU16(b[0], b[1]), GetU16(b[2], b[3]), GetU32(b);
    assert n / 0x1_0000 == hi && n % 0x1_0000 == lo;
    assert b == [b[0], b[1]] + [b[2], b[3]];
  }

  /** A Go slice: `arr[lo..hi]`, sharing its array with other slices. */
  datatype Slice = Slice(arr: array<byte>, lo: nat, hi: nat) {
    predicate Ok() { lo <= hi <= arr.Length }

    function Len(): nat requires Ok() { hi - lo }

    function Content(): seq<byte>
      requires Ok()
      reads arr
    {
      arr[lo..hi]
    }
  }

  /** Slicing a slice. */
  lemma Reslice(arr: array<byte>, lo: nat, hi: nat, a: nat, b: nat)
    requires lo <= hi <= arr.Length && a <= b <= hi - lo
    ensures arr[lo..hi][a..b] == arr[lo + a..lo + b]
  {
    var s, t := arr[lo..hi][a..b], arr[lo + a..lo + b];
    forall i | 0 <= i < b - a ensures s[i] == t[i] {
      assert s[i] == arr[lo..hi][a + i] == arr[lo + a + i];
    }
  }

  /** Go's `copy` into part of a slice that has room for all of the data. */
  method Store(dst: Slice, at: nat, data: seq<byte>)
    requires dst.Ok() && at + |data| <= dst.Len()
    modifies dst.arr
    ensures dst.Content() == old(dst.Content())[..at] + data + old(dst.Content())[at + |data|..]
    ensures forall i :: 0 <= i < dst.arr.Length && !(dst.lo + at <= i < dst.lo + at + |data|) ==>
              dst.arr[i] == old(dst.arr[i])
  {
    ghost var was := dst.Content();
    var from := dst.lo + at;
    forall i | 0 <= i < |data| {
      dst.arr[from + i] := data[i];
    }
    ghost var now, want := dst.Content(), was[..at] + data + was[at + |data|..];
    forall i | 0 <= i < |was| ensures now[i] == want[i] {
      assert now[i] == dst.arr[dst.lo + i];
      assert at <= i < at + |data| ==> dst.arr[from + (i - at)] == data[i - at];
    }
    assert now == want;
  }
}
