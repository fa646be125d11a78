/** The table of recent flows: a list in order of insertion, a map by printed key, and a capped
    cache that mirrors the map. */
module Online {
  import opened Bytes
  import opened Codecs
  import opened Text
  import opened SafeMap
  import TapWorker

  datatype Line = Line(ethType: u16, source: Ip, dest: Ip, protocol: byte, portSource: u16, portDest: u16)

  /** The key under which a flow is kept. */
  function Key(l: Line): string {
    Decimal(l.ethType) + [':'] + (Dotted(l.source) + [':'] + (Dotted(l.dest) + [':'] + (Decimal(l.protocol) + [':'] +
    (Decimal(l.portSource) + [':'] + Decimal(l.portDest)))))
  }

  /** Different flows have different keys. */
  lemma KeyInjective(a: Line, b: Line)
    requires Key(a) == Key(b)
    ensures a == b
  {
    var a4, b4 := Decimal(a.portSource) + [':'] + Decimal(a.portDest), Decimal(b.portSource) + [':'] + Decimal(b.portDest);
    var a3, b3 := Decimal(a.protocol) + [':'] + a4, Decimal(b.protocol) + [':'] + b4;
    var a2, b2 := Dotted(a.dest) + [':'] + a3, Dotted(b.dest) + [':'] + b3;
    var a1, b1 := Dotted(a.source) + [':'] + a2, Dotted(b.source) + [':'] + b2;
    NoColon(a);
    NoColon(b);
    hide Decimal, Dotted;
    SplitUnique(':', Decimal(a.ethType), a1, Decimal(b.ethType), b1);
    SplitUnique(':', Dotted(a.source), a2, Dotted(b.source), b2);
    SplitUnique(':', Dotted(a.dest), a3, Dotted(b.dest), b3);
    SplitUnique(':', Decimal(a.protocol), a4, Decimal(b.protocol), b4);
    SplitUnique(':', Decimal(a.portSource), Decimal(a.portDest), Decimal(b.portSource), Decimal(b.portDest));
    DecimalInjective(a.ethType, b.ethType);
    DottedInjective(a.source, b.source);
    DottedInjective(a.dest, b.dest);
    DecimalInjective(a.protocol, b.protocol);
    DecimalInjective(a.portSource, b.portSource);
    DecimalInjective(a.portDest, b.portDest);
  }

  lemma NoColon(l: Line)
    ensures ':' !in Decimal(l.ethType) && ':' !in Decimal(l.protocol) && ':' !in Decimal(l.portSource)
    ensures ':' !in Dotted(l.source) && ':' !in Dotted(l.dest)
  {
    DottedHas(':', l.source);
    DottedHas(':', l.dest);
  }

  /** The flow of an IPv4 frame by its bytes: addresses, protocol, and for TCP and UDP the ports. */
  function FlowOf(b: seq<byte>): Line
    requires Readable(b) && IsIpv4(b)
  {
    var ported := b[23] == 6 || b[23] == 17;
    Line(0x0800, b[26..30], b[30..34], b[23], if ported then Two(b, 34) else 0, if ported then Two(b, 36) else 0)
  }

  // ---- The table.

  /** The capacity of the cache is the size limit of the list. */
  datatype Flows = Flows(list: seq<Line>, lines: map<string, Line>, cache: map<string, Line>)

  /** Makes room: the oldest flow leaves all three when the list is at its limit. */
  function Pop(f: Flows, max: int): Flows {
    if |f.list| < max || f.list == [] then f
    else Flows(f.list[1..], f.lines - {Key(f.list[0])}, f.cache - {Key(f.list[0])})
  }

  function Add(f: Flows, max: int, l: Line): Flows {
    if Key(l) in f.lines then f
    else
      var g := Pop(f, max);
      Flows(g.list + [l], g.lines[Key(l) := l], Set(g.cache, max, Key(l), l))
  }

  /** The flows that are inserted by a sequence of frames: those not in the table at that time. */
  function After(frames: seq<Line>, max: int): Flows {
    if frames == [] then Flows([], map[], map[]) else Add(After(frames[..|frames| - 1], max), max, frames[|frames| - 1])
  }

  function Inserted(frames: seq<Line>, max: int): seq<Line> {
    if frames == [] then []
    else
      var n := |frames| - 1;
      Inserted(frames[..n], max) + (if frames[n] in After(frames[..n], max).list then [] else [frames[n]])
  }

  /** A limit below 1 still keeps one flow. */
  function Kept(max: int): nat { if max < 1 then 1 else max }

  function Newest(s: seq<Line>, n: nat): seq<Line> { if |s| <= n then s else s[|s| - n..] }

  /** Each flow once in the list, and the map holds the same flows. */
  ghost predicate Mirrors(list: seq<Line>, lines: map<string, Line>) {
    && (forall i, j :: 0 <= i < j < |list| ==> list[i] != list[j])
    && (forall i :: 0 <= i < |list| ==> Key(list[i]) in lines && lines[Key(list[i])] == list[i])
    && (forall k :: k in lines ==> k == Key(lines[k]) && lines[k] in list)
  }

  lemma MirrorsSize(list: seq<Line>, lines: map<string, Line>)
    requires Mirrors(list, lines)
    ensures |lines| == |list|
    decreases |list|
  {
    hide Key;
    if list == [] {
      assert lines == map[] by { assert forall k :: k !in lines; }
    } else {
      var k := Key(list[0]);
      MirrorsTail(list, lines);
      MirrorsSize(list[1..], lines - {k});
      assert (lines - {k}).Keys == lines.Keys - {k};
    }
  }

  lemma MirrorsTail(list: seq<Line>, lines: map<string, Line>)
    requires Mirrors(list, lines) && list != []
    ensures Mirrors(list[1..], lines - {Key(list[0])})
  {
    hide Key;
    var k, rest := Key(list[0]), list[1..];
    assert forall j :: j in lines && j != k ==> lines[j] in rest;
  }

  lemma MirrorsPush(list: seq<Line>, lines: map<string, Line>, l: Line)
    requires Mirrors(list, lines) && Key(l) !in lines
    ensures Mirrors(list + [l], lines[Key(l) := l])
  {
    hide Key;
    var all := list + [l];
    assert all[|list|] == l;
    assert forall i :: 0 <= i < |list| ==> all[i] == list[i] && list[i] != l;
  }

  lemma AddMirrors(f: Flows, max: int, l: Line)
    requires Mirrors(f.list, f.lines) && |f.list| <= Kept(max) && (0 <= max ==> f.cache == f.lines)
    ensures var g := Add(f, max, l);
            Mirrors(g.list, g.lines) && |g.list| <= Kept(max) && (0 <= max ==> g.cache == g.lines)
  {
    hide Key, Mirrors;
    if Key(l) !in f.lines {
      var g := Pop(f, max);
      if f.list != [] { MirrorsTail(f.list, f.lines); }
      MirrorsSize(g.list, g.lines);
      MirrorsPush(g.list, g.lines, l);
    }
  }

  /** Looking a flow up by its key finds that flow or no flow. */
  lemma FoundByKey(list: seq<Line>, lines: map<string, Line>, l: Line)
    requires Mirrors(list, lines)
    ensures Key(l) in lines <==> l in list
  {
    hide Key;
    if Key(l) in lines {
      KeyInjective(l, lines[Key(l)]);
    }
  }

  lemma NewestPush(s: seq<Line>, l: Line, n: nat)
    requires n > 0
    ensures var t := Newest(s, n);
            Newest(s + [l], n) == (if |t| < n then t else t[1..]) + [l]
  {
  }

  /** After any sequence of frames the list, the map and the cache hold the same flows, each once,
      and they are the newest insertions up to the limit.  The cache agrees whenever the limit is
      not negative: eviction comes before insertion, so it is never full. */
  lemma {:induction false} HoldsNewest(frames: seq<Line>, max: int)
    ensures var f := After(frames, max);
            && Mirrors(f.list, f.lines) && f.list == Newest(Inserted(frames, max), Kept(max))
            && (0 <= max ==> f.cache == f.lines)
  {
    hide Key, Mirrors;
    if frames == [] {
      EmptyMirrors();
    } else {
      var n := |frames| - 1;
      HoldsNewest(frames[..n], max);
      HoldsOneMore(After(frames[..n], max), Inserted(frames[..n], max), max, frames[n]);
    }
  }

  lemma HoldsOneMore(f: Flows, inserted: seq<Line>, max: int, l: Line)
    requires Mirrors(f.list, f.lines) && f.list == Newest(inserted, Kept(max)) && (0 <= max ==> f.cache == f.lines)
    ensures var g := Add(f, max, l);
            && Mirrors(g.list, g.lines) && (0 <= max ==> g.cache == g.lines)
            && g.list == Newest(inserted + (if l in f.list then [] else [l]), Kept(max))
  {
    hide Key, Mirrors;
    AddMirrors(f, max, l);
    FoundByKey(f.list, f.lines, l);
    NewestPush(inserted, l, Kept(max));
    AddList(f, max, l);
    hide Add, Newest;
    assert inserted + [] == inserted;
  }

  lemma AddList(f: Flows, max: int, l: Line)
    requires |f.list| <= Kept(max)
    ensures Add(f, max, l).list == if Key(l) in f.lines then f.list
                                   else (if |f.list| < Kept(max) then f.list else f.list[1..]) + [l]
  {
  }

  lemma EmptyMirrors()
    ensures Mirrors([], map[])
  {
  }

  /** A negative limit leaves the cache empty for ever, so the cache mirrors the map exactly when
      the limit is not negative or no frame has come yet. */
  lemma {:induction false} CacheMirrors(frames: seq<Line>, max: int)
    ensures After(frames, max).cache == After(frames, max).lines <==> 0 <= max || frames == []
    ensures max < 0 ==> After(frames, max).cache == map[]
  {
    hide Key, Mirrors;
    if frames != [] {
      var n := |frames| - 1;
      CacheMirrors(frames[..n], max);
      HoldsNewest(frames, max);
      NeverEmpty(After(frames[..n], max), max, frames[n]);
    }
  }

  lemma NeverEmpty(f: Flows, max: int, l: Line)
    ensures Key(l) in Add(f, max, l).lines
    ensures max < 0 && f.cache == map[] ==> Add(f, max, l).cache == map[]
  {
  }

  class Table {
    const maxSize: int
    var lineList: seq<Line>
    var lineMap: map<string, Line>
    var cache: map<string, Line>

    function Now(): Flows reads this { Flows(lineList, lineMap, cache) }

    constructor (maxSize: int)
      ensures this.maxSize == maxSize && Now() == After([], maxSize)
    {
      this.maxSize, lineList, lineMap, cache := maxSize, [], map[], map[];
    }

    method PopLine()
      modifies this
      ensures Now() == Pop(old(Now()), maxSize)
    {
      if |lineList| < maxSize || lineList == [] {
        return;
      }
      var key := Key(lineList[0]);
      lineList := lineList[1..];
      cache := cache - {key};
      lineMap := lineMap - {key};
    }

    method AddLine(line: Line)
      modifies this
      ensures Now() == Add(old(Now()), maxSize, line)
    {
      var key := Key(line);
      if key !in lineMap {
        PopLine();
        lineList := lineList + [line];
        lineMap := lineMap[key := line];
        cache := Set(cache, maxSize, key, line);
      }
    }

    /** A frame of a client: refused if its headers do not decode, and entered if it is IPv4. */
    method OnFrame(data: seq<byte>) returns (ok: bool)
      modifies this
      ensures ok <==> TapWorker.IsControl(data) || Readable(data)
      ensures Now() == if !TapWorker.IsControl(data) && Readable(data) && IsIpv4(data)
                       then Add(old(Now()), maxSize, FlowOf(data)) else old(Now())
    {
      hide DecodeFrame, Add, TapWorker.IsControl;
      if TapWorker.IsControl(data) {
        return true;
      }
      FrameParts(data);
      var proto := DecodeFrame(data);
      if proto.None? {
        return false;
      }
      var p := proto.value;
      if p.ip4.Some? {
        var line := Line(ETH_IP4, p.ip4.value.source, p.ip4.value.destination, p.ip4.value.protocol, 0, 0);
        if p.tcp.Some? {
          line := line.(portDest := p.tcp.value.destination, portSource := p.tcp.value.source);
        } else if p.udp.Some? {
          line := line.(portDest := p.udp.value.destination, portSource := p.udp.value.source);
        }
        AddLine(line);
      }
      return true;
    }
  }
}
