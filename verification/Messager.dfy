/** Sending frames on a connection and reassembling them from arbitrarily cut reads, with the
    buffers that are shared and decrypted in place. */
module Messager {
  import opened Bytes
  import opened Framing

  const MAX_BUF: nat := 4096
  const MAX_MSG: nat := 1600 * 8
  const ETH_LEN: nat := 6

  /** One end of a stream connection: the bytes that will still arrive before it fails, and the
      bytes written so far. */
  class Conn {
    var incoming: seq<byte>
    var written: seq<byte>

    /** Delivers any non-empty part of what fits; fails when nothing will arrive any more.  A
        read into an empty slice delivers nothing. */
    method Read(buf: Slice) returns (n: nat, ok: bool)
      requires buf.Ok()
      modifies this`incoming, buf.arr
      ensures buf.lo == buf.hi ==> ok && n == 0
      ensures buf.lo < buf.hi ==> ok == (old(incoming) != [])
      ensures ok && buf.lo < buf.hi ==> 0 < n
      ensures n <= buf.Len() && n <= |old(incoming)|
      ensures incoming == old(incoming)[n..]
      ensures buf.arr[buf.lo..buf.lo + n] == old(incoming)[..n]
      ensures forall i :: 0 <= i < buf.arr.Length && !(buf.lo <= i < buf.lo + n) ==> buf.arr[i] == old(buf.arr[i])
    {
      if buf.lo == buf.hi {
        return 0, true;
      }
      if incoming == [] {
        return 0, false;
      }
      n :| 0 < n <= buf.hi - buf.lo && n <= |incoming|;
      ok := true;
      ghost var was := buf.Content();
      Store(buf, 0, incoming[..n]);
      assert buf.Content()[..n] == incoming[..n];
      Reslice(buf.arr, buf.lo, buf.hi, 0, n);
      incoming := incoming[n..];
    }

    /** Takes any non-empty part of the data. */
    method Write(data: seq<byte>) returns (n: nat)
      requires data != []
      modifies this`written
      ensures 0 < n <= |data| && written == old(written) + data[..n]
    {
      n :| 0 < n <= |data|;
      written := written + data[..n];
    }
  }

  /** A frame with room for its header in front: `buffer` is header and payload area, `size` the
      payload bytes in use. */
  class FrameMessage {
    var buffer: Slice
    var size: nat

    ghost predicate Valid()
      reads this
    {
      buffer.Ok() && HEADER + size <= buffer.Len()
    }

    function Payload(): seq<byte>
      requires Valid()
      reads this, buffer.arr
    {
      buffer.Content()[HEADER..HEADER + size]
    }

    constructor (maxSize: int)
      ensures Valid() && size == 0 && fresh(buffer.arr) && buffer.lo == 0 && buffer.hi == buffer.arr.Length
      ensures buffer.Len() == (if maxSize <= 0 then MAX_BUF else maxSize) + HEADER + ETH_LEN
    {
      var max := if maxSize <= 0 then MAX_BUF else maxSize;
      var arr := new byte[max + HEADER + ETH_LEN](_ => 0);
      buffer := Slice(arr, 0, arr.Length);
      size := 0;
    }

    /** Adds data to the payload if there is room for all of it, else does nothing. */
    method Append(data: seq<byte>)
      requires Valid()
      modifies this`size, buffer.arr
      ensures Valid()
      ensures var room := old(HEADER + size) + |data| <= buffer.Len();
              && size == (if room then old(size) + |data| else old(size))
              && Payload() == (if room then old(Payload()) + data else old(Payload()))
    {
      if HEADER + size + |data| <= buffer.Len() {
        Store(buffer, HEADER + size, data);
        size := size + |data|;
      }
    }
  }

  ghost predicate Carries(frame: FrameMessage, payload: seq<byte>)
    reads frame, frame.buffer.arr
  {
    frame.Valid() && frame.Payload() == payload
  }

  datatype Outcome =
    | Frame(buf: Slice)  // header and decrypted payload
    | BadMagic
    | ReadError
    | Spins              // the source loops forever on reads into a full buffer

  class StreamMessager {
    const block: Cipher
    const bufSize: nat
    var buffer: Slice

    function Cap(): (n: nat) ensures 0 < n { if bufSize == 0 then MAX_MSG else bufSize }

    ghost predicate Valid()
      reads this
    {
      Sound(block) && buffer.Ok() && buffer.Len() <= Cap()
    }

    /** The bytes not yet returned in a frame: buffered ones, then those still to be read. */
    function Pending(conn: Conn): seq<byte>
      requires buffer.Ok()
      reads this, buffer.arr, conn
    {
      buffer.Content() + conn.incoming
    }

    constructor (block: Cipher, bufSize: nat)
      requires Sound(block)
      ensures Valid() && this.block == block && this.bufSize == bufSize
      ensures fresh(buffer.arr) && buffer.Len() == 0
    {
      this.block, this.bufSize := block, bufSize;
      var none := new byte[0];
      buffer := Slice(none, 0, 0);
    }

    // ---- Sending.

    /** Fills the header and encrypts the whole payload area, used or not. */
    method Encode(frame: FrameMessage)
      requires Sound(block) && frame.Valid()
      modifies frame.buffer.arr
      ensures frame.Valid()
      ensures frame.buffer.Content()[..HEADER + frame.size] == Wire(block, old(frame.Payload()))
    {
      hide Causal, Inverts;
      var b := frame.buffer;
      ghost var area := b.Content()[HEADER..];
      Store(b, 0, Header(frame.size));
      assert b.Content()[HEADER..] == area;
      Store(b, HEADER, block.Encrypt(b.Content()[HEADER..]));
      assert b.Content() == Header(frame.size) + block.Encrypt(area);
      PrefixCipher(block, area, frame.size);
      assert area[..frame.size] == old(frame.Payload());
    }

    method WriteX(conn: Conn, data: seq<byte>)
      modifies conn`written
      ensures conn.written == old(conn.written) + data
    {
      var offset := 0;
      while offset < |data|
        invariant offset <= |data|
        invariant conn.written == old(conn.written) + data[..offset]
      {
        var n := conn.Write(data[offset..]);
        assert data[..offset] + data[offset..][..n] == data[..offset + n];
        offset := offset + n;
      }
    }

    method Send(conn: Conn, frame: FrameMessage)
      requires Sound(block) && frame.Valid()
      modifies conn`written, frame.buffer.arr
      ensures frame.Valid()
      ensures conn.written == old(conn.written) + Wire(block, old(frame.Payload()))
    {
      Encode(frame);
      WriteX(conn, frame.buffer.Content()[..HEADER + frame.size]);
    }

    /** A list of messages with buffers of their own, sent one after the other, puts exactly the
        stream of their payloads on the connection. */
    method SendAll(conn: Conn, frames: seq<FrameMessage>, ghost payloads: seq<seq<byte>>)
      requires Sound(block) && |frames| == |payloads|
      requires forall i :: 0 <= i < |frames| ==> Carries(frames[i], payloads[i])
      requires forall i, j :: 0 <= i < j < |frames| ==> frames[i].buffer.arr != frames[j].buffer.arr
      modifies conn`written, set i | 0 <= i < |frames| :: frames[i].buffer.arr
      ensures conn.written == old(conn.written) + Stream(block, payloads)
    {
      hide Sound, Stream, Wire, Carries;
      EmptyStream(HEADER);
      for i := 0 to |frames|
        invariant forall j :: i <= j < |frames| ==> Carries(frames[j], payloads[j])
        invariant conn.written == old(conn.written) + Stream(block, payloads[..i])
      {
        StreamAppend(block, payloads[..i], payloads[i]);
        assert payloads[..i + 1] == payloads[..i] + [payloads[i]];
        SendCarried(conn, frames[i], payloads[i]);
      }
      assert payloads[..|frames|] == payloads;
    }

    method SendCarried(conn: Conn, frame: FrameMessage, ghost payload: seq<byte>)
      requires Sound(block) && Carries(frame, payload)
      modifies conn`written, frame.buffer.arr
      ensures conn.written == old(conn.written) + Wire(block, payload)
    {
      Send(conn, frame);
    }

    // ---- Receiving.

    /** Finds a frame at the front of `tmp`, decrypts it where it lies and keeps the rest of
        `tmp` as the buffer; bytes outside the frame do not change. */
    method Decode(tmp: Slice, min: nat) returns (r: Parsed)
      requires Sound(block) && tmp.Ok() && HEADER <= min
      modifies this`buffer, tmp.arr
      ensures r == Parse(old(tmp.Content()), min)
      ensures !r.Found? ==> buffer == old(buffer) && unchanged(tmp.arr)
      ensures r.Found? ==>
                var was, n := old(tmp.Content()), HEADER + r.size;
                && buffer == Slice(tmp.arr, tmp.lo + n, tmp.hi) && buffer.Content() == was[n..]
                && tmp.arr[tmp.lo..tmp.lo + n] == was[..HEADER] + block.Decrypt(was[HEADER..n])
                && forall i :: 0 <= i < tmp.arr.Length && !(tmp.lo <= i < tmp.lo + n) ==>
                     tmp.arr[i] == old(tmp.arr[i])
    {
      hide Causal, Inverts;
      var data := tmp.Content();
      r := Parse(data, min);
      if r.Found? {
        var n := HEADER + r.size;
        buffer := Slice(tmp.arr, tmp.lo + n, tmp.hi);
        Store(tmp, HEADER, block.Decrypt(data[HEADER..n]));
        ghost var now := tmp.Content();
        assert now[..n] == data[..HEADER] + block.Decrypt(data[HEADER..n]) && now[n..] == data[n..];
        Reslice(tmp.arr, tmp.lo, tmp.hi, 0, n);
        Reslice(tmp.arr, tmp.lo, tmp.hi, n, |data|);
      }
    }

    /** The frame that `Receive` returns next, as a function of the pending bytes alone: the way
        reads cut the stream does not matter. */
    function Next(pending: seq<byte>, min: nat): Parsed
      requires HEADER <= min
    {
      Parse(if |pending| <= Cap() then pending else pending[..Cap()], min)
    }

    /** `r` is the first frame of `was`, decrypted, and the rest of `was` is pending; the buffer
        begins where the frame ends. */
    ghost predicate Took(conn: Conn, was: seq<byte>, size: nat, r: Outcome)
      reads this, conn, buffer.arr
    {
      && HEADER + size <= |was|
      && r.Frame? && r.buf.Ok() && buffer.Ok() && r.buf.arr == buffer.arr && r.buf.hi == buffer.lo
      && r.buf.Content() == was[..HEADER] + block.Decrypt(was[HEADER..HEADER + size])
      && Pending(conn) == was[HEADER + size..]
    }

    method Receive(conn: Conn, min: nat) returns (r: Outcome)
      requires Valid() && HEADER <= min
      modifies this`buffer, conn`incoming, buffer.arr
      ensures Valid()
      ensures match Next(old(Pending(conn)), min)
              case Found(size) =>
                && Took(conn, old(Pending(conn)), size, r)
                && (fresh(buffer.arr) || (buffer.arr == old(buffer.arr) && r.buf.lo == old(buffer.lo)))
              case WrongMagic => r == BadMagic
              case NeedMore => r == if |old(Pending(conn))| < Cap() then ReadError else Spins
      ensures r == BadMagic <==>
              var b := old(Pending(conn)); min <= |b| && min <= Cap() && !(b[0] == 0xff && b[1] == 0xff)
      ensures !r.Frame? ==> buffer == old(buffer)
      ensures forall i :: 0 <= i < old(buffer.arr).Length && !(old(buffer.lo) <= i < old(buffer.hi)) ==>
                            old(buffer.arr)[i] == old(buffer.arr[i])
    {
      hide Parse, Sound;
      ghost var was := Pending(conn);
      ParseBad(if |was| <= Cap() then was else was[..Cap()], min);
      ghost var first := buffer.Content();
      assert first == was[..|first|];
      var start := buffer.lo;
      var p := Decode(buffer, min);
      ParseStable(if |was| <= Cap() then was else was[..Cap()], |first|, min);
      assert |was| > Cap() ==> was[..Cap()][..|first|] == first;
      if p.WrongMagic? {
        return BadMagic;
      }
      if p.Found? {
        r := Frame(Slice(buffer.arr, start, buffer.lo));
        assert was[..HEADER] == first[..HEADER] && was[HEADER..HEADER + p.size] == first[HEADER..HEADER + p.size];
        return;
      }
      r := ReadMore(conn, min, was);
    }

    /** The read loop: copies what is buffered into a new array and reads behind it until a frame
        is complete. */
    method ReadMore(conn: Conn, min: nat, ghost was: seq<byte>) returns (r: Outcome)
      requires Valid() && HEADER <= min && was == Pending(conn)
      requires Parse(buffer.Content(), min) == NeedMore
      modifies this`buffer, conn`incoming
      ensures Valid()
      ensures match Next(was, min)
              case Found(size) => Took(conn, was, size, r) && fresh(buffer.arr)
              case WrongMagic => r == BadMagic
              case NeedMore => r == if |was| < Cap() then ReadError else Spins
      ensures !r.Frame? ==> buffer == old(buffer)
    {
      hide Parse, Sound, Next, Took;
      var bs := buffer.Len();
      var tmp := new byte[Cap()](_ => 0);
      Store(Slice(tmp, 0, tmp.Length), 0, buffer.Content());
      assert tmp[..bs] == buffer.Content();
      while true
        invariant bs <= Cap() && bs <= |was|
        invariant buffer == old(buffer)
        invariant tmp[..bs] == was[..bs] && conn.incoming == was[bs..]
        invariant Parse(was[..bs], min) == NeedMore
        decreases |was| - bs
      {
        if bs == Cap() {
          // Nothing is read into an empty slice, and nothing changes from here on.
          NothingFound(was, bs, min);
          return Spins;
        }
        var n, ok := ReadBehind(conn, tmp, bs, was);
        if !ok {
          NothingFound(was, bs, min);
          return ReadError;
        }
        var p;
        p, r := DecodeRead(conn, tmp, bs + n, min, was);
        if p != NeedMore {
          return;
        }
        bs := bs + n;
      }
    }

    /** `Decode` on the first `rs` bytes of `tmp`, which are the first of the pending ones. */
    method DecodeRead(conn: Conn, tmp: array<byte>, rs: nat, min: nat, ghost was: seq<byte>)
      returns (p: Parsed, r: Outcome)
      requires Sound(block) && HEADER <= min && rs <= tmp.Length == Cap() && rs <= |was|
      requires tmp[..rs] == was[..rs] && conn.incoming == was[rs..]
      modifies this`buffer, tmp
      ensures p == Parse(was[..rs], min) && (p != NeedMore ==> p == Next(was, min))
      ensures p.Found? ==> r.Frame? && Took(conn, was, p.size, r)
      ensures p.Found? ==> buffer.Ok() && buffer.arr == tmp && buffer.Len() <= Cap()
      ensures !p.Found? ==> buffer == old(buffer) && tmp[..rs] == was[..rs] && r == BadMagic
    {
      hide Parse, Sound, Next;
      assert Slice(tmp, 0, rs).Content() == was[..rs];
      p := Decode(Slice(tmp, 0, rs), min);
      Agree(was, rs, min);
      r := BadMagic;
      if p.Found? {
        r := Frame(Slice(tmp, 0, buffer.lo));
        Prefix(was, rs, HEADER, HEADER + p.size);
      }
    }

    /** One read behind the first `bs` bytes of `tmp`. */
    method ReadBehind(conn: Conn, tmp: array<byte>, bs: nat, ghost was: seq<byte>) returns (n: nat, ok: bool)
      requires bs < tmp.Length && bs <= |was|
      requires tmp[..bs] == was[..bs] && conn.incoming == was[bs..]
      modifies conn`incoming, tmp
      ensures ok == (bs < |was|)
      ensures ok ==> 0 < n && bs + n <= tmp.Length && bs + n <= |was|
      ensures ok ==> tmp[..bs + n] == was[..bs + n] && conn.incoming == was[bs + n..]
    {
      n, ok := conn.Read(Slice(tmp, bs, tmp.Length));
      if ok {
        assert tmp[..bs] == was[..bs];
        assert tmp[..bs + n] == tmp[..bs] + tmp[bs..bs + n];
        assert was[..bs + n] == was[..bs] + was[bs..][..n];
      }
    }

    lemma Prefix(was: seq<byte>, n: nat, a: nat, b: nat)
      requires a <= b <= n <= |was|
      ensures was[..n][..a] == was[..a] && was[..n][a..b] == was[a..b]
      ensures was[..n][b..] + was[n..] == was[b..]
    {
    }

    lemma NothingFound(was: seq<byte>, n: nat, min: nat)
      requires HEADER <= min && n <= |was| && n <= Cap() && (n == |was| || n == Cap())
      requires Parse(was[..n], min) == NeedMore
      ensures Next(was, min) == NeedMore
    {
      assert n == |was| ==> was[..n] == was;
    }

    /** What is found in the bytes read so far is what `Next` says of all pending bytes. */
    lemma Agree(was: seq<byte>, n: nat, min: nat)
      requires HEADER <= min && n <= |was| && n <= Cap()
      ensures Parse(was[..n], min) != NeedMore ==> Next(was, min) == Parse(was[..n], min)
    {
      var all := if |was| <= Cap() then was else was[..Cap()];
      assert all[..n] == was[..n];
      ParseStable(all, n, min);
    }

    /** The head of an encoded list of frames is the next frame, and the rest stays pending. */
    lemma NextOfStream(frames: seq<seq<byte>>, min: nat)
      requires Sound(block) && HEADER <= min && frames != [] && Fits(frames[0], min, Cap())
      ensures var was := Stream(block, frames);
              && HEADER + |frames[0]| <= |was|
              && Next(was, min) == Found(|frames[0]|)
              && block.Decrypt(was[HEADER..HEADER + |frames[0]|]) == frames[0]
              && was[HEADER + |frames[0]|..] == Stream(block, frames[1..])
    {
      var was := Stream(block, frames);
      ParseWire(block, frames[0], Stream(block, frames[1..]), min, Cap());
      assert was[..|was|] == was;
    }

    lemma Longer(payload: seq<byte>, min: nat)
      requires HEADER < min && Fits(payload, min, Cap())
      ensures payload != []
    {
    }

    lemma EmptyStream(min: nat)
      requires HEADER <= min
      ensures Stream(block, []) == [] && Next([], min) == NeedMore
    {
    }

    /** One call of `Receive` on a connection that carries `frames`, of which `queue` were
        returned before. */
    method ReceiveNext(conn: Conn, min: nat, ghost queue: seq<Slice>, ghost frames: seq<seq<byte>>)
      returns (r: Outcome)
      requires Valid() && HEADER < min && |queue| <= |frames|
      requires Pending(conn) == Stream(block, frames[|queue|..])
      requires forall i :: 0 <= i < |frames| ==> Fits(frames[i], min, Cap())
      requires forall i :: 0 <= i < |queue| ==> Queued(queue[i], frames[i])
      modifies this`buffer, conn`incoming, buffer.arr
      ensures Valid() && (buffer.arr == old(buffer.arr) || fresh(buffer.arr))
      ensures forall i :: 0 <= i < |queue| ==> Queued(queue[i], frames[i])
      ensures |queue| == |frames| ==> r == ReadError
      ensures |queue| < |frames| ==>
                && r.Frame? && Queued(r.buf, frames[|queue|]) && HEADER < r.buf.Len()
                && Pending(conn) == Stream(block, frames[|queue| + 1..])
    {
      hide Sound, Parse, Stream, Fits;
      if |queue| == |frames| {
        EmptyStream(min);
      } else {
        NextOfStream(frames[|queue|..], min);
        assert frames[|queue|..][1..] == frames[|queue| + 1..];
        assert Fits(frames[|queue|], min, Cap());
        Longer(frames[|queue|], min);
      }
      r := Receive(conn, min);
      // Only bytes of the old buffer changed, and every queued frame was apart from it.
      forall i | 0 <= i < |queue| ensures Queued(queue[i], frames[i]) {
        var s := queue[i];
        assert old(Queued(s, frames[i]));
        ghost var now, was := s.Content(), old(s.Content());
        forall j | 0 <= j < |was| ensures now[j] == was[j] {
          assert now[j] == s.arr[s.lo + j] && was[j] == old(s.arr[s.lo + j]);
        }
        assert now == was;
      }
    }

    /** The reader of a connection: it queues frames until the connection fails.  For every list
        of frames sent, every cut of the stream into reads and every sound cipher it queues
        exactly those frames in order.  The contents are those at the end of the run, so no later
        read or in-place decryption disturbed a frame queued before. */
    method ReadLoop(conn: Conn, min: nat, ghost frames: seq<seq<byte>>) returns (queue: seq<Slice>, last: Outcome)
      requires Valid() && HEADER < min && Pending(conn) == Stream(block, frames)
      requires forall i :: 0 <= i < |frames| ==> Fits(frames[i], min, Cap())
      modifies this`buffer, conn`incoming, buffer.arr
      ensures last == ReadError
      ensures |queue| == |frames|
      ensures forall i :: 0 <= i < |queue| ==>
                queue[i].Ok() && HEADER <= queue[i].Len() && queue[i].Content()[HEADER..] == frames[i]
    {
      hide Parse, Stream, Fits, Sound;
      queue := [];
      while true
        invariant Valid() && |queue| <= |frames|
        invariant buffer.arr == old(buffer.arr) || fresh(buffer.arr)
        invariant Pending(conn) == Stream(block, frames[|queue|..])
        invariant forall i :: 0 <= i < |queue| ==> Queued(queue[i], frames[i])
        decreases |frames| - |queue|
      {
        last := ReceiveNext(conn, min, queue, frames);
        if !last.Frame? || last.buf.Len() <= HEADER {
          return;
        }
        queue := queue + [last.buf];
      }
    }

    /** A frame handed out: intact and apart from the buffer that later calls will work on. */
    ghost predicate Queued(s: Slice, payload: seq<byte>)
      reads this, s.arr
    {
      && s.Ok() && HEADER <= s.Len() && s.Content()[HEADER..] == payload
      && (s.arr != buffer.arr || s.hi <= buffer.lo)
    }
  }
}
