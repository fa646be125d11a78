/** The stream format: a 4-byte header (magic, big-endian payload size) before each payload,
    and the assumption made of the cipher. */
module Framing {
  import opened Bytes

  const HEADER: nat := 4
  const MAGIC: seq<byte> := [0xff, 0xff]

  /** The block cipher of a connection, as a pair of whole-message functions. */
  datatype Cipher = Plain | Block(enc: seq<byte> -> seq<byte>, dec: seq<byte> -> seq<byte>) {
    function Encrypt(s: seq<byte>): seq<byte> { if Plain? then s else enc(s) }
    function Decrypt(s: seq<byte>): seq<byte> { if Plain? then s else dec(s) }
  }

  ghost predicate LengthsKept(c: Cipher) {
    forall s :: |c.Encrypt(s)| == |s| && |c.Decrypt(s)| == |s|
  }

  /** A prefix of the plain text determines the same prefix of the cipher text. */
  ghost predicate Causal(c: Cipher) {
    forall s, k: nat :: k <= |s| && |c.Encrypt(s)| == |s| ==> c.Encrypt(s)[..k] == c.Encrypt(s[..k])
  }

  ghost predicate Inverts(c: Cipher) {
    forall s :: c.Decrypt(c.Encrypt(s)) == s
  }

  /** What is assumed of a cipher. */
  ghost predicate Sound(c: Cipher) {
    LengthsKept(c) && Causal(c) && Inverts(c)
  }

  /** The bytes of one frame on the wire.  The size field has 16 bits and takes the size modulo 65536. */
  function Wire(c: Cipher, payload: seq<byte>): seq<byte> {
    Header(|payload|) + c.Encrypt(payload)
  }

  function Header(size: nat): (h: seq<byte>)
    ensures |h| == HEADER && h[..2] == MAGIC && GetU16(h[2], h[3]) == size % U16
  {
    MAGIC + PutU16(size % U16)
  }

  function Stream(c: Cipher, frames: seq<seq<byte>>): seq<byte> {
    if frames == [] then [] else Wire(c, frames[0]) + Stream(c, frames[1..])
  }

  datatype Parsed = NeedMore | WrongMagic | Found(size: nat)

  /** What `decode` makes of the bytes it is given. */
  function Parse(b: seq<byte>, min: nat): (r: Parsed)
    requires HEADER <= min
    ensures r.Found? ==> HEADER + r.size <= |b| && min <= |b|
  {
    if |b| < min then NeedMore
    else if b[0] != MAGIC[0] || b[1] != MAGIC[1] then WrongMagic
    else if HEADER + GetU16(b[2], b[3]) <= |b| then Found(GetU16(b[2], b[3]))
    else NeedMore
  }

  /** More bytes never change what has been found. */
  lemma ParseStable(b: seq<byte>, n: nat, min: nat)
    requires HEADER <= min && n <= |b|
    ensures Parse(b[..n], min) != NeedMore ==> Parse(b, min) == Parse(b[..n], min)
  {
  }

  /** A frame fits a receiver that waits for `min` bytes and reads at most `cap` at a time. */
  predicate Fits(payload: seq<byte>, min: nat, cap: nat) {
    |payload| < U16 && min <= HEADER + |payload| <= cap
  }

  /** Encrypting a whole buffer and sending only its first `size` bytes sends the encryption of
      those bytes. */
  lemma PrefixCipher(c: Cipher, buffer: seq<byte>, size: nat)
    requires Sound(c) && size <= |buffer|
    ensures Header(size) + c.Encrypt(buffer)[..size] == Wire(c, buffer[..size])
  {
  }

  /** The head of a stream is found, whatever follows, and decrypts to the first payload. */
  lemma ParseWire(c: Cipher, payload: seq<byte>, rest: seq<byte>, min: nat, cap: nat)
    requires Sound(c) && HEADER <= min && Fits(payload, min, cap)
    ensures var w := Wire(c, payload);
            var b := w + rest;
            && |w| == HEADER + |payload|
            && (forall n :: |w| <= n <= |b| ==> Parse(b[..n], min) == Found(|payload|))
            && c.Decrypt(b[HEADER..HEADER + |payload|]) == payload
            && b[HEADER + |payload|..] == rest
  {
    hide Causal, Parse, Header;
    var w := Wire(c, payload);
    var b := w + rest;
    assert b[HEADER..HEADER + |payload|] == c.Encrypt(payload);
    forall n | |w| <= n <= |b| ensures Parse(b[..n], min) == Found(|payload|) {
      assert b[..n][..HEADER] == Header(|payload|);
      ParseFront(b[..n], |payload|, min);
    }
  }

  lemma ParseFront(b: seq<byte>, size: nat, min: nat)
    requires HEADER <= min <= |b| && HEADER + size <= |b| && size < U16 && b[..HEADER] == Header(size)
    ensures Parse(b, min) == Found(size)
  {
    assert b[0] == b[..HEADER][0] && b[1] == b[..HEADER][1] && b[2] == b[..HEADER][2] && b[3] == b[..HEADER][3];
  }

  /** The 16-bit size field: a payload is found again, with nothing of it left over, if and only
      if it is shorter than 65536 bytes. */
  lemma SizeField(c: Cipher, payload: seq<byte>, min: nat)
    requires Sound(c) && HEADER <= min <= HEADER + |payload|
    ensures Parse(Wire(c, payload), min) == Found(|payload|) <==> |payload| < U16
  {
    if |payload| < U16 {
      var w := Wire(c, payload);
      ParseWire(c, payload, [], min, HEADER + |payload|);
      assert w + [] == w && w[..|w|] == w;
    }
  }

  /** The bytes of a frame: ff ff, the size modulo 65536 in two bytes, and the encrypted payload. */
  lemma WireBytes(c: Cipher, payload: seq<byte>)
    ensures var n := |payload| % 0x1_0000;
            Wire(c, payload) == [0xff, 0xff, n / 256, n % 256] + c.Encrypt(payload)
  {
    assert MAGIC + PutU16(|payload| % U16) == [0xff, 0xff, |payload| % U16 / 256, |payload| % U16 % 256];
  }

  /** Enough bytes that do not begin with ff ff are refused, whatever else they are. */
  lemma ParseBad(b: seq<byte>, min: nat)
    requires HEADER <= min
    ensures Parse(b, min) == WrongMagic <==> min <= |b| && !(b[0] == 0xff && b[1] == 0xff)
  {
  }

  /** Sending one more frame appends its bytes to the stream. */
  lemma {:induction false} StreamAppend(c: Cipher, frames: seq<seq<byte>>, payload: seq<byte>)
    ensures Stream(c, frames + [payload]) == Stream(c, frames) + Wire(c, payload)
  {
    if frames == [] {
      assert [payload][1..] == [];
    } else {
      StreamAppend(c, frames[1..], payload);
      assert (frames + [payload])[1..] == frames[1..] + [payload];
      assert (frames + [payload])[0] == frames[0];
    }
  }
}
