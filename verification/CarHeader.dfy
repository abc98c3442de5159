/** Reading the length-prefixed header of a CAR stream, and handing the stream on unread. */
module CarHeader {
  import opened Words

  type byte = x: int | 0 <= x < 256

  const MAX_VARINT_LEN_64: nat := 10

  function Pow128(k: nat): (r: nat)
    ensures r > 0
  {
    if k == 0 then 1 else 128 * Pow128(k - 1)
  }

  // ---- base-128 varints ----

  /** The shortest encoding: seven bits a byte, least significant first, the top bit set on all
      bytes but the last. */
  function Encode(x: nat): (r: seq<byte>)
    ensures |r| > 0
  {
    if x < 128 then [x] else [x % 128 + 128] + Encode(x / 128)
  }

  datatype Varint = Value(x: nat, length: nat) | Truncated | Overflow

  /** The varint at the start of s, of which i bytes have been read before. */
  function DecodeFrom(s: seq<byte>, i: nat): Varint
    decreases |s|
  {
    if i == MAX_VARINT_LEN_64 then Overflow
    else if s == [] then Truncated
    else if s[0] < 128 then
      if i == MAX_VARINT_LEN_64 - 1 && s[0] > 1 then Overflow else Value(s[0], 1)
    else Prepend(s[0], DecodeFrom(s[1..], i + 1))
  }

  function Decode(s: seq<byte>): Varint { DecodeFrom(s, 0) }

  lemma {:induction false} DecodedLength(s: seq<byte>, i: nat)
    requires i <= MAX_VARINT_LEN_64 && DecodeFrom(s, i).Value?
    ensures 0 < DecodeFrom(s, i).length <= |s| && i + DecodeFrom(s, i).length <= MAX_VARINT_LEN_64
    decreases |s|
  {
    if s[0] >= 128 {
      DecodedLength(s[1..], i + 1);
    }
  }

  /** What fits into the bits that are left after i bytes. */
  function Room(i: nat): nat
    requires i < MAX_VARINT_LEN_64
  {
    2 * Pow128(MAX_VARINT_LEN_64 - 1 - i)
  }

  lemma RoomIsAWord()
    ensures Room(0) == WORD
  {
    assert Pow128(4) == 0x1000_0000;
    Pow128Adds(4, 4);
    assert Pow128(9) == 128 * Pow128(8);
  }

  lemma {:induction false} Pow128Adds(a: nat, b: nat)
    ensures Pow128(a + b) == Pow128(a) * Pow128(b)
  {
    if a > 0 {
      Pow128Adds(a - 1, b);
    }
  }

  /** Decoding undoes encoding for every value that fits, whatever follows. */
  lemma {:induction false} DecodeUndoesEncodeFrom(x: nat, rest: seq<byte>, i: nat)
    requires i < MAX_VARINT_LEN_64 && x < Room(i)
    ensures DecodeFrom(Encode(x) + rest, i) == Value(x, |Encode(x)|)
    decreases x
  {
    if x >= 128 {
      assert i < MAX_VARINT_LEN_64 - 1 by { assert Pow128(0) == 1; }
      assert Room(i) == 128 * Room(i + 1);
      assert (Encode(x) + rest)[1..] == Encode(x / 128) + rest;
      DecodeUndoesEncodeFrom(x / 128, rest, i + 1);
    } else {
      assert Pow128(0) == 1;
    }
  }

  lemma DecodeUndoesEncode(x: nat, rest: seq<byte>)
    requires x < WORD
    ensures Decode(Encode(x) + rest) == Value(x, |Encode(x)|)
  {
    RoomIsAWord();
    DecodeUndoesEncodeFrom(x, rest, 0);
  }

  /** A decoded value fits into 64 bits. */
  lemma {:induction false} DecodedFits(s: seq<byte>, i: nat)
    requires i < MAX_VARINT_LEN_64 && DecodeFrom(s, i).Value?
    ensures DecodeFrom(s, i).x < Room(i)
    decreases |s|
  {
    if s[0] >= 128 {
      DecodedFits(s[1..], i + 1);
      assert Room(i) == 128 * Room(i + 1);
    } else if i < MAX_VARINT_LEN_64 - 1 {
      assert Pow128(MAX_VARINT_LEN_64 - 1 - i) == 128 * Pow128(MAX_VARINT_LEN_64 - 2 - i);
    } else {
      assert Pow128(0) == 1;
    }
  }

  /** No encoding of a value is shorter than Encode's. */
  lemma {:induction false} EncodeIsShortest(s: seq<byte>, i: nat)
    requires DecodeFrom(s, i).Value?
    ensures |Encode(DecodeFrom(s, i).x)| <= DecodeFrom(s, i).length
    decreases |s|
  {
    if s[0] >= 128 {
      EncodeIsShortest(s[1..], i + 1);
    }
  }

  /** After i bytes the varint at the start of s ends with its n-th: bytes with the top bit set before it,
      one without, ten in all at most, and the tenth with no more than the 64th bit. */
  predicate Ends(s: seq<byte>, i: nat, n: nat) {
    && 0 < n <= |s| && i + n <= 10
    && (forall k :: 0 <= k < n - 1 ==> s[k] >= 128)
    && s[n - 1] < 128 && (i + n == 10 ==> s[n - 1] <= 1)
  }

  /** The number whose digits to the base of 128, least significant first, are the low seven bits. */
  function Digits(s: seq<byte>): nat {
    if s == [] then 0 else s[0] % 128 + 128 * Digits(s[1..])
  }

  /** A varint is read exactly when it ends in time, and then as the number that its bytes spell. */
  lemma {:induction false} DecodesIff(s: seq<byte>, i: nat, n: nat)
    requires i <= 10
    ensures Ends(s, i, n) ==> DecodeFrom(s, i) == Value(Digits(s[..n]), n)
    ensures DecodeFrom(s, i).Value? && DecodeFrom(s, i).length == n ==> Ends(s, i, n)
    decreases |s|
  {
    if i < 10 && s != [] && s[0] >= 128 {
      DecodedLengthIsPositive(s[1..], i + 1);
      if n > 1 {
        DecodesIff(s[1..], i + 1, n - 1);
        EndsLater(s, i, n);
        if n <= |s| { assert s[..n][1..] == s[1..][..n - 1]; }
      }
    } else if i < 10 && s != [] {
      assert s[..1] == [s[0]] && [s[0]][1..] == [];
    }
  }

  lemma EndsLater(s: seq<byte>, i: nat, n: nat)
    requires s != [] && s[0] >= 128 && n > 1
    ensures Ends(s, i, n) <==> Ends(s[1..], i + 1, n - 1)
  {
    if Ends(s[1..], i + 1, n - 1) {
      forall k | 0 <= k < n - 1 ensures s[k] >= 128 {
        if k > 0 { assert s[1..][k - 1] >= 128; }
      }
    }
  }

  lemma DecodedLengthIsPositive(s: seq<byte>, i: nat)
    requires i <= 10
    ensures DecodeFrom(s, i).Value? ==> DecodeFrom(s, i).length > 0
  {
    if DecodeFrom(s, i).Value? { DecodedLength(s, i); }
  }

  // ---- reading ----

  /** A buffered reader: what is left of the stream. */
  class Reader {
    var rest: seq<byte>

    constructor (data: seq<byte>)
      ensures rest == data
    {
      rest := data;
    }

    /** Ten bytes at most; the value so far and its weight are updated byte by byte. */
    method ReadUvarint() returns (v: Varint)
      modifies this
      ensures v == Decode(old(rest))
      ensures v.Value? ==> v.length <= |old(rest)| && rest == old(rest)[v.length..]
    {
      AccumulatedIsDecoded(rest, 0, 1, 0);
      var x: nat, weight: nat, i: nat := 0, 1, 0;
      while i < MAX_VARINT_LEN_64
        invariant i <= MAX_VARINT_LEN_64 && i <= |old(rest)| && rest == old(rest)[i..]
        invariant Decode(old(rest)) == Accumulate(rest, x, weight, i)
      {
        if rest == [] {
          return Truncated;
        }
        var b := rest[0];
        rest := rest[1..];
        if b < 128 {
          if i == MAX_VARINT_LEN_64 - 1 && b > 1 {
            return Overflow;
          }
          return Value(Add(x, weight, b), i + 1);
        }
        x, weight, i := Add(x, weight, b - 128), weight * 128, i + 1;
      }
      return Overflow;
    }

    /** Fails when the stream ends before n bytes. */
    method ReadFull(n: nat) returns (ok: bool, buf: seq<byte>)
      modifies this
      ensures ok <==> n <= |old(rest)|
      ensures ok ==> buf == old(rest)[..n] && rest == old(rest)[n..]
    {
      if n > |rest| {
        rest := [];
        return false, [];
      }
      buf := rest[..n];
      rest := rest[n..];
      ok := true;
    }
  }

  function Add(x: nat, weight: nat, digit: nat): nat { x + weight * digit }

  /** The varint whose first i bytes gave x, read on from s. */
  function Accumulate(s: seq<byte>, x: nat, weight: nat, i: nat): Varint
    decreases |s|
  {
    if i == MAX_VARINT_LEN_64 then Overflow
    else if s == [] then Truncated
    else if s[0] < 128 then
      if i == MAX_VARINT_LEN_64 - 1 && s[0] > 1 then Overflow else Value(Add(x, weight, s[0]), i + 1)
    else Accumulate(s[1..], Add(x, weight, s[0] - 128), weight * 128, i + 1)
  }

  /** The remaining varint's value, on top of x with the given weight, after i more bytes. */
  function Shifted(v: Varint, x: nat, weight: nat, i: nat): Varint {
    match v
    case Value(y, n) => Value(Add(x, weight, y), i + n)
    case bad => bad
  }

  lemma ShiftOneMore(v: Varint, b: byte, x: nat, weight: nat, i: nat)
    requires b >= 128
    ensures Shifted(Prepend(b, v), x, weight, i) == Shifted(v, Add(x, weight, b - 128), weight * 128, i + 1)
  {
    if v.Value? {
      assert weight * (b - 128 + 128 * v.x) == weight * (b - 128) + weight * 128 * v.x;
    }
  }

  /** Accumulating from the first byte on computes the recursive value. */
  lemma {:induction false} AccumulatedIs(s: seq<byte>, x: nat, weight: nat, i: nat)
    ensures Accumulate(s, x, weight, i) == Shifted(DecodeFrom(s, i), x, weight, i)
    decreases |s|
  {
    if i != MAX_VARINT_LEN_64 && s != [] && s[0] >= 128 {
      AccumulatedIs(s[1..], Add(x, weight, s[0] - 128), weight * 128, i + 1);
      ShiftOneMore(DecodeFrom(s[1..], i + 1), s[0], x, weight, i);
    }
  }

  lemma AccumulatedIsDecoded(s: seq<byte>, x: nat, weight: nat, i: nat)
    requires x == 0 && weight == 1 && i == 0
    ensures Accumulate(s, x, weight, i) == Decode(s)
  {
    AccumulatedIs(s, x, weight, i);
  }

  function Prepend(b: byte, v: Varint): Varint
    requires b >= 128
  {
    match v
    case Value(x, n) => Value(b - 128 + 128 * x, n + 1)
    case bad => bad
  }

  /** Writing a varint into a buffer, from its first byte on; running past the end is a crash. */
  method PutUvarint(buf: array<byte>, value: nat) returns (crashed: bool)
    modifies buf
    ensures crashed <==> |Encode(value)| > buf.Length
    ensures !crashed ==> buf[..|Encode(value)|] == Encode(value)
  {
    var x, i := value, 0;
    while x >= 128
      invariant i <= buf.Length && Encode(value) == buf[..i] + Encode(x)
      decreases x
    {
      if i >= buf.Length {
        return true;
      }
      ghost var before := buf[..i];
      buf[i] := x % 128 + 128;
      assert buf[..i + 1] == before + [x % 128 + 128];
      x := x / 128;
      i := i + 1;
    }
    if i >= buf.Length {
      return true;
    }
    ghost var before := buf[..i];
    buf[i] := x;
    assert buf[..i + 1] == before + [x];
    return false;
  }

  datatype Frame = Frame(prefix: seq<byte>, header: seq<byte>) | Failed | Crashed

  /** The framing of a stream: a length varint, and that many bytes. */
  predicate Framed(data: seq<byte>) {
    Decode(data).Value? && Decode(data).length + Decode(data).x <= |data|
  }

  /** The header of a framed stream, and what follows it. */
  function HeaderOf(data: seq<byte>): seq<byte>
    requires Framed(data)
  {
    DecodedLength(data, 0);
    data[Decode(data).length..][..Decode(data).x]
  }

  function BodyOf(data: seq<byte>): seq<byte>
    requires Framed(data)
  {
    DecodedLength(data, 0);
    data[Decode(data).length..][Decode(data).x..]
  }

  /** The length asks for more memory than there is room for, and allocating it brings the process down. */
  predicate Overlong(data: seq<byte>, room: nat) { Decode(data).Value? && Decode(data).x > room }

  /** The length is written back into a buffer of one byte, which crashes for lengths from 128 on. */
  method LdRead(r: Reader, room: nat) returns (f: Frame)
    modifies r
    ensures f.Failed? <==> !Overlong(old(r.rest), room) && !Framed(old(r.rest))
    ensures f.Crashed? <==> Overlong(old(r.rest), room) || (Framed(old(r.rest)) && |HeaderOf(old(r.rest))| >= 128)
    ensures f.Frame? ==> f.prefix == [|f.header|] && f.header == HeaderOf(old(r.rest)) && r.rest == BodyOf(old(r.rest))
  {
    ghost var data := r.rest;
    if r.rest == [] {
      return Failed;
    }
    var l := r.ReadUvarint();
    if !l.Value? {
      return Failed;
    }
    if l.x > room {
      return Crashed;
    }
    var ok, buf := r.ReadFull(l.x);
    if !ok {
      return Failed;
    }
    var ubuf := new byte[1];
    var crashed := PutUvarint(ubuf, l.x);
    if crashed {
      return Crashed;
    }
    return Frame(ubuf[..1], buf);
  }

  datatype Verdict = Accepted(stream: seq<byte>) | Rejected | Panicked

  /** Decoding the header is left to roots: the root cids it holds, if it decodes at all. */
  function VerdictOn(data: seq<byte>, root: string, roots: seq<byte> -> Roots, room: nat): Verdict {
    if Overlong(data, room) then Panicked
    else if !Framed(data) then Rejected
    else if |HeaderOf(data)| >= 128 then Panicked
    else if roots(HeaderOf(data)) == Cids([root]) then Accepted(Reemitted(data))
    else Rejected
  }

  /** The reader that is returned concatenates the prefix, the header and what is left. */
  method ValidateCarHeader(root: string, r: Reader, roots: seq<byte> -> Roots, room: nat) returns (v: Verdict)
    modifies r
    ensures v == VerdictOn(old(r.rest), root, roots, room)
    ensures v.Accepted?
            <==> && Framed(old(r.rest)) && |HeaderOf(old(r.rest))| <= room && |HeaderOf(old(r.rest))| < 128
                 && roots(HeaderOf(old(r.rest))) == Cids([root])
    ensures v.Accepted? ==> v.stream == Encode(|HeaderOf(old(r.rest))|) + HeaderOf(old(r.rest)) + BodyOf(old(r.rest))
    ensures v.Panicked?
            <==> || (Decode(old(r.rest)).Value? && Decode(old(r.rest)).x > room)
                 || (Framed(old(r.rest)) && |HeaderOf(old(r.rest))| >= 128)
  {
    var f := LdRead(r, room);
    match f {
      case Failed => return Rejected;
      case Crashed => return Panicked;
      case Frame(prefix, header) =>
        var ch := roots(header);
        if ch.Undecodable? {
          return Rejected;
        }
        if |ch.cids| != 1 {
          return Rejected;
        }
        if ch.cids[0] != root {
          return Rejected;
        }
        assert ch.cids == [root];
        assert prefix + header + r.rest == Reemitted(old(r.rest));
        return Accepted(prefix + header + r.rest);
    }
  }

  datatype Roots = Undecodable | Cids(cids: seq<string>)

  /** The stream with its length varint in the shortest form. */
  function Reemitted(data: seq<byte>): seq<byte>
    requires Framed(data)
  {
    Encode(|HeaderOf(data)|) + HeaderOf(data) + BodyOf(data)
  }

  lemma FramedAfterVarint(varint: seq<byte>, header: seq<byte>, body: seq<byte>, data: seq<byte>)
    requires data == varint + header + body && Decode(data) == Value(|header|, |varint|)
    ensures Framed(data) && HeaderOf(data) == header && BodyOf(data) == body
  {
    assert data[|varint|..] == header + body;
  }

  lemma WrittenLengthIsRead(header: seq<byte>, body: seq<byte>)
    requires |header| < WORD
    ensures Decode(Encode(|header|) + header + body) == Value(|header|, |Encode(|header|)|)
  {
    DecodeUndoesEncode(|header|, header + body);
    assert Encode(|header|) + header + body == Encode(|header|) + (header + body);
  }

  /** Reading back what a writer framed. */
  lemma FramingIsRead(header: seq<byte>, body: seq<byte>)
    requires |header| < WORD
    ensures var data := Encode(|header|) + header + body;
            Framed(data) && HeaderOf(data) == header && BodyOf(data) == body
  {
    WrittenLengthIsRead(header, body);
    FramedAfterVarint(Encode(|header|), header, body, Encode(|header|) + header + body);
  }

  /** A stream whose header does not decode, or holds no root, several roots or another one, is rejected
      when its header is short. */
  lemma WrongRootIsRejected(root: string, header: seq<byte>, body: seq<byte>,
                            roots: seq<byte> -> Roots, room: nat)
    requires |header| < 128 && |header| <= room
    requires match roots(header)
             case Undecodable => true
             case Cids(cids) => |cids| != 1 || cids[0] != root
    ensures VerdictOn(Encode(|header|) + header + body, root, roots, room) == Rejected
  {
    FramingIsRead(header, body);
    WrittenLengthIsRead(header, body);
  }

  /** A stream that was framed with the right root in its header is accepted and handed on byte for
      byte, except that every header of 128 bytes or more panics. */
  lemma ValidStreamIsAcceptedIffShort(root: string, header: seq<byte>, body: seq<byte>,
                                      roots: seq<byte> -> Roots, room: nat)
    requires |header| < WORD && |header| <= room && roots(header) == Cids([root])
    ensures var data := Encode(|header|) + header + body;
            VerdictOn(data, root, roots, room) == if |header| < 128 then Accepted(data) else Panicked
  {
    FramingIsRead(header, body);
    WrittenLengthIsRead(header, body);
  }

  /** The re-emitted stream frames the same header and the same remaining bytes. */
  lemma ReemittedFramesTheSame(data: seq<byte>)
    requires Framed(data)
    ensures Framed(Reemitted(data))
    ensures HeaderOf(Reemitted(data)) == HeaderOf(data) && BodyOf(Reemitted(data)) == BodyOf(data)
  {
    DecodedLength(data, 0);
    DecodedFits(data, 0);
    RoomIsAWord();
    FramingIsRead(HeaderOf(data), BodyOf(data));
  }

  /** It is the same stream, byte for byte, exactly when the length was in its shortest form. */
  lemma ReemittedIsIdenticalIff(data: seq<byte>)
    requires Framed(data)
    ensures Reemitted(data) == data <==> Decode(data).length == |Encode(Decode(data).x)|
  {
    DecodedLength(data, 0);
    var n := Decode(data).length;
    assert data == data[..n] + data[n..];
    assert data[n..] == HeaderOf(data) + BodyOf(data);
    assert Reemitted(data) == Encode(|HeaderOf(data)|) + data[n..];
    if n == |Encode(Decode(data).x)| {
      ShortestIsUnique(data, 0);
    }
  }

  /** A varint of the shortest length is the one Encode gives. */
  lemma {:induction false} ShortestIsUnique(s: seq<byte>, i: nat)
    requires i <= MAX_VARINT_LEN_64
    requires DecodeFrom(s, i).Value? && DecodeFrom(s, i).length == |Encode(DecodeFrom(s, i).x)|
    ensures DecodeFrom(s, i).length <= |s| && s[..DecodeFrom(s, i).length] == Encode(DecodeFrom(s, i).x)
    decreases |s|
  {
    DecodedLength(s, i);
    if s[0] >= 128 {
      var v := DecodeFrom(s[1..], i + 1);
      EncodeIsShortest(s[1..], i + 1);
      DecodedLength(s[1..], i + 1);
      ShortestIsUnique(s[1..], i + 1);
      assert s[..v.length + 1] == [s[0]] + s[1..][..v.length];
    }
  }

  /** Validating the re-emitted stream gives it back unchanged. */
  lemma ReemittedIsStable(data: seq<byte>)
    requires Framed(data)
    ensures Framed(Reemitted(data)) && Reemitted(Reemitted(data)) == Reemitted(data)
  {
    ReemittedFramesTheSame(data);
  }
}
