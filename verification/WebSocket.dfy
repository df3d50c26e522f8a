/** WebSocket frames as sections 5.2 and 5.3 of RFC 6455 lay them out: what is written is what is read. */
module WebSocket {
  import opened Prelude

  type MaskKey = k: Bytes | |k| == 4 witness [0, 0, 0, 0]

  // ---- Bits of an octet ----

  function Pow2(n: nat): nat {
    if n == 0 then 1 else 2 * Pow2(n - 1)
  }

  /** Exclusive or of the low bits, so many of them. */
  function XorBits(a: nat, b: nat, bits: nat): (r: nat)
    ensures r < Pow2(bits)
  {
    if bits == 0 then 0 else 2 * XorBits(a / 2, b / 2, bits - 1) + (a + b) % 2
  }

  lemma {:induction false} XorBitsTwice(a: nat, b: nat, bits: nat)
    requires a < Pow2(bits)
    ensures XorBits(XorBits(a, b, bits), b, bits) == a
  {
    if bits > 0 {
      var q, p := XorBits(a / 2, b / 2, bits - 1), (a + b) % 2;
      XorBitsTwice(a / 2, b / 2, bits - 1);
      Halves(q, p);
      ParityTwice(q, a, b);
      XorStep(a, b, bits);
      XorStep(2 * q + p, b, bits);
      hide XorBits;
    }
  }

  lemma XorStep(a: nat, b: nat, bits: nat)
    requires bits > 0
    ensures XorBits(a, b, bits) == 2 * XorBits(a / 2, b / 2, bits - 1) + (a + b) % 2
  {
  }

  lemma Halves(q: nat, p: nat)
    requires p < 2
    ensures (2 * q + p) / 2 == q
  {
  }

  lemma ParityTwice(q: nat, a: nat, b: nat)
    ensures 2 * (a / 2) + (2 * q + (a + b) % 2 + b) % 2 == a
  {
    var p := (a + b) % 2;
    assert a + b == 2 * ((a + b) / 2) + p;
    assert 2 * q + p + b == a + 2 * (q + b - (a + b) / 2);
  }

  lemma EightBits()
    ensures Pow2(8) == 256
  {
    assert Pow2(4) == 16;
  }

  function Xor(a: byte, b: byte): byte {
    EightBits();
    XorBits(a, b, 8)
  }

  lemma XorTwice(a: byte, b: byte)
    ensures Xor(Xor(a, b), b) == a
  {
    EightBits();
    XorBitsTwice(a, b, 8);
  }

  function Bit(n: nat, k: nat): nat {
    if k == 0 then n % 2 else Bit(n / 2, k - 1)
  }

  lemma {:induction false} XorBitsAt(a: nat, b: nat, bits: nat, k: nat)
    requires k < bits
    ensures Bit(XorBits(a, b, bits), k) == (Bit(a, k) + Bit(b, k)) % 2
    decreases k
  {
    var q, p := XorBits(a / 2, b / 2, bits - 1), (a + b) % 2;
    XorStep(a, b, bits);
    Halves(q, p);
    hide XorBits;
    if k == 0 {
      assert (2 * q + p) % 2 == p;
      ParitySum(a, b);
    } else {
      XorBitsAt(a / 2, b / 2, bits - 1, k - 1);
    }
  }

  lemma ParitySum(a: nat, b: nat)
    ensures (a + b) % 2 == (a % 2 + b % 2) % 2
  {
  }

  /** Bit by bit it is exclusive or. */
  lemma XorAt(a: byte, b: byte, k: nat)
    requires k < 8
    ensures Bit(Xor(a, b), k) == 1 <==> Bit(a, k) != Bit(b, k)
  {
    XorBitsAt(a, b, 8, k);
    BitRange(a, k);
    BitRange(b, k);
    hide XorBits;
    hide Bit;
    EightBits();
  }

  lemma {:induction false} BitRange(n: nat, k: nat)
    ensures Bit(n, k) == 0 || Bit(n, k) == 1
    decreases k
  {
    if k > 0 {
      BitRange(n / 2, k - 1);
    }
  }

  /** An octet with its top bit set. */
  function TopSet(b: byte): byte {
    if b < 0x80 then b + 0x80 else b
  }

  // ---- Lengths ----

  /** n in so many octets, the highest first. */
  function BigEndian(n: nat, width: nat): (o: Bytes)
    ensures |o| == width
  {
    if width == 0 then [] else BigEndian(n / 256, width - 1) + [n % 256]
  }

  function NumberOf(o: Bytes): nat {
    if o == [] then 0 else NumberOf(o[..|o| - 1]) * 256 + o[|o| - 1]
  }

  function Pow256(n: nat): nat {
    if n == 0 then 1 else 256 * Pow256(n - 1)
  }

  lemma {:induction false} NumberWritten(n: nat, width: nat)
    requires n < Pow256(width)
    ensures NumberOf(BigEndian(n, width)) == n
  {
    if width > 0 {
      NumberWritten(n / 256, width - 1);
      NumberSnoc(BigEndian(n / 256, width - 1), n % 256);
    }
  }

  lemma NumberSnoc(o: Bytes, b: byte)
    ensures NumberOf(o + [b]) == NumberOf(o) * 256 + b
  {
    assert (o + [b])[..|o|] == o;
  }

  /** The reader keeps the length as a signed 64-bit number. */
  function Signed64(n: nat): int {
    if n < INT64_LIMIT then n else n - 2 * INT64_LIMIT
  }

  // ---- Writing ----

  function Masked(payload: Bytes, key: MaskKey): (o: Bytes)
    ensures |o| == |payload| && forall i :: 0 <= i < |o| ==> o[i] == Xor(payload[i], key[i % 4])
  {
    seq(|payload|, i requires 0 <= i < |payload| => Xor(payload[i], key[i % 4]))
  }

  /** Masking twice with one key is no masking. */
  lemma MaskedTwice(payload: Bytes, key: MaskKey)
    ensures Masked(Masked(payload, key), key) == payload
  {
    var twice := Masked(Masked(payload, key), key);
    forall i | 0 <= i < |payload|
      ensures twice[i] == payload[i]
    {
      XorTwice(payload[i], key[i % 4]);
    }
  }

  function LengthHeader(n: nat, maskBit: byte): Bytes
    requires maskBit == 0 || maskBit == 0x80
  {
    if n < 126 then [maskBit + n]
    else if n <= 0xFFFF then [maskBit + 126] + BigEndian(n, 2)
    else [maskBit + 127] + BigEndian(n, 8)
  }

  function Body(payload: Bytes, mask: Option<MaskKey>): Bytes {
    match mask
    case None => payload
    case Some(key) => key + Masked(payload, key)
  }

  function WriteFrame(opcode: byte, payload: Bytes, mask: Option<MaskKey>): Bytes {
    [TopSet(opcode)] + LengthHeader(|payload|, if mask.Some? then 0x80 else 0) + Body(payload, mask)
  }

  // ---- Reading ----

  datatype Outcome =
    | Frame(opcode: byte, payload: Bytes, rest: Bytes)
    | Short
    | Fragmented
    | TooLarge
    | Panic

  /** The length field after the second octet, and what follows it. */
  function ReadLength(second: byte, rest: Bytes): Option<(int, Bytes)> {
    var n := second % 0x80;
    if n == 126 then
      if |rest| < 2 then None else Some((NumberOf(rest[..2]), rest[2..]))
    else if n == 127 then
      if |rest| < 8 then None else Some((Signed64(NumberOf(rest[..8])), rest[8..]))
    else Some((n, rest))
  }

  function ReadBody(opcode: byte, length: int, masked: bool, rest: Bytes): Outcome {
    if masked && |rest| < 4 then Short
    else
      var body := if masked then rest[4..] else rest;
      if length < 0 then Panic
      else if |body| < length then Short
      else Frame(opcode, if masked then Masked(body[..length], rest[..4]) else body[..length], body[length..])
  }

  function ReadFrame(stream: Bytes, maxBytes: int): Outcome {
    if |stream| < 2 then Short
    else if stream[0] < 0x80 then Fragmented
    else
      match ReadLength(stream[1], stream[2..])
      case None => Short
      case Some((length, rest)) =>
        if maxBytes > 0 && length > maxBytes then TooLarge
        else ReadBody(stream[0] % 0x10, length, stream[1] >= 0x80, rest)
  }

  predicate WithinLimit(n: nat, maxBytes: int) {
    maxBytes <= 0 || n <= maxBytes
  }

  // ---- Round trip ----

  lemma OpcodeBits(o: byte)
    ensures TopSet(o) >= 0x80 && TopSet(o) % 0x10 == o % 0x10
    ensures o < 16 ==> o % 0x10 == o
  {
  }

  lemma PowValues()
    ensures Pow256(2) == 0x1_0000 && Pow256(8) == 0x1_0000_0000_0000_0000
  {
    assert Pow256(4) == 0x1_0000_0000;
    assert Pow256(8) == 256 * (256 * (256 * (256 * Pow256(4))));
  }

  lemma LengthRead(n: nat, maskBit: byte, rest: Bytes)
    requires n < INT64_LIMIT && (maskBit == 0 || maskBit == 0x80)
    ensures var h := LengthHeader(n, maskBit);
            && |h| >= 1 && ReadLength(h[0], (h + rest)[1..]) == Some((n as int, rest))
            && (h[0] >= 0x80 <==> maskBit == 0x80)
  {
    var h := LengthHeader(n, maskBit);
    if n < 126 {
      assert (h + rest)[1..] == rest;
    } else if n <= 0xFFFF {
      PowValues();
      NumberWritten(n, 2);
      LongLengthRead(maskBit, 2, BigEndian(n, 2), rest);
    } else {
      PowValues();
      NumberWritten(n, 8);
      LongLengthRead(maskBit, 8, BigEndian(n, 8), rest);
    }
    hide ReadLength;
    hide BigEndian;
    hide NumberOf;
    hide Pow256;
  }

  lemma LongLengthRead(maskBit: byte, width: nat, o: Bytes, rest: Bytes)
    requires (maskBit == 0 || maskBit == 0x80) && (width == 2 || width == 8) && |o| == width
    ensures var mark: byte := maskBit + if width == 2 then 126 else 127;
            var h := [mark] + o;
            ReadLength(h[0], (h + rest)[1..]) == Some((if width == 2 then NumberOf(o) else Signed64(NumberOf(o)), rest))
  {
    hide NumberOf;
    var mark: byte := maskBit + if width == 2 then 126 else 127;
    var tail := ([mark] + o + rest)[1..];
    assert tail == o + rest;
    assert tail[..width] == o && tail[width..] == rest;
  }

  lemma BodyRead(opcode: byte, payload: Bytes, mask: Option<MaskKey>, rest: Bytes)
    ensures ReadBody(opcode, |payload|, mask.Some?, Body(payload, mask) + rest) == Frame(opcode, payload, rest)
  {
    var stream := Body(payload, mask) + rest;
    if mask.Some? {
      var key := mask.value;
      MaskedTwice(payload, key);
      var masked := Masked(payload, key);
      assert stream == key + (masked + rest);
      assert stream[..4] == key && stream[4..] == masked + rest;
      assert (masked + rest)[..|payload|] == masked && (masked + rest)[|payload|..] == rest;
    } else {
      assert stream[..|payload|] == payload && stream[|payload|..] == rest;
    }
  }

  /**
   * A written frame followed by anything is read back: opcode and payload as given and exactly the rest left.
   * It is refused as too large just when the payload is over the reader's limit.
   */
  lemma FrameRead(opcode: byte, payload: Bytes, mask: Option<MaskKey>, rest: Bytes, maxBytes: int)
    requires |payload| < INT64_LIMIT
    ensures ReadFrame(WriteFrame(opcode, payload, mask) + rest, maxBytes) ==
            if WithinLimit(|payload|, maxBytes) then Frame(opcode % 0x10, payload, rest) else TooLarge
    ensures opcode < 16 ==> opcode % 0x10 == opcode
  {
    var maskBit: byte := if mask.Some? then 0x80 else 0;
    var h, tail := LengthHeader(|payload|, maskBit), Body(payload, mask) + rest;
    OpcodeBits(opcode);
    LengthRead(|payload|, maskBit, tail);
    BodyRead(opcode % 0x10, payload, mask, rest);
    hide LengthHeader;
    hide Body;
    hide ReadLength;
    hide ReadBody;
    Reassociate([TopSet(opcode)], h, Body(payload, mask), rest);
    hide TopSet;
    ReadVia(TopSet(opcode), h + tail, maxBytes, |payload|, tail);
  }

  lemma Reassociate(a: Bytes, b: Bytes, c: Bytes, d: Bytes)
    ensures a + b + c + d == a + (b + (c + d))
  {
  }

  lemma ReadVia(first: byte, after: Bytes, maxBytes: int, length: int, rest: Bytes)
    requires first >= 0x80 && after != [] && ReadLength(after[0], after[1..]) == Some((length, rest))
    ensures ReadFrame([first] + after, maxBytes) ==
            if maxBytes > 0 && length > maxBytes then TooLarge else ReadBody(first % 0x10, length, after[0] >= 0x80, rest)
  {
    hide ReadLength;
    hide ReadBody;
    assert ([first] + after)[2..] == after[1..];
  }

  // ---- The octets of a frame ----

  /** So many octets say how long the payload is. */
  function HeaderSize(n: nat): nat {
    if n < 126 then 2 else if n <= 0xFFFF then 4 else 10
  }

  /** Section 5.2 of RFC 6455: a final frame of its opcode, the mask bit, the shortest length form, key and masked payload. */
  lemma FrameOctets(opcode: byte, payload: Bytes, mask: Option<MaskKey>)
    requires opcode < 16 && |payload| < INT64_LIMIT
    ensures var f, n := WriteFrame(opcode, payload, mask), |payload|;
            var h := HeaderSize(n);
            && |f| >= h && f[0] == 0x80 + opcode
            && f[1] == (if mask.Some? then 0x80 else 0) + (if n < 126 then n else if n <= 0xFFFF then 126 else 127)
            && (h > 2 ==> NumberOf(f[2..h]) == n)
            && (mask.None? ==> f[h..] == payload)
            && (mask.Some? ==> Carries(f[h..], mask.value, payload))
  {
    var n, maskBit: byte := |payload|, if mask.Some? then 0x80 else 0;
    HeaderOctets(n, maskBit);
    hide NumberOf;
    hide LengthHeader;
    hide Carries;
    Cut([TopSet(opcode)], LengthHeader(n, maskBit), Body(payload, mask));
    if mask.Some? {
      BodyCarries(payload, mask.value);
    }
    hide Body;
  }

  /** The key, and the payload with each octet masked by the key octet of its turn. */
  predicate Carries(body: Bytes, key: MaskKey, payload: Bytes) {
    && |body| == 4 + |payload| && body[..4] == key
    && forall i :: 0 <= i < |payload| ==> body[4 + i] == Xor(payload[i], key[i % 4])
  }

  lemma BodyCarries(payload: Bytes, key: MaskKey)
    ensures Carries(Body(payload, Some(key)), key, payload)
  {
    hide Xor;
    var body, masked := Body(payload, Some(key)), Masked(payload, key);
    assert forall i :: 0 <= i < |payload| ==> body[4 + i] == masked[i];
  }

  lemma Cut(a: Bytes, b: Bytes, c: Bytes)
    requires |a| == 1 && |b| >= 1
    ensures var f := a + b + c;
            |f| >= 1 + |b| && f[0] == a[0] && f[1] == b[0] && f[2..1 + |b|] == b[1..] && f[1 + |b|..] == c
  {
  }

  lemma HeaderOctets(n: nat, maskBit: byte)
    requires (maskBit == 0 || maskBit == 0x80) && n < INT64_LIMIT
    ensures var header := LengthHeader(n, maskBit);
            && |header| == HeaderSize(n) - 1
            && header[0] == maskBit + (if n < 126 then n else if n <= 0xFFFF then 126 else 127)
            && (n >= 126 ==> NumberOf(header[1..]) == n)
  {
    PowValues();
    if n >= 126 {
      NumberWritten(n, if n <= 0xFFFF then 2 else 8);
    }
    hide BigEndian;
    hide NumberOf;
    hide Pow256;
    if n > 0xFFFF {
      assert LengthHeader(n, maskBit)[1..] == BigEndian(n, 8);
    } else if n >= 126 {
      assert LengthHeader(n, maskBit)[1..] == BigEndian(n, 2);
    }
  }

  // ---- Frames back to back ----

  datatype Message = Message(opcode: byte, payload: Bytes, mask: Option<MaskKey>)

  function WriteAll(ms: seq<Message>): Bytes {
    if ms == [] then [] else WriteFrame(ms[0].opcode, ms[0].payload, ms[0].mask) + WriteAll(ms[1..])
  }

  /** Opcodes and payloads up to the end of the stream. */
  function ReadAll(stream: Bytes, maxBytes: int): Option<seq<(byte, Bytes)>>
    decreases |stream|
  {
    if stream == [] then Some([])
    else
      match ReadFrame(stream, maxBytes)
      case Frame(opcode, payload, rest) =>
        ReadShrinks(stream, maxBytes);
        (match ReadAll(rest, maxBytes)
         case Some(more) => Some([(opcode, payload)] + more)
         case None => None)
      case _ => None
  }

  lemma ReadShrinks(stream: Bytes, maxBytes: int)
    ensures ReadFrame(stream, maxBytes).Frame? ==> |ReadFrame(stream, maxBytes).rest| < |stream|
  {
    hide NumberOf;
  }

  function Contents(ms: seq<Message>): seq<(byte, Bytes)> {
    if ms == [] then [] else [(ms[0].opcode, ms[0].payload)] + Contents(ms[1..])
  }

  lemma {:induction false} AllRead(ms: seq<Message>, maxBytes: int)
    requires forall i :: 0 <= i < |ms| ==> ms[i].opcode < 16 && |ms[i].payload| < INT64_LIMIT && WithinLimit(|ms[i].payload|, maxBytes)
    ensures ReadAll(WriteAll(ms), maxBytes) == Some(Contents(ms))
  {
    hide WriteFrame;
    hide ReadFrame;
    if ms != [] {
      var m := ms[0];
      AllRead(ms[1..], maxBytes);
      FrameRead(m.opcode, m.payload, m.mask, WriteAll(ms[1..]), maxBytes);
      WrittenLength(m.opcode, m.payload, m.mask);
    }
  }

  lemma WrittenLength(opcode: byte, payload: Bytes, mask: Option<MaskKey>)
    ensures |WriteFrame(opcode, payload, mask)| >= 2 + |payload|
  {
  }

  // ---- Cut short ----

  /** A frame cut off anywhere is not read: the reader waits for the rest. */
  lemma CutFrameShort(opcode: byte, payload: Bytes, mask: Option<MaskKey>, n: nat, maxBytes: int)
    requires |payload| < INT64_LIMIT && WithinLimit(|payload|, maxBytes) && n < |WriteFrame(opcode, payload, mask)|
    ensures ReadFrame(WriteFrame(opcode, payload, mask)[..n], maxBytes) == Short
  {
    var whole := WriteFrame(opcode, payload, mask);
    var cut := whole[..n];
    OpcodeBits(opcode);
    FrameRead(opcode, payload, mask, [], maxBytes);
    assert whole + [] == whole;
    if n >= 2 {
      CutAnswers(whole, n, maxBytes);
    }
  }

  /** Less of a stream that holds exactly one frame can only run short. */
  lemma CutAnswers(whole: Bytes, n: nat, maxBytes: int)
    requires ReadFrame(whole, maxBytes).Frame? && ReadFrame(whole, maxBytes).rest == [] && 2 <= n < |whole|
    ensures ReadFrame(whole[..n], maxBytes) == Short
  {
    var cut := whole[..n];
    var second, after := whole[1], whole[2..];
    assert cut[2..] == after[..n - 2] && cut[0] == whole[0] && cut[1] == second;
    CutLength(second, after, n - 2);
    var (length, rest) := ReadLength(second, after).value;
    hide ReadLength;
    if ReadLength(second, after[..n - 2]).Some? {
      CutBody(whole[0] % 0x10, length, second >= 0x80, rest, n - 2 - (|after| - |rest|));
      hide ReadBody;
    }
  }

  lemma CutLength(second: byte, after: Bytes, n: nat)
    requires ReadLength(second, after).Some? && n <= |after|
    ensures var (length, rest) := ReadLength(second, after).value;
            && |rest| <= |after|
            && match ReadLength(second, after[..n])
               case None => true
               case Some((shorter, left)) => shorter == length && n >= |after| - |rest| && left == rest[..n - (|after| - |rest|)]
  {
    hide NumberOf;
    assert n >= 2 ==> after[..n][..2] == after[..2];
    assert n >= 8 ==> after[..n][..8] == after[..8];
    assert n >= 2 ==> after[..n][2..] == after[2..][..n - 2];
    assert n >= 8 ==> after[..n][8..] == after[8..][..n - 8];
  }

  lemma CutBody(opcode: byte, length: int, masked: bool, rest: Bytes, n: nat)
    requires ReadBody(opcode, length, masked, rest).Frame? && ReadBody(opcode, length, masked, rest).rest == [] && n < |rest|
    ensures ReadBody(opcode, length, masked, rest[..n]) == Short
  {
    hide Masked;
  }

  // ---- Lengths that do not fit ----

  lemma {:induction false} NumberBelow(o: Bytes)
    ensures NumberOf(o) < Pow256(|o|)
  {
    if o != [] {
      NumberBelow(o[..|o| - 1]);
    }
  }

  /** A frame whose eight-octet length says 2^63 or more, read as far as the buffer has to be made. */
  predicate SaysHuge(stream: Bytes) {
    && |stream| >= 10 && stream[0] >= 0x80 && stream[1] % 0x80 == 127
    && NumberOf(stream[2..][..8]) >= INT64_LIMIT
    && (stream[1] >= 0x80 ==> |stream| >= 14)
  }

  /** A length is negative only if it was written in eight octets and is 2^63 or more. */
  lemma NegativeLength(second: byte, rest: Bytes)
    requires ReadLength(second, rest).Some?
    ensures ReadLength(second, rest).value.0 < 0 <==> second % 0x80 == 127 && NumberOf(rest[..8]) >= INT64_LIMIT
  {
    if second % 0x80 == 127 {
      NumberBelow(rest[..8]);
      PowValues();
    }
    hide NumberOf;
  }

  /** No limit catches it: such a length turns negative, and just such frames make the reader panic. */
  lemma PanicIff(stream: Bytes, maxBytes: int)
    ensures ReadFrame(stream, maxBytes) == Panic <==> SaysHuge(stream)
  {
    if |stream| >= 2 && stream[0] >= 0x80 && ReadLength(stream[1], stream[2..]).Some? {
      NegativeLength(stream[1], stream[2..]);
    }
    hide NumberOf;
    hide Masked;
  }

  /** Such frames exist, for every length from 2^63 up that eight octets can say. */
  lemma HugeLengthPanics(opcode: byte, field: nat, rest: Bytes, maxBytes: int)
    requires INT64_LIMIT <= field < 2 * INT64_LIMIT
    ensures ReadFrame([TopSet(opcode), 127] + BigEndian(field, 8) + rest, maxBytes) == Panic
  {
    PowValues();
    NumberWritten(field, 8);
    var o := BigEndian(field, 8);
    var stream := [TopSet(opcode), 127] + o + rest;
    hide BigEndian;
    hide NumberOf;
    hide ReadFrame;
    assert stream[2..][..8] == o;
    PanicIff(stream, maxBytes);
  }

  // ---- The loops ----

  method Unmask(payload: array<byte>, key: MaskKey)
    modifies payload
    ensures payload[..] == Masked(old(payload[..]), key)
  {
    var i := 0;
    while i < payload.Length
      invariant 0 <= i <= payload.Length
      invariant forall k :: 0 <= k < i ==> payload[k] == Xor(old(payload[k]), key[k % 4])
      invariant forall k :: i <= k < payload.Length ==> payload[k] == old(payload[k])
    {
      payload[i] := Xor(payload[i], key[i % 4]);
      i := i + 1;
    }
  }

  method Write(opcode: byte, payload: Bytes, mask: Option<MaskKey>) returns (frame: Bytes)
    ensures frame == WriteFrame(opcode, payload, mask)
  {
    frame := [TopSet(opcode)];
    var maskBit: byte := if mask.Some? then 0x80 else 0;
    var length := |payload|;
    if length < 126 {
      frame := frame + [maskBit + length];
    } else if length <= 0xFFFF {
      frame := frame + [maskBit + 126];
      frame := frame + BigEndian(length, 2);
    } else {
      frame := frame + [maskBit + 127];
      frame := frame + BigEndian(length, 8);
    }
    assert frame == [TopSet(opcode)] + LengthHeader(length, maskBit);
    hide LengthHeader;
    if mask.Some? {
      var masked := new byte[length](i requires 0 <= i < length => payload[i]);
      assert masked[..] == payload;
      Unmask(masked, mask.value);
      frame := frame + mask.value + masked[..];
    } else {
      frame := frame + payload;
    }
  }

  method Read(stream: Bytes, maxBytes: int) returns (r: Outcome)
    ensures r == ReadFrame(stream, maxBytes)
  {
    hide NumberOf;
    if |stream| < 2 {
      return Short;
    }
    var opcode := stream[0] % 0x10;
    if stream[0] < 0x80 {
      return Fragmented;
    }
    var masked := stream[1] >= 0x80;
    var read := ReadLength(stream[1], stream[2..]);
    if read.None? {
      return Short;
    }
    var (length, rest) := read.value;
    if maxBytes > 0 && length > maxBytes {
      return TooLarge;
    }
    var key: MaskKey := [0, 0, 0, 0];
    if masked {
      if |rest| < 4 {
        return Short;
      }
      key := rest[..4];
    }
    var body := if masked then rest[4..] else rest;
    if length < 0 {
      return Panic;
    }
    if |body| < length {
      return Short;
    }
    var payload := new byte[length](i requires 0 <= i < length => body[i]);
    assert payload[..] == body[..length];
    if masked {
      Unmask(payload, key);
    }
    return Frame(opcode, payload[..], body[length..]);
  }
}
