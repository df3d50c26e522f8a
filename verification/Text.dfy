/** Text as Unicode scalars, its UTF-8 bytes, and the two orders Go compares strings by. */
module Text {
  import opened Prelude

  function EncodeChar(c: char): (bs: Bytes)
    ensures 1 <= |bs| <= 4
  {
    var n := c as int;
    var n6, n12, n18 := n / 64, n / 64 / 64, n / 64 / 64 / 64;
    if n < 0x80 then [n]
    else if n < 0x800 then [0xC0 + n6, 0x80 + n % 64]
    else if n < 0x1_0000 then [0xE0 + n12, 0x80 + n6 % 64, 0x80 + n % 64]
    else [0xF0 + n18, 0x80 + n12 % 64, 0x80 + n6 % 64, 0x80 + n % 64]
  }

  function Utf8(s: string): Bytes {
    if s == "" then [] else EncodeChar(s[0]) + Utf8(s[1..])
  }

  predicate IsTail(b: byte) {
    0x80 <= b < 0xC0
  }

  predicate IsScalar(n: int, shortest: int) {
    (shortest <= n && 0 <= n < 0xD800) || (shortest <= n && 0xE000 <= n < 0x11_0000)
  }

  function ScalarFrom(n: int, shortest: int, rest: Bytes): Option<(char, Bytes)> {
    if IsScalar(n, shortest) then Some((n as char, rest)) else None
  }

  /** The low six bits each following byte adds. */
  function Push(n: int, b: byte): int {
    n * 64 + (b - 0x80)
  }

  /** One scalar off the front; overlong forms, surrogates and cut-off sequences are refused. */
  function DecodeChar(bs: Bytes): (r: Option<(char, Bytes)>)
    ensures r.Some? ==> |r.value.1| < |bs|
  {
    if bs == [] then None
    else
      var b0: int := bs[0];
      if b0 < 0x80 then ScalarFrom(b0, 0, bs[1..])
      else if 0xC0 <= b0 < 0xE0 && |bs| >= 2 && IsTail(bs[1]) then
        ScalarFrom(Push(b0 - 0xC0, bs[1]), 0x80, bs[2..])
      else if 0xE0 <= b0 < 0xF0 && |bs| >= 3 && IsTail(bs[1]) && IsTail(bs[2]) then
        ScalarFrom(Push(Push(b0 - 0xE0, bs[1]), bs[2]), 0x800, bs[3..])
      else if 0xF0 <= b0 < 0xF8 && |bs| >= 4 && IsTail(bs[1]) && IsTail(bs[2]) && IsTail(bs[3]) then
        ScalarFrom(Push(Push(Push(b0 - 0xF0, bs[1]), bs[2]), bs[3]), 0x1_0000, bs[4..])
      else None
  }

  function DecodeUtf8(bs: Bytes): Option<string> {
    if bs == [] then Some("")
    else
      match DecodeChar(bs)
      case None => None
      case Some((c, rest)) =>
        match DecodeUtf8(rest)
        case None => None
        case Some(s) => Some([c] + s)
  }

  lemma DecodeEncodedChar(c: char, rest: Bytes)
    ensures DecodeChar(EncodeChar(c) + rest) == Some((c, rest))
  {
    var bs := EncodeChar(c);
    assert (bs + rest)[|bs|..] == rest;
    assert forall i :: 0 <= i < |bs| ==> (bs + rest)[i] == bs[i];
  }

  lemma {:induction false} DecodeUtf8Encoded(s: string)
    ensures DecodeUtf8(Utf8(s)) == Some(s)
  {
    if s != "" {
      DecodeEncodedChar(s[0], Utf8(s[1..]));
      DecodeUtf8Encoded(s[1..]);
      assert s == [s[0]] + s[1..];
    }
  }

  lemma PushSplit(n: nat, b: byte)
    requires IsTail(b)
    ensures Push(n, b) / 64 == n && Push(n, b) % 64 == b - 0x80
  {
  }

  lemma EncodeDecodedChar(bs: Bytes)
    requires DecodeChar(bs).Some?
    ensures var (c, rest) := DecodeChar(bs).value; bs == EncodeChar(c) + rest
  {
    var b0: int := bs[0];
    if b0 < 0x80 {
      assert bs == [bs[0]] + bs[1..];
    } else if b0 < 0xE0 {
      PushSplit(b0 - 0xC0, bs[1]);
      assert bs == [bs[0], bs[1]] + bs[2..];
    } else if b0 < 0xF0 {
      PushSplit(b0 - 0xE0, bs[1]);
      PushSplit(Push(b0 - 0xE0, bs[1]), bs[2]);
      assert bs == [bs[0], bs[1], bs[2]] + bs[3..];
    } else {
      PushSplit(b0 - 0xF0, bs[1]);
      PushSplit(Push(b0 - 0xF0, bs[1]), bs[2]);
      PushSplit(Push(Push(b0 - 0xF0, bs[1]), bs[2]), bs[3]);
      assert bs == [bs[0], bs[1], bs[2], bs[3]] + bs[4..];
    }
  }

  /** What an octet carries beside its mark. */
  function Bits(b: byte, mark: int): int {
    (b as int) - mark
  }

  /** Section 3 of RFC 3629: the octets of a scalar, by how many it takes. */
  lemma Rfc3629(c: char)
    ensures var n, bs := c as int, EncodeChar(c);
            && (n <= 0x7F ==> |bs| == 1 && bs[0] == n)
            && (0x80 <= n <= 0x7FF ==> |bs| == 2 && 64 * Bits(bs[0], 0xC0) + Bits(bs[1], 0x80) == n)
            && (0x800 <= n <= 0xFFFF ==> |bs| == 3 && 4096 * Bits(bs[0], 0xE0) + 64 * Bits(bs[1], 0x80) + Bits(bs[2], 0x80) == n)
            && (0x1_0000 <= n ==> |bs| == 4 && 262144 * Bits(bs[0], 0xF0) + 4096 * Bits(bs[1], 0x80) + 64 * Bits(bs[2], 0x80) + Bits(bs[3], 0x80) == n)
            && forall i :: 1 <= i < |bs| ==> IsTail(bs[i])
  {
  }

  /** Strict decoding accepts exactly the encodings: no text has two byte forms. */
  lemma {:induction false} EncodeDecodedUtf8(bs: Bytes)
    requires DecodeUtf8(bs).Some?
    ensures Utf8(DecodeUtf8(bs).value) == bs
  {
    if bs != [] {
      EncodeDecodedChar(bs);
      var (c, rest) := DecodeChar(bs).value;
      EncodeDecodedUtf8(rest);
      var s := DecodeUtf8(rest).value;
      assert ([c] + s)[1..] == s;
    }
  }

  lemma {:induction false} Utf8Concat(a: string, b: string)
    ensures Utf8(a + b) == Utf8(a) + Utf8(b)
  {
    if a == "" {
      assert a + b == b;
    } else {
      assert (a + b)[1..] == a[1..] + b;
      Utf8Concat(a[1..], b);
    }
  }

  lemma {:induction false} Utf8Length(s: string)
    ensures |Utf8(s)| >= |s|
  {
    if s != "" {
      Utf8Length(s[1..]);
    }
  }

  // ---- strings.Compare ----

  function CompareBytes(a: Bytes, b: Bytes): int {
    if a == [] then (if b == [] then 0 else -1)
    else if b == [] then 1
    else if a[0] < b[0] then -1
    else if a[0] > b[0] then 1
    else CompareBytes(a[1..], b[1..])
  }

  /** Comparison by code points. */
  function CompareText(a: string, b: string): int {
    if a == "" then (if b == "" then 0 else -1)
    else if b == "" then 1
    else if a[0] < b[0] then -1
    else if a[0] > b[0] then 1
    else CompareText(a[1..], b[1..])
  }

  lemma {:induction false} CompareBytesAfter(p: Bytes, a: Bytes, b: Bytes)
    ensures CompareBytes(p + a, p + b) == CompareBytes(a, b)
  {
    if p == [] {
      assert p + a == a && p + b == b;
    } else {
      assert (p + a)[1..] == p[1..] + a && (p + b)[1..] == p[1..] + b;
      CompareBytesAfter(p[1..], a, b);
    }
  }

  lemma {:induction false} CompareBytesAt(a: Bytes, b: Bytes, i: nat)
    requires i < |a| && i < |b| && a[..i] == b[..i] && a[i] < b[i]
    ensures CompareBytes(a, b) == -1 && CompareBytes(b, a) == 1
  {
    if i > 0 {
      assert a[0] == a[..i][0] && b[0] == b[..i][0];
      assert a[1..][..i - 1] == a[..i][1..] && b[1..][..i - 1] == b[..i][1..];
      CompareBytesAt(a[1..], b[1..], i - 1);
    }
  }

  /** The first byte at which the encodings of two scalars differ follows the scalars' order. */
  lemma EncodeCharOrder(c: char, d: char) returns (i: nat)
    requires c < d
    ensures i < |EncodeChar(c)| && i < |EncodeChar(d)|
    ensures EncodeChar(c)[..i] == EncodeChar(d)[..i] && EncodeChar(c)[i] < EncodeChar(d)[i]
  {
    var x, y := EncodeChar(c), EncodeChar(d);
    i := if x[0] != y[0] then 0 else if x[1] != y[1] then 1 else if x[2] != y[2] then 2 else 3;
  }

  /** Comparing UTF-8 bytes, as Go does, is comparing code points, as Swift does. */
  lemma {:induction false} Utf8KeepsOrder(a: string, b: string)
    ensures CompareBytes(Utf8(a), Utf8(b)) == CompareText(a, b)
  {
    if a != "" && b != "" {
      var x, y := Utf8(a), Utf8(b);
      if a[0] == b[0] {
        CompareBytesAfter(EncodeChar(a[0]), Utf8(a[1..]), Utf8(b[1..]));
        Utf8KeepsOrder(a[1..], b[1..]);
      } else if a[0] < b[0] {
        var i := EncodeCharOrder(a[0], b[0]);
        assert x[..i] == EncodeChar(a[0])[..i] && y[..i] == EncodeChar(b[0])[..i];
        CompareBytesAt(x, y, i);
      } else {
        var i := EncodeCharOrder(b[0], a[0]);
        assert x[..i] == EncodeChar(a[0])[..i] && y[..i] == EncodeChar(b[0])[..i];
        CompareBytesAt(y, x, i);
      }
    }
  }

  lemma {:induction false} CompareTextZero(a: string, b: string)
    ensures CompareText(a, b) == 0 <==> a == b
    ensures CompareText(a, b) == -CompareText(b, a)
    ensures CompareText(a, b) in {-1, 0, 1}
  {
    if a != "" && b != "" {
      CompareTextZero(a[1..], b[1..]);
      assert a == [a[0]] + a[1..] && b == [b[0]] + b[1..];
    }
  }

  lemma {:induction false} CompareTextTransitive(a: string, b: string, c: string)
    requires CompareText(a, b) < 0 && CompareText(b, c) < 0
    ensures CompareText(a, c) < 0
  {
    if a != "" && b != "" && c != "" && a[0] == b[0] && b[0] == c[0] {
      CompareTextTransitive(a[1..], b[1..], c[1..]);
    }
  }

  // ---- strings.TrimSpace ----

  predicate IsUnicodeSpace(c: char) {
    var n := c as int;
    9 <= n <= 13 || n == 32 || n == 0x85 || n == 0xA0 || n == 0x1680 || 0x2000 <= n <= 0x200A
    || n == 0x2028 || n == 0x2029 || n == 0x202F || n == 0x205F || n == 0x3000
  }

  function TrimLeft(s: string): string {
    if s != "" && IsUnicodeSpace(s[0]) then TrimLeft(s[1..]) else s
  }

  function TrimRight(s: string): string {
    if s != "" && IsUnicodeSpace(s[|s| - 1]) then TrimRight(s[..|s| - 1]) else s
  }

  function TrimSpace(s: string): string {
    TrimRight(TrimLeft(s))
  }

  predicate IsBlank(s: string) {
    TrimSpace(s) == ""
  }

  lemma {:induction false} LeftTrimmed(s: string) returns (i: nat)
    ensures i <= |s| && TrimLeft(s) == s[i..] && (forall k :: 0 <= k < i ==> IsUnicodeSpace(s[k])) && (i < |s| ==> !IsUnicodeSpace(s[i]))
  {
    if s != "" && IsUnicodeSpace(s[0]) {
      var j := LeftTrimmed(s[1..]);
      i := j + 1;
      assert s[1..][j..] == s[i..];
    } else {
      i := 0;
      assert s[0..] == s;
    }
  }

  lemma {:induction false} RightTrimmed(s: string) returns (j: nat)
    ensures j <= |s| && TrimRight(s) == s[..j] && (forall k :: j <= k < |s| ==> IsUnicodeSpace(s[k])) && (0 < j ==> !IsUnicodeSpace(s[j - 1]))
  {
    if s != "" && IsUnicodeSpace(s[|s| - 1]) {
      j := RightTrimmed(s[..|s| - 1]);
      assert s[..|s| - 1][..j] == s[..j];
    } else {
      j := |s|;
      assert s[..|s|] == s;
    }
  }

  /** What is left is the text between the first and the last character that is no space. */
  lemma Trimmed(s: string) returns (i: nat, j: nat)
    ensures i <= j <= |s| && TrimSpace(s) == s[i..j]
    ensures (forall k :: 0 <= k < i ==> IsUnicodeSpace(s[k])) && (forall k :: j <= k < |s| ==> IsUnicodeSpace(s[k]))
    ensures i < j ==> !IsUnicodeSpace(s[i]) && !IsUnicodeSpace(s[j - 1])
    ensures IsBlank(s) <==> forall k :: 0 <= k < |s| ==> IsUnicodeSpace(s[k])
  {
    i := LeftTrimmed(s);
    var n := RightTrimmed(s[i..]);
    j := i + n;
    hide IsUnicodeSpace;
    assert s[i..][..n] == s[i..j];
    assert forall k :: j <= k < |s| ==> s[k] == s[i..][k - i];
    if i < j {
      assert s[j - 1] == s[i..][n - 1];
    }
  }
}
