/** Base58 and did:key: byte strings as text, losing neither leading zeros nor leading ones. */
module Base58 {
  import opened Prelude

  // ---- Numbers in any base ----

  type Base = b: nat | b >= 2 witness 2

  predicate Digits(ds: seq<nat>, b: Base) {
    forall i :: 0 <= i < |ds| ==> ds[i] < b
  }

  function ValueOf(ds: seq<nat>, b: Base): nat {
    if ds == [] then 0 else ValueOf(ds[..|ds| - 1], b) * b + ds[|ds| - 1]
  }

  /** The digits of n without leading zeros; none for zero. */
  function Shortest(n: nat, b: Base): (ds: seq<nat>)
    ensures Digits(ds, b) && (ds != [] ==> ds[0] != 0)
  {
    if n == 0 then []
    else
      Smaller(n, b);
      Shortest(n / b, b) + [n % b]
  }

  function Zeros(n: nat): (ds: seq<nat>)
    ensures |ds| == n && forall i :: 0 <= i < n ==> ds[i] == 0
  {
    if n == 0 then [] else [0] + Zeros(n - 1)
  }

  function Leading(ds: seq<nat>): (n: nat)
    ensures n <= |ds| && (n < |ds| ==> ds[n] != 0) && forall i :: 0 <= i < n ==> ds[i] == 0
  {
    if ds == [] || ds[0] != 0 then 0 else 1 + Leading(ds[1..])
  }

  /** The same number in another base, with as many leading zeros as before. */
  function Convert(ds: seq<nat>, from: Base, to: Base): seq<nat> {
    Zeros(Leading(ds)) + Shortest(ValueOf(ds, from), to)
  }

  lemma Smaller(n: nat, b: Base)
    requires n > 0
    ensures n / b < n
  {
    assert n / b * b <= n;
  }

  lemma ValueSnoc(ds: seq<nat>, d: nat, b: Base)
    ensures ValueOf(ds + [d], b) == ValueOf(ds, b) * b + d
  {
    assert (ds + [d])[..|ds|] == ds;
  }

  lemma Recompose(n: nat, b: Base)
    ensures n / b * b + n % b == n
  {
  }

  lemma {:induction false} ShortestValue(n: nat, b: Base)
    ensures ValueOf(Shortest(n, b), b) == n
  {
    if n > 0 {
      Smaller(n, b);
      ShortestValue(n / b, b);
      var q, d := n / b, n % b;
      Recompose(n, b);
      ValueSnoc(Shortest(q, b), d, b);
    }
  }

  lemma DivideStep(q: nat, d: nat, b: Base)
    requires d < b
    ensures (q * b + d) / b == q && (q * b + d) % b == d
  {
    var n := q * b + d;
    var k := n / b - q;
    assert n == b * (n / b) + n % b;
    assert b * k == d - n % b;
    assert k <= -1 ==> b * k <= 0 - b as int;
    assert k >= 1 ==> b * k >= b;
  }

  lemma {:induction false} ValuePositive(ds: seq<nat>, b: Base)
    requires ds != [] && ds[0] != 0
    ensures ValueOf(ds, b) > 0
  {
    if |ds| > 1 {
      ValuePositive(ds[..|ds| - 1], b);
      assert ValueOf(ds[..|ds| - 1], b) * b >= 1;
    }
  }

  lemma {:induction false} ShortestOfValue(ds: seq<nat>, b: Base)
    requires Digits(ds, b) && (ds != [] ==> ds[0] != 0)
    ensures Shortest(ValueOf(ds, b), b) == ds
  {
    if ds != [] {
      var init, last := ds[..|ds| - 1], ds[|ds| - 1];
      ValuePositive(ds, b);
      ShortestOfValue(init, b);
      DivideStep(ValueOf(init, b), last, b);
      assert ds == init + [last];
    }
  }

  lemma {:induction false} ValueSkipsZeros(n: nat, ds: seq<nat>, b: Base)
    ensures ValueOf(Zeros(n) + ds, b) == ValueOf(ds, b)
  {
    var all := Zeros(n) + ds;
    if ds != [] {
      assert all[..|all| - 1] == Zeros(n) + ds[..|ds| - 1];
      ValueSkipsZeros(n, ds[..|ds| - 1], b);
    } else if n > 0 {
      assert all[..|all| - 1] == Zeros(n - 1) + [];
      ValueSkipsZeros(n - 1, [], b);
    }
  }

  lemma {:induction false} LeadingOf(n: nat, ds: seq<nat>)
    requires ds != [] ==> ds[0] != 0
    ensures Leading(Zeros(n) + ds) == n
  {
    if n > 0 {
      assert (Zeros(n) + ds)[1..] == Zeros(n - 1) + ds;
      LeadingOf(n - 1, ds);
    } else {
      assert Zeros(0) + ds == ds;
    }
  }

  /** Going to another base and back changes nothing. */
  lemma ConvertBack(ds: seq<nat>, from: Base, to: Base)
    requires Digits(ds, from)
    ensures Digits(Convert(ds, from, to), to) && Convert(Convert(ds, from, to), to, from) == ds
  {
    var n, rest := Leading(ds), ds[Leading(ds)..];
    assert ds == Zeros(n) + rest;
    ValueSkipsZeros(n, rest, from);
    var there := Shortest(ValueOf(ds, from), to);
    LeadingOf(n, there);
    ValueSkipsZeros(n, there, to);
    ShortestValue(ValueOf(ds, from), to);
    ShortestOfValue(rest, from);
  }

  // ---- The alphabet ----

  function Run(from: char, n: nat): (s: string)
    requires from as int + n < 0xD800
    ensures |s| == n && forall i :: 0 <= i < n ==> s[i] == from + i as char
  {
    seq(n, i requires 0 <= i < n => from + i as char)
  }

  /** "1" to "9", then letters: all but I and O of the capitals and l of the small ones. */
  const ALPHABET := Run('1', 9) + Run('A', 8) + Run('J', 5) + Run('P', 11) + Run('a', 11) + Run('m', 14)

  function Symbol(i: nat): char
    requires i < 58
  {
    ALPHABET[i]
  }

  /** Where a character stands in the alphabet. */
  function SymbolIndex(c: char): (i: Option<nat>)
    ensures i.Some? ==> i.value < 58 && Symbol(i.value) == c
    ensures i.Some? <==> c in ALPHABET
  {
    if '1' <= c <= '9' then Some(c as int - '1' as int)
    else if 'A' <= c <= 'H' then Some(c as int - 'A' as int + 9)
    else if 'J' <= c <= 'N' then Some(c as int - 'J' as int + 17)
    else if 'P' <= c <= 'Z' then Some(c as int - 'P' as int + 22)
    else if 'a' <= c <= 'k' then Some(c as int - 'a' as int + 33)
    else if 'm' <= c <= 'z' then Some(c as int - 'm' as int + 44)
    else None
  }

  /** Every symbol is found at its own place, so the alphabet repeats none. */
  lemma AlphabetIndex(i: nat)
    requires i < 58
    ensures |ALPHABET| == 58 && SymbolIndex(Symbol(i)) == Some(i)
  {
  }

  // ---- Text ----

  function Write(ds: seq<nat>): string
    requires Digits(ds, 58)
  {
    if ds == [] then "" else [Symbol(ds[0])] + Write(ds[1..])
  }

  function Read(text: string): (r: Option<seq<nat>>)
    ensures r.Some? ==> Digits(r.value, 58)
  {
    if text == "" then Some([])
    else
      var d :- SymbolIndex(text[0]);
      var rest :- Read(text[1..]);
      Some([d] + rest)
  }

  lemma {:induction false} ReadWritten(ds: seq<nat>)
    requires Digits(ds, 58)
    ensures Read(Write(ds)) == Some(ds)
  {
    if ds != [] {
      ReadWritten(ds[1..]);
      AlphabetIndex(ds[0]);
      assert Write(ds)[1..] == Write(ds[1..]) && ds == [ds[0]] + ds[1..];
    }
  }

  lemma {:induction false} WriteAt(ds: seq<nat>, i: nat)
    requires Digits(ds, 58) && i <= |ds|
    ensures |Write(ds)| == |ds| && (i < |ds| ==> Write(ds)[i] == Symbol(ds[i]))
  {
    if ds != [] {
      WriteAt(ds[1..], if i > 0 then i - 1 else 0);
    }
  }

  lemma {:induction false} WriteRead(text: string)
    requires Read(text).Some?
    ensures Write(Read(text).value) == text
  {
    if text != "" {
      WriteRead(text[1..]);
      assert Read(text).value[1..] == Read(text[1..]).value;
    }
  }

  function ToNats(data: Bytes): (ds: seq<nat>)
    ensures Digits(ds, 256) && |ds| == |data| && forall i :: 0 <= i < |ds| ==> ds[i] == data[i]
  {
    seq(|data|, i requires 0 <= i < |data| => data[i] as nat)
  }

  function ToBytes(ds: seq<nat>): (data: Bytes)
    requires Digits(ds, 256)
    ensures |data| == |ds| && forall i :: 0 <= i < |ds| ==> data[i] == ds[i]
  {
    seq(|ds|, i requires 0 <= i < |ds| => ds[i] as byte)
  }

  lemma ConvertDigits(ds: seq<nat>, from: Base, to: Base)
    ensures Digits(Convert(ds, from, to), to)
  {
  }

  function Encode(data: Bytes): string {
    ConvertDigits(ToNats(data), 256, 58);
    Write(Convert(ToNats(data), 256, 58))
  }

  function Decode(text: string): Option<Bytes> {
    var ds :- Read(text);
    ConvertDigits(ds, 58, 256);
    Some(ToBytes(Convert(ds, 58, 256)))
  }

  /** The digits but 0, the capitals but I and O, and the small letters but l. */
  lemma AlphabetTable(i: nat)
    ensures |ALPHABET| == 58 && ALPHABET[0] == '1' && ALPHABET[9] == 'A' && ALPHABET[17] == 'J' && ALPHABET[22] == 'P'
    ensures ALPHABET[33] == 'a' && ALPHABET[44] == 'm'
    ensures i < 57 && i !in {8, 16, 21, 32, 43} ==> ALPHABET[i + 1] as int == ALPHABET[i] as int + 1
  {
  }

  /** The text is the same number, most significant digit first, with a "1" for each leading zero octet. */
  lemma EncodedValue(data: Bytes) returns (ds: seq<nat>)
    ensures Digits(ds, 58) && |Encode(data)| == |ds| && |ALPHABET| == 58
    ensures forall i :: 0 <= i < |ds| ==> Encode(data)[i] == ALPHABET[ds[i]]
    ensures ValueOf(ds, 58) == ValueOf(ToNats(data), 256) && Leading(ds) == Leading(ToNats(data))
  {
    hide ALPHABET;
    var n, k := ValueOf(ToNats(data), 256), Leading(ToNats(data));
    ConvertDigits(ToNats(data), 256, 58);
    ds := Convert(ToNats(data), 256, 58);
    ShortestValue(n, 58);
    ValueSkipsZeros(k, Shortest(n, 58), 58);
    LeadingPast(k, Shortest(n, 58));
    AlphabetTable(0);
    hide Shortest;
    hide ValueOf;
    hide Leading;
    hide Write;
    WriteAt(ds, |ds|);
    forall i | 0 <= i < |ds|
      ensures Encode(data)[i] == ALPHABET[ds[i]]
    {
      WriteAt(ds, i);
    }
  }

  lemma {:induction false} LeadingPast(k: nat, ds: seq<nat>)
    requires ds != [] ==> ds[0] != 0
    ensures Leading(Zeros(k) + ds) == k
  {
    if k > 0 {
      LeadingPast(k - 1, ds);
      assert (Zeros(k) + ds)[1..] == Zeros(k - 1) + ds;
    } else {
      assert Zeros(0) + ds == ds;
    }
  }

  lemma DecodeEncoded(data: Bytes)
    ensures Decode(Encode(data)) == Some(data)
  {
    ConvertBack(ToNats(data), 256, 58);
    ReadWritten(Convert(ToNats(data), 256, 58));
    assert ToBytes(ToNats(data)) == data;
  }

  /** Every text over the alphabet is the encoding of what it decodes to. */
  lemma EncodeDecoded(text: string)
    requires Decode(text).Some?
    ensures Encode(Decode(text).value) == text
  {
    var ds := Read(text).value;
    ConvertBack(ds, 58, 256);
    WriteRead(text);
    assert ToNats(ToBytes(Convert(ds, 58, 256))) == Convert(ds, 58, 256);
  }

  /** Decoding fails on exactly the texts with a character outside the alphabet. */
  lemma {:induction false} DecodeFails(text: string)
    ensures Decode(text).None? <==> exists i :: 0 <= i < |text| && text[i] !in ALPHABET
  {
    if text != "" {
      DecodeFails(text[1..]);
      assert forall i :: 0 < i < |text| ==> text[i] == text[1..][i - 1];
      if exists i :: 0 <= i < |text[1..]| && text[1..][i] !in ALPHABET {
        var i :| 0 <= i < |text[1..]| && text[1..][i] !in ALPHABET;
        assert text[i + 1] !in ALPHABET;
      }
    }
  }

  // ---- The loops ----

  function Reversed(s: string): (r: string)
    ensures |r| == |s| && forall i :: 0 <= i < |s| ==> r[i] == s[|s| - 1 - i]
  {
    seq(|s|, i requires 0 <= i < |s| => s[|s| - 1 - i])
  }

  method Reverse(out: array<char>)
    modifies out
    ensures out[..] == Reversed(old(out[..]))
  {
    var i, j := 0, out.Length - 1;
    while i < j
      invariant 0 <= i <= j + 1 == out.Length - i
      invariant forall k :: 0 <= k < i ==> out[k] == old(out[out.Length - 1 - k]) && out[out.Length - 1 - k] == old(out[k])
      invariant forall k :: i <= k <= j ==> out[k] == old(out[k])
    {
      out[i], out[j] := out[j], out[i];
      i, j := i + 1, j - 1;
    }
  }

  lemma {:induction false} WriteSnoc(ds: seq<nat>, d: nat)
    requires Digits(ds, 58) && d < 58
    ensures Write(ds + [d]) == Write(ds) + [Symbol(d)]
  {
    if ds == [] {
      assert ds + [d] == [d];
    } else {
      assert (ds + [d])[1..] == ds[1..] + [d];
      WriteSnoc(ds[1..], d);
    }
  }

  lemma {:induction false} WriteConcat(ds: seq<nat>, es: seq<nat>)
    requires Digits(ds, 58) && Digits(es, 58)
    ensures Write(ds + es) == Write(ds) + Write(es)
  {
    if ds == [] {
      assert ds + es == es;
    } else {
      assert (ds + es)[1..] == ds[1..] + es;
      WriteConcat(ds[1..], es);
    }
  }

  lemma ReversedSnoc(s: string, c: char)
    ensures Reversed(s + [c]) == [c] + Reversed(s)
  {
  }

  method SetBytes(data: Bytes) returns (n: nat)
    ensures n == ValueOf(ToNats(data), 256)
  {
    n := 0;
    for i := 0 to |data|
      invariant n == ValueOf(ToNats(data)[..i], 256)
    {
      assert ToNats(data)[..i + 1][..i] == ToNats(data)[..i];
      n := n * 256 + data[i];
    }
    assert ToNats(data)[..|data|] == ToNats(data);
  }

  /** Symbols of a number, the last one first. */
  method DivideOut(whole: nat) returns (out: string)
    ensures Reversed(out) == Write(Shortest(whole, 58))
  {
    hide Symbol;
    var number := whole;
    out := "";
    while number > 0
      invariant Write(Shortest(whole, 58)) == Write(Shortest(number, 58)) + Reversed(out)
    {
      Smaller(number, 58);
      WriteSnoc(Shortest(number / 58, 58), number % 58);
      ReversedSnoc(out, Symbol(number % 58));
      number, out := number / 58, out + [Symbol(number % 58)];
    }
  }

  lemma OnesGrow(n: nat, rest: string)
    ensures Write(Zeros(n + 1)) + rest == ['1'] + (Write(Zeros(n)) + rest)
  {
    var ones := Write(Zeros(n));
    assert Zeros(n + 1)[1..] == Zeros(n);
    assert Symbol(0) == '1';
    assert ['1'] + ones + rest == ['1'] + (ones + rest);
  }

  method AppendOnes(data: Bytes, written: string) returns (out: string)
    ensures Reversed(out) == Write(Zeros(Leading(ToNats(data)))) + Reversed(written)
  {
    hide Symbol;
    out := written;
    var i := 0;
    while i < |data| && data[i] == 0
      invariant i <= Leading(ToNats(data))
      invariant Reversed(out) == Write(Zeros(i)) + Reversed(written)
    {
      ReversedSnoc(out, '1');
      OnesGrow(i, Reversed(written));
      out, i := out + ['1'], i + 1;
    }
  }

  method EncodeText(data: Bytes) returns (text: string)
    ensures text == Encode(data)
  {
    ConvertDigits(ToNats(data), 256, 58);
    var number := SetBytes(data);
    var symbols := DivideOut(number);
    var out := AppendOnes(data, symbols);
    WriteConcat(Zeros(Leading(ToNats(data))), Shortest(number, 58));
    var letters := new char[|out|](k requires 0 <= k < |out| => out[k]);
    assert letters[..] == out;
    Reverse(letters);
    text := letters[..];
  }

  /** The digits read so far in front of those still to come. */
  function Ahead(ds: seq<nat>, rest: Option<seq<nat>>): Option<seq<nat>> {
    if rest.Some? then Some(ds + rest.value) else None
  }

  method ReadNumber(text: string) returns (number: Option<nat>)
    ensures number == match Read(text) case Some(ds) => Some(ValueOf(ds, 58)) case None => None
  {
    hide Symbol;
    var n := 0;
    ghost var ds := [];
    assert text[0..] == text && forall rest: seq<nat> :: [] + rest == rest;
    for i := 0 to |text|
      invariant Digits(ds, 58) && n == ValueOf(ds, 58)
      invariant Read(text) == Ahead(ds, Read(text[i..]))
    {
      assert text[i..][0] == text[i] && text[i..][1..] == text[i + 1..];
      var index := SymbolIndex(text[i]);
      if index.None? {
        return None;
      }
      assert (ds + [index.value])[..|ds|] == ds;
      assert forall rest: seq<nat> :: ds + ([index.value] + rest) == ds + [index.value] + rest;
      ds := ds + [index.value];
      n := n * 58 + index.value;
    }
    assert text[|text|..] == "" && ds + [] == ds;
    number := Some(n);
  }

  method CountOnes(text: string) returns (n: nat)
    requires Read(text).Some?
    ensures n == Leading(Read(text).value)
  {
    ghost var ds := Read(text).value;
    WriteRead(text);
    AlphabetIndex(0);
    n := 0;
    WriteAt(ds, 0);
    while n < |text| && text[n] == '1'
      invariant n <= Leading(ds) && |ds| == |text| && (n < |ds| ==> text[n] == Symbol(ds[n]))
    {
      AlphabetIndex(ds[n]);
      WriteAt(ds, n + 1);
      n := n + 1;
    }
  }

  method DecodeText(text: string) returns (data: Option<Bytes>)
    ensures data == Decode(text)
  {
    var number := ReadNumber(text);
    if number.None? {
      return None;
    }
    ConvertDigits(Read(text).value, 58, 256);
    var leading := CountOnes(text);
    data := Some(ToBytes(Zeros(leading) + Shortest(number.value, 256)));
  }

  // ---- did:key ----

  datatype Curve = Curve25519 | Secp256k1 | P256

  function Prefix(curve: Curve): Bytes {
    match curve
    case Curve25519 => [0xED, 0x01]
    case Secp256k1 => [0xE7, 0x01]
    case P256 => [0x80, 0x24]
  }

  const DID := "did:key:z"

  function DIDKey(curve: Curve, publicKey: Bytes): string {
    DID + Encode(Prefix(curve) + publicKey)
  }

  /** The multicodec prefixes of the three curves. */
  lemma DIDKeyIs(publicKey: Bytes)
    ensures DIDKey(Curve25519, publicKey) == "did:key:z" + Encode([0xED, 0x01] + publicKey)
    ensures DIDKey(Secp256k1, publicKey) == "did:key:z" + Encode([0xE7, 0x01] + publicKey)
    ensures DIDKey(P256, publicKey) == "did:key:z" + Encode([0x80, 0x24] + publicKey)
  {
  }

  /** The first curve, in whatever order the prefix table is walked, whose prefix the bytes carry. */
  function CurveOf(decoded: Bytes, walk: seq<Curve>): Option<(Curve, Bytes)> {
    if walk == [] then None
    else if Prefix(walk[0]) <= decoded then Some((walk[0], decoded[2..]))
    else CurveOf(decoded, walk[1..])
  }

  function PublicKeyFromDIDKey(did: string, walk: seq<Curve>): Option<(Curve, Bytes)> {
    if !(DID <= did) then None
    else
      var decoded :- Decode(did[|DID|..]);
      CurveOf(decoded, walk)
  }

  lemma {:induction false} CurveFound(curve: Curve, publicKey: Bytes, walk: seq<Curve>)
    requires curve in walk
    ensures CurveOf(Prefix(curve) + publicKey, walk) == Some((curve, publicKey))
  {
    var decoded := Prefix(curve) + publicKey;
    assert decoded[..2] == Prefix(curve) && decoded[0] == Prefix(curve)[0];
    if walk[0] != curve {
      CurveFound(curve, publicKey, walk[1..]);
    }
  }

  /** A did:key gives back its curve and key, however the table of prefixes is walked. */
  lemma KeyFromDID(curve: Curve, publicKey: Bytes, walk: seq<Curve>)
    requires curve in walk
    ensures PublicKeyFromDIDKey(DIDKey(curve, publicKey), walk) == Some((curve, publicKey))
  {
    var did := DIDKey(curve, publicKey);
    assert did[..|DID|] == DID && did[|DID|..] == Encode(Prefix(curve) + publicKey);
    DecodeEncoded(Prefix(curve) + publicKey);
    CurveFound(curve, publicKey, walk);
  }

  lemma {:induction false} CurveOfPrefix(decoded: Bytes, walk: seq<Curve>)
    requires CurveOf(decoded, walk).Some?
    ensures var (curve, publicKey) := CurveOf(decoded, walk).value; Prefix(curve) + publicKey == decoded
  {
    if !(Prefix(walk[0]) <= decoded) {
      CurveOfPrefix(decoded, walk[1..]);
    }
  }

  /** And every did:key that reads is the one did:key of the curve and key it names. */
  lemma DIDFromKey(did: string, walk: seq<Curve>)
    requires PublicKeyFromDIDKey(did, walk).Some?
    ensures var (curve, publicKey) := PublicKeyFromDIDKey(did, walk).value; DIDKey(curve, publicKey) == did
  {
    var text := did[|DID|..];
    EncodeDecoded(text);
    CurveOfPrefix(Decode(text).value, walk);
    assert did == DID + text;
  }
}
