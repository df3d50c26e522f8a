/** Base64 as sections 4 and 3.5 of RFC 4648 have it, and as Go's strict decoder reads it. */
module Base64 {
  import opened Prelude

  function Symbol(n: nat): char
    requires n < 64
  {
    if n < 26 then 'A' + n as char
    else if n < 52 then 'a' + (n - 26) as char
    else if n < 62 then '0' + (n - 52) as char
    else if n == 62 then '+'
    else '/'
  }

  function SymbolValue(c: char): (r: Option<nat>)
    ensures r.Some? ==> r.value < 64
  {
    if 'A' <= c <= 'Z' then Some(c as int - 'A' as int)
    else if 'a' <= c <= 'z' then Some(c as int - 'a' as int + 26)
    else if '0' <= c <= '9' then Some(c as int - '0' as int + 52)
    else if c == '+' then Some(62)
    else if c == '/' then Some(63)
    else None
  }

  function Encode(d: Bytes): string {
    if d == [] then ""
    else if |d| == 1 then [Symbol(d[0] / 4), Symbol(d[0] % 4 * 16), '=', '=']
    else if |d| == 2 then
      [Symbol(d[0] / 4), Symbol(d[0] % 4 * 16 + d[1] / 16), Symbol(d[1] % 16 * 4), '=']
    else Group(d[0], d[1], d[2]) + Encode(d[3..])
  }

  function Group(x: byte, y: byte, z: byte): string {
    [Symbol(x / 4), Symbol(x % 4 * 16 + y / 16), Symbol(y % 16 * 4 + z / 64), Symbol(z % 64)]
  }

  /** Table 1 of RFC 4648: capitals, small letters, digits, plus and slash. */
  lemma SymbolTable(n: nat)
    ensures Symbol(0) == 'A' && Symbol(26) == 'a' && Symbol(52) == '0' && Symbol(62) == '+' && Symbol(63) == '/'
    ensures n < 61 && n != 25 && n != 51 ==> Symbol(n + 1) as int == Symbol(n) as int + 1
  {
  }

  lemma SextetsOf(x: byte, y: byte, z: byte, a: nat, b: nat, c: nat, d: nat)
    requires a < 64 && b < 64 && c < 64 && d < 64 && 262144 * a + 4096 * b + 64 * c + d == 65536 * x + 256 * y + z
    ensures a == x / 4 && b == x % 4 * 16 + y / 16 && c == y % 16 * 4 + z / 64 && d == z % 64
  {
    Split(x, 4);
    Split(y, 16);
    Split(z, 64);
    SameSextets(a, b, c, d, x / 4, x % 4 * 16 + y / 16, y % 16 * 4 + z / 64, z % 64);
  }

  lemma Split(n: nat, k: nat)
    requires k > 0
    ensures n == n / k * k + n % k
  {
  }

  lemma SameSextets(a: nat, b: nat, c: nat, d: nat, e: nat, f: nat, g: nat, h: nat)
    requires b < 64 && c < 64 && d < 64 && f < 64 && g < 64 && h < 64
    requires 262144 * a + 4096 * b + 64 * c + d == 262144 * e + 4096 * f + 64 * g + h
    ensures a == e && b == f && c == g && d == h
  {
    NoMultiple(4096 * (a - e) + 64 * (b - f) + (c - g), h - d);
    NoMultiple(64 * (a - e) + (b - f), g - c);
    NoMultiple(a - e, f - b);
  }

  lemma NoMultiple(k: int, r: int)
    requires 64 * k == r && -64 < r < 64
    ensures k == 0 && r == 0
  {
  }

  /** Section 4 of RFC 4648: three octets are four symbols of the same 24 bits. */
  lemma GroupIs(x: byte, y: byte, z: byte, a: nat, b: nat, c: nat, d: nat)
    requires a < 64 && b < 64 && c < 64 && d < 64 && 262144 * a + 4096 * b + 64 * c + d == 65536 * x + 256 * y + z
    ensures Encode([x, y, z]) == [Symbol(a), Symbol(b), Symbol(c), Symbol(d)]
  {
    SextetsOf(x, y, z, a, b, c, d);
    hide Symbol;
    assert Encode([]) == "" && [x, y, z][3..] == [];
    assert Encode([x, y, z]) == Group(x, y, z) + Encode([x, y, z][3..]);
  }

  /** One or two octets are filled up with zero bits, and the text with "=". */
  lemma OneIs(x: byte, a: nat, b: nat)
    requires a < 64 && b < 64 && 64 * a + b == 16 * x
    ensures Encode([x]) == [Symbol(a), Symbol(b), '=', '=']
  {
    hide Symbol;
    assert a == x / 4 && b == x % 4 * 16;
  }

  lemma TwoAre(x: byte, y: byte, a: nat, b: nat, c: nat)
    requires a < 64 && b < 64 && c < 64 && 4096 * a + 64 * b + c == 1024 * x + 4 * y
    ensures Encode([x, y]) == [Symbol(a), Symbol(b), Symbol(c), '=']
  {
    hide Symbol;
    SextetsOf(x, y, 0, a, b, c, 0);
  }

  /** And octets are taken three at a time. */
  lemma EncodeParts(x: byte, y: byte, z: byte, rest: Bytes)
    ensures Encode([x, y, z] + rest) == Encode([x, y, z]) + Encode(rest)
  {
    hide Symbol;
    hide Group;
    var d := [x, y, z] + rest;
    assert d[3..] == rest && [x, y, z][3..] == [] && Encode([]) == "";
    assert Encode([x, y, z]) == Group(x, y, z) + Encode([x, y, z][3..]);
  }

  /** Whole groups of four; the last may be padded, with its spare bits zero. */
  function DecodeGroups(s: string): Option<Bytes> {
    if s == "" then Some([])
    else if |s| < 4 then None
    else
      var a :- SymbolValue(s[0]);
      var b :- SymbolValue(s[1]);
      if s[2..] == "==" then
        if b % 16 == 0 then Some([a * 4 + b / 16]) else None
      else
        var c :- SymbolValue(s[2]);
        if s[3..] == "=" then
          if c % 4 == 0 then Some([a * 4 + b / 16, b % 16 * 16 + c / 4]) else None
        else
          var d :- SymbolValue(s[3]);
          var rest :- DecodeGroups(s[4..]);
          Some([a * 4 + b / 16, b % 16 * 16 + c / 4, c % 4 * 64 + d] + rest)
  }

  /** The decoder passes over line breaks wherever they stand. */
  function WithoutBreaks(s: string): string {
    if s == "" then ""
    else if s[0] == '\r' || s[0] == '\n' then WithoutBreaks(s[1..])
    else [s[0]] + WithoutBreaks(s[1..])
  }

  function Decode(s: string): Option<Bytes> {
    DecodeGroups(WithoutBreaks(s))
  }

  lemma SymbolRead(n: nat)
    requires n < 64
    ensures SymbolValue(Symbol(n)) == Some(n) && Symbol(n) != '\r' && Symbol(n) != '\n' && Symbol(n) != '='
  {
  }

  lemma {:induction false} EncodeNoBreaks(d: Bytes)
    ensures forall i :: 0 <= i < |Encode(d)| ==> Encode(d)[i] != '\r' && Encode(d)[i] != '\n'
  {
    if |d| >= 3 {
      EncodeNoBreaks(d[3..]);
    }
  }

  lemma {:induction false} NothingToDrop(s: string)
    requires forall i :: 0 <= i < |s| ==> s[i] != '\r' && s[i] != '\n'
    ensures WithoutBreaks(s) == s
  {
    if s != "" {
      NothingToDrop(s[1..]);
    }
  }

  lemma SextetsKeepBytes(x: byte, y: byte, z: byte)
    ensures var n0, n1, n2, n3 := x / 4, x % 4 * 16 + y / 16, y % 16 * 4 + z / 64, z % 64;
            n0 * 4 + n1 / 16 == x && n1 % 16 * 16 + n2 / 4 == y && n2 % 4 * 64 + n3 == z
  {
  }

  lemma GroupDecoded(x: byte, y: byte, z: byte, rest: string)
    ensures DecodeGroups(Group(x, y, z) + rest) ==
            match DecodeGroups(rest) case None => None case Some(more) => Some([x, y, z] + more)
  {
    var s := Group(x, y, z) + rest;
    SymbolRead(x / 4);
    SymbolRead(x % 4 * 16 + y / 16);
    SymbolRead(y % 16 * 4 + z / 64);
    SymbolRead(z % 64);
    SextetsKeepBytes(x, y, z);
    assert s[2..][0] != '=' && s[3..][0] != '=';
    assert s[4..] == rest;
  }

  lemma LastPairDecoded(x: byte, y: byte)
    ensures DecodeGroups(Encode([x, y])) == Some([x, y])
  {
    hide Symbol;
    hide SymbolValue;
    var e := Encode([x, y]);
    SymbolRead(x / 4);
    SymbolRead(x % 4 * 16 + y / 16);
    SymbolRead(y % 16 * 4);
    SextetsKeepBytes(x, y, 0);
    assert e[2..][0] != '=' && e[3..] == "=";
  }

  lemma LastByteDecoded(x: byte)
    ensures DecodeGroups(Encode([x])) == Some([x])
  {
    hide Symbol;
    hide SymbolValue;
    var e := Encode([x]);
    SymbolRead(x / 4);
    SymbolRead(x % 4 * 16);
    SextetsKeepBytes(x, 0, 0);
    assert e[2..] == "==";
  }

  lemma {:induction false} GroupsDecoded(d: Bytes)
    ensures DecodeGroups(Encode(d)) == Some(d)
  {
    hide Encode;
    hide DecodeGroups;
    hide Group;
    if |d| < 3 {
      ShortDecoded(d);
    } else {
      FirstGroup(d);
      GroupDecoded(d[0], d[1], d[2], Encode(d[3..]));
      GroupsDecoded(d[3..]);
      assert d == [d[0], d[1], d[2]] + d[3..];
    }
  }

  lemma FirstGroup(d: Bytes)
    requires |d| >= 3
    ensures Encode(d) == Group(d[0], d[1], d[2]) + Encode(d[3..])
  {
    hide Group;
  }

  lemma ShortDecoded(d: Bytes)
    requires |d| < 3
    ensures DecodeGroups(Encode(d)) == Some(d)
  {
    hide Encode;
    hide DecodeGroups;
    if d == [] {
      NothingDecoded();
    } else if |d| == 1 {
      LastByteDecoded(d[0]);
      assert d == [d[0]];
    } else {
      LastPairDecoded(d[0], d[1]);
      assert d == [d[0], d[1]];
    }
  }

  lemma NothingDecoded()
    ensures DecodeGroups(Encode([])) == Some([])
  {
  }

  lemma DecodeEncoded(d: Bytes)
    ensures Decode(Encode(d)) == Some(d)
  {
    EncodeNoBreaks(d);
    NothingToDrop(Encode(d));
    GroupsDecoded(d);
  }
}
