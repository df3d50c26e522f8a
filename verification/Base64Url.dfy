/** Unpadded base64url as section 5 of RFC 4648 has it, and as Go's lenient decoder reads it. */
module Base64Url {
  import opened Prelude
  import Base64

  function Symbol(n: nat): char
    requires n < 64
  {
    if n == 62 then '-' else if n == 63 then '_' else Base64.Symbol(n)
  }

  function SymbolValue(c: char): (r: Option<nat>)
    ensures r.Some? ==> r.value < 64
  {
    if c == '-' then Some(62) else if c == '_' then Some(63)
    else if c == '+' || c == '/' then None
    else Base64.SymbolValue(c)
  }

  function Encode(d: Bytes): string {
    if d == [] then ""
    else if |d| == 1 then [Symbol(d[0] / 4), Symbol(d[0] % 4 * 16)]
    else if |d| == 2 then [Symbol(d[0] / 4), Symbol(d[0] % 4 * 16 + d[1] / 16), Symbol(d[1] % 16 * 4)]
    else Group(d[0], d[1], d[2]) + Encode(d[3..])
  }

  function Group(x: byte, y: byte, z: byte): string {
    [Symbol(x / 4), Symbol(x % 4 * 16 + y / 16), Symbol(y % 16 * 4 + z / 64), Symbol(z % 64)]
  }

  /** Section 5 of RFC 4648: the same text as base64 but for two symbols and the padding. */
  lemma {:induction false} UrlForm(d: Bytes)
    ensures Encode(d) == Restated(Base64.Encode(d))
    decreases |d|
  {
    hide Symbol;
    hide Base64.Symbol;
    if d == [] {
    } else if |d| == 1 {
      SymbolRestated(d[0] / 4, [Base64.Symbol(d[0] % 4 * 16), '=', '=']);
      SymbolRestated(d[0] % 4 * 16, "==");
    } else if |d| == 2 {
      SymbolRestated(d[0] / 4, [Base64.Symbol(d[0] % 4 * 16 + d[1] / 16), Base64.Symbol(d[1] % 16 * 4), '=']);
      SymbolRestated(d[0] % 4 * 16 + d[1] / 16, [Base64.Symbol(d[1] % 16 * 4), '=']);
      SymbolRestated(d[1] % 16 * 4, "=");
    } else {
      UrlForm(d[3..]);
      GroupRestated(d[0], d[1], d[2], Base64.Encode(d[3..]));
    }
  }

  function Restated(s: string): string {
    if s == "" then ""
    else (if s[0] == '+' then "-" else if s[0] == '/' then "_" else if s[0] == '=' then "" else [s[0]]) + Restated(s[1..])
  }

  lemma SymbolRestated(n: nat, rest: string)
    requires n < 64
    ensures Restated([Base64.Symbol(n)] + rest) == [Symbol(n)] + Restated(rest)
  {
  }

  lemma GroupRestated(x: byte, y: byte, z: byte, rest: string)
    ensures Restated(Base64.Group(x, y, z) + rest) == Group(x, y, z) + Restated(rest)
  {
    hide Symbol;
    hide Base64.Symbol;
    var a, b, c, d := x / 4, x % 4 * 16 + y / 16, y % 16 * 4 + z / 64, z % 64;
    SymbolRestated(d, rest);
    SymbolRestated(c, [Base64.Symbol(d)] + rest);
    SymbolRestated(b, [Base64.Symbol(c)] + ([Base64.Symbol(d)] + rest));
    SymbolRestated(a, [Base64.Symbol(b)] + ([Base64.Symbol(c)] + ([Base64.Symbol(d)] + rest)));
    assert Base64.Group(x, y, z) + rest == [Base64.Symbol(a)] + ([Base64.Symbol(b)] + ([Base64.Symbol(c)] + ([Base64.Symbol(d)] + rest)));
  }

  /** Groups of four; a last one of two or three loses its spare bits, a single symbol is refused. */
  function DecodeGroups(s: string): Option<Bytes> {
    if s == "" then Some([])
    else if |s| == 1 then None
    else
      var a :- SymbolValue(s[0]);
      var b :- SymbolValue(s[1]);
      if |s| == 2 then Some([a * 4 + b / 16])
      else
        var c :- SymbolValue(s[2]);
        if |s| == 3 then Some([a * 4 + b / 16, b % 16 * 16 + c / 4])
        else
          var d :- SymbolValue(s[3]);
          var rest :- DecodeGroups(s[4..]);
          Some([a * 4 + b / 16, b % 16 * 16 + c / 4, c % 4 * 64 + d] + rest)
  }

  function WithoutPadding(s: string): string {
    if s != "" && s[|s| - 1] == '=' then WithoutPadding(s[..|s| - 1]) else s
  }

  /** Trailing "=" are cut off first; line breaks are passed over. */
  function Decode(s: string): Option<Bytes> {
    DecodeGroups(Base64.WithoutBreaks(WithoutPadding(s)))
  }

  lemma SymbolRead(n: nat)
    requires n < 64
    ensures SymbolValue(Symbol(n)) == Some(n) && Symbol(n) != '\r' && Symbol(n) != '\n' && Symbol(n) != '='
  {
  }

  lemma {:induction false} EncodePlain(d: Bytes)
    ensures forall i :: 0 <= i < |Encode(d)| ==> Encode(d)[i] != '\r' && Encode(d)[i] != '\n' && Encode(d)[i] != '='
  {
    if |d| >= 3 {
      EncodePlain(d[3..]);
    }
  }

  lemma GroupDecoded(x: byte, y: byte, z: byte, rest: string)
    ensures DecodeGroups(Group(x, y, z) + rest) ==
            match DecodeGroups(rest) case None => None case Some(more) => Some([x, y, z] + more)
  {
    SymbolRead(x / 4);
    SymbolRead(x % 4 * 16 + y / 16);
    SymbolRead(y % 16 * 4 + z / 64);
    SymbolRead(z % 64);
    Base64.SextetsKeepBytes(x, y, z);
    hide Symbol;
    hide SymbolValue;
    assert (Group(x, y, z) + rest)[4..] == rest;
  }

  lemma LastPairDecoded(x: byte, y: byte)
    ensures DecodeGroups(Encode([x, y])) == Some([x, y])
  {
    hide Symbol;
    hide SymbolValue;
    SymbolRead(x / 4);
    SymbolRead(x % 4 * 16 + y / 16);
    SymbolRead(y % 16 * 4);
    Base64.SextetsKeepBytes(x, y, 0);
  }

  lemma LastByteDecoded(x: byte)
    ensures DecodeGroups(Encode([x])) == Some([x])
  {
    hide Symbol;
    hide SymbolValue;
    SymbolRead(x / 4);
    SymbolRead(x % 4 * 16);
    Base64.SextetsKeepBytes(x, 0, 0);
  }

  lemma {:induction false} GroupsDecoded(d: Bytes)
    ensures DecodeGroups(Encode(d)) == Some(d)
  {
    hide Group;
    if d == [] {
    } else if |d| == 1 {
      LastByteDecoded(d[0]);
      assert d == [d[0]];
    } else if |d| == 2 {
      LastPairDecoded(d[0], d[1]);
      assert d == [d[0], d[1]];
    } else {
      hide DecodeGroups;
      GroupDecoded(d[0], d[1], d[2], Encode(d[3..]));
      GroupsDecoded(d[3..]);
      assert d == [d[0], d[1], d[2]] + d[3..];
    }
  }

  lemma DecodeEncoded(d: Bytes)
    ensures Decode(Encode(d)) == Some(d)
  {
    EncodePlain(d);
    Base64.NothingToDrop(Encode(d));
    GroupsDecoded(d);
    hide DecodeGroups;
    hide Encode;
  }
}
