/** Canonical JSON: the encoder signatures cover, the decoder, and why no two values share bytes. */
module JsonCodec {
  import opened Prelude
  import opened Text
  import opened KeyOrder

  datatype Json =
    | Null
    | Bool(b: bool)
    | Int(n: int64)
    | Str(s: string)
    | List(items: seq<Json>)
    | Obj(fields: map<string, Json>)

  /** Key order and whether "/" is written as "\/". */
  datatype Style = Style(order: Order, escapeSlashes: bool)

  const ENCODER_STYLE := Style(CodePoint, true)
  const CHANNEL_STYLE := Style(CodePoint, false)

  // ---- Encoder ----

  function HexDigit(n: nat): char
    requires n < 16
  {
    if n < 10 then '0' + n as char else 'a' + (n - 10) as char
  }

  function EscapeChar(c: char, escapeSlashes: bool): string {
    match c as int
    case 0x22 => "\\\""
    case 0x5C => "\\\\"
    case 0x2F => if escapeSlashes then "\\/" else "/"
    case 0x08 => "\\b"
    case 0x0C => "\\f"
    case 0x0A => "\\n"
    case 0x0D => "\\r"
    case 0x09 => "\\t"
    case n => if n < 0x20 then "\\u00" + [HexDigit(n / 16), HexDigit(n % 16)] else [c]
  }

  function Escape(s: string, escapeSlashes: bool): string {
    if s == "" then "" else EscapeChar(s[0], escapeSlashes) + Escape(s[1..], escapeSlashes)
  }

  function EncodeString(s: string, escapeSlashes: bool): string {
    "\"" + Escape(s, escapeSlashes) + "\""
  }

  function Decimal(n: nat): (s: string)
    ensures s != "" && AllDigits(s)
  {
    var d := ['0' + (n % 10) as char];
    if n < 10 then d else Decimal(n / 10) + d
  }

  function FormatInt(n: int): string {
    if n < 0 then "-" + Decimal(-n) else Decimal(n)
  }

  function Encode(v: Json, style: Style): string
    decreases v, 1, 0
  {
    match v
    case Null => "null"
    case Bool(b) => if b then "true" else "false"
    case Int(n) => FormatInt(n)
    case Str(s) => EncodeString(s, style.escapeSlashes)
    case List(items) => "[" + EncodeItems(items, style) + "]"
    case Obj(fields) => "{" + EncodeMembers(v, SortedKeys(fields.Keys, style.order), style) + "}"
  }

  function EncodeItems(items: seq<Json>, style: Style): string
    decreases items, 0, 0
  {
    if items == [] then ""
    else Encode(items[0], style) + (if |items| == 1 then "" else "," + EncodeItems(items[1..], style))
  }

  function EncodeMember(key: string, text: string, style: Style): string {
    EncodeString(key, style.escapeSlashes) + ":" + text
  }

  function EncodeMembers(v: Json, keys: seq<string>, style: Style): string
    requires v.Obj? && forall k :: k in keys ==> k in v.fields
    decreases v, 0, |keys|
  {
    if keys == [] then ""
    else
      EncodeMember(keys[0], Encode(v.fields[keys[0]], style), style)
      + (if |keys| == 1 then "" else "," + EncodeMembers(v, keys[1..], style))
  }

  function CanonicalJSON(v: Json, style: Style): Bytes {
    Utf8(Encode(v, style))
  }

  // ---- Decoder ----

  predicate IsSpace(c: char) {
    c == ' ' || c == '\t' || c == '\n' || c == '\r'
  }

  function SkipSpace(s: string): (r: string)
    ensures |r| <= |s| && (r != "" ==> !IsSpace(r[0]))
  {
    if s != "" && IsSpace(s[0]) then SkipSpace(s[1..]) else s
  }

  function HexValue(c: char): Option<nat> {
    if '0' <= c <= '9' then Some(c as int - '0' as int)
    else if 'a' <= c <= 'f' then Some(c as int - 'a' as int + 10)
    else if 'A' <= c <= 'F' then Some(c as int - 'A' as int + 10)
    else None
  }

  function Hex4(s: string): (r: Option<nat>)
    ensures r.Some? ==> |s| >= 4 && r.value < 0x1_0000
  {
    if |s| < 4 then None
    else
      var a :- HexValue(s[0]);
      var b :- HexValue(s[1]);
      var c :- HexValue(s[2]);
      var d :- HexValue(s[3]);
      Some(a * 4096 + b * 256 + c * 16 + d)
  }

  /** After "\u": a scalar, a surrogate pair, or U+FFFD for half of one. */
  function ParseUnicode(s: string): (r: Option<(char, string)>)
    ensures r.Some? ==> |r.value.1| < |s|
  {
    var n :- Hex4(s);
    var rest := s[4..];
    if n < 0xD800 || n >= 0xE000 then Some((n as char, rest))
    else if n < 0xDC00 && |rest| >= 2 && rest[..2] == "\\u" && Hex4(rest[2..]).Some?
            && 0xDC00 <= Hex4(rest[2..]).value < 0xE000 then
      Some(((0x1_0000 + (n - 0xD800) * 1024 + (Hex4(rest[2..]).value - 0xDC00)) as char, rest[6..]))
    else Some(('\U{FFFD}', rest))
  }

  function ParseEscape(s: string): (r: Option<(char, string)>)
    ensures r.Some? ==> |r.value.1| < |s|
  {
    if s == "" then None
    else
      match s[0] as int
      case 0x22 => Some(('\"', s[1..]))
      case 0x5C => Some(('\\', s[1..]))
      case 0x2F => Some(('/', s[1..]))
      case 0x62 => Some(('\U{8}', s[1..]))
      case 0x66 => Some(('\U{C}', s[1..]))
      case 0x6E => Some(('\n', s[1..]))
      case 0x72 => Some(('\r', s[1..]))
      case 0x74 => Some(('\t', s[1..]))
      case 0x75 => ParseUnicode(s[1..])
      case _ => None
  }

  /** The rest of a string after its opening quote. */
  function ParseChars(s: string): (r: Option<(string, string)>)
    ensures r.Some? ==> |r.value.1| < |s|
  {
    if s == "" || (s[0] as int) < 0x20 then None
    else if s[0] == '\"' then Some(("", s[1..]))
    else
      var (c, rest) :- if s[0] == '\\' then ParseEscape(s[1..]) else Some((s[0], s[1..]));
      var (tail, after) :- ParseChars(rest);
      Some(([c] + tail, after))
  }

  /** A run of digits without a leading zero; a fraction or exponent after it is not read here. */
  function ParseDigits(t: string): (r: Option<(nat, string)>)
    ensures r.Some? ==> |r.value.1| < |t|
  {
    var d := if t != "" && t[0] == '0' then 1 else DigitRun(t);
    if d == 0 || (d < |t| && (t[d] == '.' || t[d] == 'e' || t[d] == 'E')) then None
    else Some((NumberOf(t[..d]), t[d..]))
  }

  function ParseNumber(s: string): (r: Option<(Json, string)>)
    ensures r.Some? ==> |r.value.1| < |s|
  {
    var negative := s != "" && s[0] == '-';
    var (m, rest) :- ParseDigits(if negative then s[1..] else s);
    var n := if negative then -(m as int) else m;
    if -INT64_LIMIT <= n < INT64_LIMIT then Some((Int(n), rest)) else None
  }

  function ParseWord(s: string, word: string, v: Json): (r: Option<(Json, string)>)
    requires word != ""
    ensures r.Some? ==> |r.value.1| < |s|
  {
    if word <= s then Some((v, s[|word|..])) else None
  }

  function ParseValue(s: string): (r: Option<(Json, string)>)
    ensures r.Some? ==> |r.value.1| < |s|
    decreases |s|, 0
  {
    var t := SkipSpace(s);
    if t == "" then None
    else
      match t[0] as int
      case 0x22 =>
        var (text, rest) :- ParseChars(t[1..]);
        Some((Str(text), rest))
      case 0x5B =>
        var u := SkipSpace(t[1..]);
        if u != "" && u[0] == ']' then Some((List([]), u[1..]))
        else
          var (items, rest) :- ParseItems(t[1..]);
          Some((List(items), rest))
      case 0x7B =>
        var u := SkipSpace(t[1..]);
        if u != "" && u[0] == '}' then Some((Obj(map[]), u[1..]))
        else
          var (fields, rest) :- ParseMembers(t[1..], map[]);
          Some((Obj(fields), rest))
      case 0x6E => ParseWord(t, "null", Null)
      case 0x74 => ParseWord(t, "true", Bool(true))
      case 0x66 => ParseWord(t, "false", Bool(false))
      case _ => ParseNumber(t)
  }

  function ParseItems(s: string): (r: Option<(seq<Json>, string)>)
    ensures r.Some? ==> |r.value.1| < |s|
    decreases |s|, 1
  {
    var (v, rest) :- ParseValue(s);
    var t := SkipSpace(rest);
    if t != "" && t[0] == ']' then Some(([v], t[1..]))
    else if t != "" && t[0] == ',' then
      var (items, after) :- ParseItems(t[1..]);
      Some(([v] + items, after))
    else None
  }

  /** A repeated key keeps its last value. */
  function ParseMembers(s: string, fields: map<string, Json>): (r: Option<(map<string, Json>, string)>)
    ensures r.Some? ==> |r.value.1| < |s|
    decreases |s|, 1
  {
    var t := SkipSpace(s);
    if t == "" || t[0] != '\"' then None
    else
      var (key, rest) :- ParseChars(t[1..]);
      var u := SkipSpace(rest);
      if u == "" || u[0] != ':' then None
      else
        var (v, after) :- ParseValue(u[1..]);
        var w := SkipSpace(after);
        if w != "" && w[0] == '}' then Some((fields[key := v], w[1..]))
        else if w != "" && w[0] == ',' then ParseMembers(w[1..], fields[key := v])
        else None
  }

  /** One value; what follows may only be blank or begin with a closing bracket, as Decoder.More has it. */
  function DecodeText(s: string): Option<Json> {
    var (v, rest) :- ParseValue(s);
    var t := SkipSpace(rest);
    if t == "" || t[0] == ']' || t[0] == '}' then Some(v) else None
  }

  function DecodeJSON(data: Bytes): Option<Json> {
    var text :- DecodeUtf8(data);
    DecodeText(text)
  }

  // ---- The decoder reads back what the encoder writes ----

  lemma EscapedCharParsed(c: char, escapeSlashes: bool, rest: string)
    ensures ParseChars(EscapeChar(c, escapeSlashes) + rest) ==
            match ParseChars(rest) case None => None case Some((tail, after)) => Some(([c] + tail, after))
  {
    var e := EscapeChar(c, escapeSlashes);
    var s := e + rest;
    if |e| == 1 {
      assert s[1..] == rest;
    } else if |e| == 2 {
      assert s[1..][1..] == rest;
    } else {
      var n := c as int;
      assert s[1..][0] == 'u';
      var u := s[1..][1..];
      assert u[0] == '0' && u[1] == '0' && u[2] == HexDigit(n / 16) && u[3] == HexDigit(n % 16);
      assert Hex4(u) == Some(n);
      assert u[4..] == rest;
    }
  }

  lemma {:induction false} EscapedParsed(s: string, escapeSlashes: bool, rest: string)
    ensures ParseChars(Escape(s, escapeSlashes) + "\"" + rest) == Some((s, rest))
  {
    var tail := Escape(s, escapeSlashes) + "\"" + rest;
    if s == "" {
      assert tail == "\"" + rest && tail[1..] == rest;
    } else {
      var more := Escape(s[1..], escapeSlashes) + "\"" + rest;
      assert tail == EscapeChar(s[0], escapeSlashes) + more;
      EscapedCharParsed(s[0], escapeSlashes, more);
      EscapedParsed(s[1..], escapeSlashes, rest);
      assert s == [s[0]] + s[1..];
    }
  }

  lemma StringParsed(s: string, escapeSlashes: bool, rest: string)
    ensures var t := EncodeString(s, escapeSlashes) + rest;
            t != "" && t[0] == '\"' && ParseChars(t[1..]) == Some((s, rest))
  {
    var t := EncodeString(s, escapeSlashes) + rest;
    EscapedParsed(s, escapeSlashes, rest);
    assert t[1..] == Escape(s, escapeSlashes) + "\"" + rest;
  }

  lemma {:induction false} NumberOfSnoc(s: string, c: char)
    requires AllDigits(s) && IsDigit(c)
    ensures AllDigits(s + [c]) && NumberOf(s + [c]) == 10 * NumberOf(s) + DigitOf(c)
  {
    if s == "" {
      assert s + [c] == [c];
      assert Pow10(0) == 1;
    } else {
      assert (s + [c])[1..] == s[1..] + [c];
      NumberOfSnoc(s[1..], c);
      TimesTen(DigitOf(s[0]), |s|);
      hide Pow10;
      hide DigitOf;
    }
  }

  lemma TimesTen(d: nat, n: nat)
    requires n > 0
    ensures d * Pow10(n) == 10 * (d * Pow10(n - 1))
  {
  }

  lemma {:induction false} DecimalRead(n: nat)
    ensures NumberOf(Decimal(n)) == n
    ensures Decimal(n)[0] == '0' ==> n == 0 && |Decimal(n)| == 1
  {
    var c := '0' + (n % 10) as char;
    assert DigitOf(c) == n % 10;
    if n < 10 {
      NumberOfSnoc("", c);
      assert "" + [c] == [c];
    } else {
      DecimalRead(n / 10);
      NumberOfSnoc(Decimal(n / 10), c);
    }
  }

  /** What may follow a value inside canonical text. */
  predicate Ends(rest: string) {
    rest == "" || rest[0] == ',' || rest[0] == ']' || rest[0] == '}'
  }

  lemma {:induction false} DigitRunOf(s: string, rest: string)
    requires AllDigits(s) && (rest == "" || !IsDigit(rest[0]))
    ensures DigitRun(s + rest) == |s|
  {
    if s == "" {
      assert s + rest == rest;
    } else {
      assert (s + rest)[1..] == s[1..] + rest;
      DigitRunOf(s[1..], rest);
    }
  }

  lemma DigitsParsed(m: nat, rest: string)
    requires Ends(rest)
    ensures ParseDigits(Decimal(m) + rest) == Some((m, rest)) && Decimal(m)[0] != '-'
  {
    DecimalRead(m);
    DigitRunOf(Decimal(m), rest);
    var t := Decimal(m) + rest;
    assert t[..|Decimal(m)|] == Decimal(m) && t[|Decimal(m)|..] == rest;
    assert IsDigit(Decimal(m)[0]);
  }

  lemma NumberParsed(n: int64, rest: string)
    requires Ends(rest)
    ensures ParseNumber(FormatInt(n) + rest) == Some((Int(n), rest))
  {
    hide Decimal;
    hide ParseDigits;
    var m := if n < 0 then -(n as int) else n;
    DigitsParsed(m, rest);
    if n < 0 {
      assert (FormatInt(n) + rest)[1..] == Decimal(m) + rest;
    }
  }

  predicate StartsValue(e: string) {
    e != "" && !IsSpace(e[0]) && e[0] != ']' && e[0] != '}' && e[0] != ',' && e[0] != ':'
  }

  lemma EncodeStart(v: Json, style: Style)
    ensures StartsValue(Encode(v, style))
  {
    match v {
      case Null =>
      case Bool(b) =>
      case Int(n) =>
        var d := Decimal(if n < 0 then -(n as int) else n);
        assert IsDigit(d[0]);
      case Str(s) => assert EncodeString(s, style.escapeSlashes)[0] == '\"';
      case List(items) => assert Encode(v, style)[0] == '[';
      case Obj(fields) => assert Encode(v, style)[0] == '{';
    }
  }

  lemma Reassociate(a: string, b: string, c: string, d: string)
    ensures a + b + c + d == a + (b + (c + d)) == a + (b + c + d)
  {
  }

  lemma BracketParsed(inner: string)
    requires SkipSpace(inner) == inner && inner != ""
    ensures ParseValue("[" + inner) ==
            if inner[0] == ']' then Some((List([]), inner[1..]))
            else match ParseItems(inner) case None => None case Some((items, rest)) => Some((List(items), rest))
  {
    var s := "[" + inner;
    assert s[1..] == inner && SkipSpace(s) == s;
  }

  lemma BraceParsed(inner: string)
    requires SkipSpace(inner) == inner && inner != ""
    ensures ParseValue("{" + inner) ==
            if inner[0] == '}' then Some((Obj(map[]), inner[1..]))
            else match ParseMembers(inner, map[]) case None => None case Some((m, rest)) => Some((Obj(m), rest))
  {
    var s := "{" + inner;
    assert s[1..] == inner && SkipSpace(s) == s;
  }

  lemma ListParsed(items: seq<Json>, style: Style, rest: string)
    requires items != [] ==> ParseItems(EncodeItems(items, style) + "]" + rest) == Some((items, rest))
    ensures ParseValue(Encode(List(items), style) + rest) == Some((List(items), rest))
  {
    hide ParseItems;
    hide ParseValue;
    var inner := EncodeItems(items, style) + "]" + rest;
    Reassociate("[", EncodeItems(items, style), "]", rest);
    ListInner(items, style, rest);
    BracketParsed(inner);
  }

  lemma ListInner(items: seq<Json>, style: Style, rest: string)
    ensures var inner := EncodeItems(items, style) + "]" + rest;
            inner != "" && SkipSpace(inner) == inner
            && (if items == [] then inner[0] == ']' && inner[1..] == rest else inner[0] != ']')
  {
    hide Encode;
    if items != [] {
      EncodeStart(items[0], style);
    } else {
      assert EncodeItems(items, style) + "]" + rest == "]" + rest;
    }
  }

  lemma ObjectParsed(v: Json, style: Style, rest: string)
    requires v.Obj?
    requires var keys := SortedKeys(v.fields.Keys, style.order);
             keys != [] ==>
               ParseMembers(EncodeMembers(v, keys, style) + "}" + rest, map[]) == Some((map[] + Picked(v, keys), rest))
    ensures ParseValue(Encode(v, style) + rest) == Some((v, rest))
  {
    hide ParseMembers;
    hide ParseValue;
    var keys := SortedKeys(v.fields.Keys, style.order);
    var inner := EncodeMembers(v, keys, style) + "}" + rest;
    Reassociate("{", EncodeMembers(v, keys, style), "}", rest);
    ObjectInner(v, keys, style, rest);
    BraceParsed(inner);
  }

  lemma ObjectInner(v: Json, keys: seq<string>, style: Style, rest: string)
    requires v.Obj? && (forall k :: k in keys <==> k in v.fields)
    ensures var inner := EncodeMembers(v, keys, style) + "}" + rest;
            inner != "" && SkipSpace(inner) == inner
            && (if keys == [] then v == Obj(map[]) && inner[0] == '}' && inner[1..] == rest
                else v == Obj(map[] + Picked(v, keys)) && inner[0] == '\"')
  {
    hide Encode;
    var inner := EncodeMembers(v, keys, style) + "}" + rest;
    if keys == [] {
      assert v.fields.Keys == {} && v.fields == map[];
      assert inner == "}" + rest;
    } else {
      assert map[] + Picked(v, keys) == v.fields;
      assert inner[0] == EncodeMember(keys[0], Encode(v.fields[keys[0]], style), style)[0] == '\"';
    }
  }

  lemma ScalarParsed(v: Json, style: Style, rest: string)
    requires Ends(rest) && !v.List? && !v.Obj?
    ensures ParseValue(Encode(v, style) + rest) == Some((v, rest))
  {
    match v {
      case Null => WordParsed(v, style, rest);
      case Bool(_) => WordParsed(v, style, rest);
      case Int(n) => IntParsed(n, rest);
      case Str(t) => TextParsed(t, style, rest);
    }
    hide ParseValue;
  }

  lemma WordParsed(v: Json, style: Style, rest: string)
    requires v.Null? || v.Bool?
    ensures ParseValue(Encode(v, style) + rest) == Some((v, rest))
  {
    hide ParseNumber;
    hide ParseChars;
    var e := Encode(v, style);
    var s := e + rest;
    assert s[0] == e[0] && s[|e|..] == rest && e <= s;
    assert SkipSpace(s) == s;
  }

  lemma IntParsed(n: int64, rest: string)
    requires Ends(rest)
    ensures ParseValue(FormatInt(n) + rest) == Some((Int(n), rest))
  {
    var s := FormatInt(n) + rest;
    NumberParsed(n, rest);
    var d := Decimal(if n < 0 then -(n as int) else n);
    assert IsDigit(d[0]);
    hide Decimal;
    hide ParseNumber;
    hide ParseChars;
    assert s[0] == FormatInt(n)[0];
    assert SkipSpace(s) == s;
  }

  lemma TextParsed(t: string, style: Style, rest: string)
    ensures ParseValue(EncodeString(t, style.escapeSlashes) + rest) == Some((Str(t), rest))
  {
    hide EncodeString;
    hide ParseChars;
    hide ParseNumber;
    StringParsed(t, style.escapeSlashes, rest);
    var s := EncodeString(t, style.escapeSlashes) + rest;
    assert SkipSpace(s) == s;
  }

  lemma {:induction false} ValueParsed(v: Json, style: Style, rest: string)
    requires Ends(rest)
    ensures ParseValue(Encode(v, style) + rest) == Some((v, rest))
    decreases v, 1, 0
  {
    match v {
      case List(items) =>
        if items != [] {
          ItemsParsed(items, style, rest);
        }
        ListParsed(items, style, rest);
      case Obj(fields) =>
        var keys := SortedKeys(fields.Keys, style.order);
        if keys != [] {
          MembersParsed(v, keys, style, map[], rest);
        }
        ObjectParsed(v, style, rest);
      case _ => ScalarParsed(v, style, rest);
    }
  }

  lemma {:induction false} ItemsParsed(items: seq<Json>, style: Style, rest: string)
    requires items != []
    ensures ParseItems(EncodeItems(items, style) + "]" + rest) == Some((items, rest))
    decreases items, 0, 0
  {
    hide ParseItems;
    hide ParseValue;
    hide EncodeItems;
    hide Encode;
    var more := EncodeItems(items[1..], style) + "]" + rest;
    var after := if |items| == 1 then "]" + rest else "," + more;
    ItemsUnfold(items, style, rest);
    ValueParsed(items[0], style, after);
    ItemParsed(items[0], Encode(items[0], style), after);
    if |items| == 1 {
      assert after[1..] == rest && items == [items[0]];
    } else {
      assert after[1..] == more && items == [items[0]] + items[1..];
      ItemsParsed(items[1..], style, rest);
    }
  }

  lemma ItemsUnfold(items: seq<Json>, style: Style, rest: string)
    requires items != []
    ensures EncodeItems(items, style) + "]" + rest ==
            Encode(items[0], style) + if |items| == 1 then "]" + rest else "," + (EncodeItems(items[1..], style) + "]" + rest)
  {
    hide Encode;
  }

  /** One item, up to the comma or bracket after it. */
  lemma ItemParsed(v: Json, text: string, after: string)
    requires ParseValue(text + after) == Some((v, after))
    requires after != "" && (after[0] == ',' || after[0] == ']')
    ensures ParseItems(text + after) ==
            if after[0] == ']' then Some(([v], after[1..]))
            else
              match ParseItems(after[1..])
              case None => None
              case Some((items, rest)) => Some(([v] + items, rest))
  {
    hide ParseValue;
    assert SkipSpace(after) == after;
  }

  function Picked(v: Json, keys: seq<string>): map<string, Json>
    requires v.Obj? && forall k :: k in keys ==> k in v.fields
  {
    map k | k in keys :: v.fields[k]
  }

  /** One member, up to the comma or brace after it. */
  lemma MemberParsed(key: string, v: Json, text: string, style: Style, acc: map<string, Json>, after: string)
    requires ParseValue(text + after) == Some((v, after))
    requires after != "" && (after[0] == ',' || after[0] == '}')
    ensures ParseMembers(EncodeMember(key, text, style) + after, acc) ==
            if after[0] == '}' then Some((acc[key := v], after[1..])) else ParseMembers(after[1..], acc[key := v])
  {
    hide ParseValue;
    hide ParseChars;
    hide EncodeString;
    var tail := text + after;
    var s := EncodeMember(key, text, style) + after;
    Reassociate(EncodeString(key, style.escapeSlashes), ":", text, after);
    StringParsed(key, style.escapeSlashes, ":" + tail);
    assert SkipSpace(s) == s;
    assert SkipSpace(":" + tail) == ":" + tail && (":" + tail)[1..] == tail;
    assert SkipSpace(after) == after;
  }

  lemma MembersUnfold(v: Json, keys: seq<string>, style: Style, rest: string)
    requires v.Obj? && keys != [] && forall k :: k in keys ==> k in v.fields
    ensures var after := if |keys| == 1 then "}" + rest else "," + (EncodeMembers(v, keys[1..], style) + "}" + rest);
            EncodeMembers(v, keys, style) + "}" + rest ==
            EncodeMember(keys[0], Encode(v.fields[keys[0]], style), style) + after
  {
    hide Encode;
    hide EncodeMember;
  }

  lemma PickedStep(v: Json, keys: seq<string>, acc: map<string, Json>)
    requires v.Obj? && keys != [] && forall k :: k in keys ==> k in v.fields
    ensures acc + Picked(v, keys) == acc[keys[0] := v.fields[keys[0]]] + Picked(v, keys[1..])
  {
    assert forall k :: k in keys <==> k == keys[0] || k in keys[1..];
  }

  lemma {:induction false} MembersParsed(v: Json, keys: seq<string>, style: Style, acc: map<string, Json>, rest: string)
    requires v.Obj? && keys != [] && forall k :: k in keys ==> k in v.fields
    ensures ParseMembers(EncodeMembers(v, keys, style) + "}" + rest, acc) == Some((acc + Picked(v, keys), rest))
    decreases v, 0, |keys|
  {
    var key, value := keys[0], v.fields[keys[0]];
    var more := EncodeMembers(v, keys[1..], style) + "}" + rest;
    var after := if |keys| == 1 then "}" + rest else "," + more;
    MembersUnfold(v, keys, style, rest);
    ValueParsed(value, style, after);
    MemberParsed(key, value, Encode(value, style), style, acc, after);
    PickedStep(v, keys, acc);
    if |keys| == 1 {
      assert after[1..] == rest;
      assert keys[1..] == [] && acc[key := value] + Picked(v, keys[1..]) == acc[key := value];
    } else {
      assert after[1..] == more;
      MembersParsed(v, keys[1..], style, acc[key := value], rest);
    }
  }

  /** Decoding undoes encoding, in every key order and both slash modes. */
  lemma DecodeEncoded(v: Json, style: Style)
    ensures DecodeJSON(CanonicalJSON(v, style)) == Some(v)
  {
    var text := Encode(v, style);
    DecodeUtf8Encoded(text);
    ValueParsed(v, style, "");
    assert text + "" == text;
  }

  /** No two values share canonical bytes, whatever style either was written in. */
  lemma EncodingUnambiguous(v: Json, w: Json, styleV: Style, styleW: Style)
    requires CanonicalJSON(v, styleV) == CanonicalJSON(w, styleW)
    ensures v == w
  {
    DecodeEncoded(v, styleV);
    DecodeEncoded(w, styleW);
  }

  // ---- The encoder as the source writes it: loops over a growing buffer ----

  method WriteString(buf: string, s: string, escapeSlashes: bool) returns (out: string)
    ensures out == buf + EncodeString(s, escapeSlashes)
  {
    hide EscapeChar;
    out := buf + "\"";
    assert s[0..] == s && s[|s|..] == "" && Escape("", escapeSlashes) == "";
    hide Escape;
    for i := 0 to |s|
      invariant out + Escape(s[i..], escapeSlashes) == buf + "\"" + Escape(s, escapeSlashes)
    {
      EscapeAt(out, s, i, escapeSlashes);
      out := out + EscapeChar(s[i], escapeSlashes);
    }
    assert out + "" == out;
    out := out + "\"";
    assert out == buf + EncodeString(s, escapeSlashes);
  }

  lemma EscapeAt(out: string, s: string, i: nat, escapeSlashes: bool)
    requires i < |s|
    ensures out + Escape(s[i..], escapeSlashes) == out + EscapeChar(s[i], escapeSlashes) + Escape(s[i + 1..], escapeSlashes)
  {
    hide EscapeChar;
    assert s[i..][1..] == s[i + 1..];
  }

  /** The map's keys in whatever order iteration yields them. */
  method CollectKeys(fields: map<string, Json>) returns (keys: seq<string>)
    ensures multiset(keys) == multiset(fields.Keys)
  {
    keys := [];
    var left := fields.Keys;
    while left != {}
      invariant left <= fields.Keys && multiset(keys) + multiset(left) == multiset(fields.Keys)
      decreases |left|
    {
      var k :| k in left;
      assert multiset(left) == multiset{k} + multiset(left - {k});
      keys := keys + [k];
      left := left - {k};
    }
  }

  /** What is still to be written when i items are out. */
  function ItemsLeft(items: seq<Json>, i: nat, style: Style): string
    requires i <= |items|
  {
    (if 0 < i < |items| then "," else "") + EncodeItems(items[i..], style)
  }

  lemma ItemsLeftStep(text: string, out: string, items: seq<Json>, i: nat, style: Style)
    requires i < |items| && text == out + ItemsLeft(items, i, style)
    ensures text == (if i > 0 then out + "," else out) + Encode(items[i], style) + ItemsLeft(items, i + 1, style)
  {
    hide Encode;
    assert items[i..][1..] == items[i + 1..];
    if i + 1 == |items| {
      assert ItemsLeft(items, i + 1, style) == "";
    }
  }

  method WriteItems(buf: string, items: seq<Json>, style: Style) returns (out: string)
    ensures out == buf + EncodeItems(items, style)
    decreases items, 0
  {
    out := buf;
    ghost var text := buf + EncodeItems(items, style);
    assert items[0..] == items;
    for i := 0 to |items|
      invariant text == out + ItemsLeft(items, i, style)
    {
      ItemsLeftStep(text, out, items, i, style);
      if i > 0 {
        out := out + ",";
      }
      out := WriteValue(out, items[i], style);
    }
    assert ItemsLeft(items, |items|, style) == "";
  }

  function MembersLeft(v: Json, keys: seq<string>, i: nat, style: Style): string
    requires v.Obj? && (forall k :: k in keys ==> k in v.fields) && i <= |keys|
  {
    (if 0 < i < |keys| then "," else "") + EncodeMembers(v, keys[i..], style)
  }

  lemma MembersLeftStep(text: string, out: string, v: Json, keys: seq<string>, i: nat, style: Style)
    requires v.Obj? && (forall k :: k in keys ==> k in v.fields) && i < |keys|
    requires text == out + MembersLeft(v, keys, i, style)
    ensures text == (if i > 0 then out + "," else out) + EncodeMember(keys[i], Encode(v.fields[keys[i]], style), style)
                    + MembersLeft(v, keys, i + 1, style)
  {
    hide Encode;
    hide EncodeMember;
    assert keys[i..][1..] == keys[i + 1..];
    if i + 1 == |keys| {
      assert MembersLeft(v, keys, i + 1, style) == "";
    }
  }

  method WriteMember(buf: string, key: string, v: Json, style: Style) returns (out: string)
    ensures out == buf + EncodeMember(key, Encode(v, style), style)
    decreases v, 3
  {
    out := WriteString(buf, key, style.escapeSlashes);
    out := out + ":";
    out := WriteValue(out, v, style);
  }

  method WriteMembers(buf: string, v: Json, keys: seq<string>, style: Style) returns (out: string)
    requires v.Obj? && forall k :: k in keys ==> k in v.fields
    ensures out == buf + EncodeMembers(v, keys, style)
    decreases v, 0
  {
    out := buf;
    ghost var text := buf + EncodeMembers(v, keys, style);
    assert keys[0..] == keys;
    for i := 0 to |keys|
      invariant text == out + MembersLeft(v, keys, i, style)
    {
      MembersLeftStep(text, out, v, keys, i, style);
      if i > 0 {
        out := out + ",";
      }
      out := WriteMember(out, keys[i], v.fields[keys[i]], style);
    }
    assert MembersLeft(v, keys, |keys|, style) == "";
  }

  method KeysInOrder(fields: map<string, Json>, order: Order) returns (keys: seq<string>)
    ensures keys == SortedKeys(fields.Keys, order)
  {
    var collected := CollectKeys(fields);
    keys := SortKeys(collected, order);
  }

  method WriteObject(buf: string, v: Json, style: Style) returns (out: string)
    requires v.Obj?
    ensures out == buf + Encode(v, style)
    decreases v, 1
  {
    var keys := KeysInOrder(v.fields, style.order);
    out := WriteMembers(buf + "{", v, keys, style);
    out := out + "}";
    Reassociate(buf, "{", EncodeMembers(v, keys, style), "}");
  }

  method WriteList(buf: string, items: seq<Json>, style: Style) returns (out: string)
    ensures out == buf + Encode(List(items), style)
    decreases items, 1
  {
    out := WriteItems(buf + "[", items, style);
    out := out + "]";
    Reassociate(buf, "[", EncodeItems(items, style), "]");
  }

  method WriteValue(buf: string, v: Json, style: Style) returns (out: string)
    ensures out == buf + Encode(v, style)
    decreases v, 2
  {
    match v
    case Null =>
      out := buf + "null";
    case Bool(b) =>
      out := buf + (if b then "true" else "false");
    case Int(n) =>
      out := buf + FormatInt(n);
    case Str(s) =>
      out := WriteString(buf, s, style.escapeSlashes);
    case List(items) =>
      out := WriteList(buf, items, style);
    case Obj(fields) =>
      out := WriteObject(buf, v, style);
  }
}
