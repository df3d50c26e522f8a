/** The canonical text itself, from RFC 8259's own pieces: what stands for each scalar, and how the two slash modes differ. */
module JsonText {
  import opened Prelude
  import opened Text
  import opened KeyOrder
  import opened JsonCodec
  import Wire

  // ---- One scalar ----

  const HEX := "0123456789abcdef"

  /** The letter after the backslash in the two-character forms of section 7 of RFC 8259. */
  const SHORT_FORMS := map[
    '\"' := '\"', '\\' := '\\', '\U{8}' := 'b', '\U{9}' := 't', '\U{A}' := 'n', '\U{C}' := 'f', '\U{D}' := 'r']

  /** What stands for a scalar inside a string, with "/" written as "\/" or as itself. */
  function Form(c: char, escapeSlashes: bool): string {
    if c in SHORT_FORMS then ['\\', SHORT_FORMS[c]]
    else if c < ' ' then "\\u00" + [HEX[c as int / 16], HEX[c as int % 16]]
    else if c == '/' && escapeSlashes then "\\/"
    else [c]
  }

  lemma HexDigits(n: nat)
    requires n < 16
    ensures HexDigit(n) == HEX[n]
  {
  }

  /** The encoder's table is that one. */
  lemma EscapeIsForm(c: char, escapeSlashes: bool)
    ensures EscapeChar(c, escapeSlashes) == Form(c, escapeSlashes)
  {
    var n := c as int;
    if n < 0x20 && n != 8 && n != 9 && n != 10 && n != 12 && n != 13 {
      HexDigits(n / 16);
      HexDigits(n % 16);
      assert c !in SHORT_FORMS;
    }
  }

  // ---- Strings, lists and objects ----

  function Flat(pieces: seq<string>): string {
    if pieces == [] then "" else pieces[0] + Flat(pieces[1..])
  }

  function Joined(pieces: seq<string>): string {
    if pieces == [] then "" else if |pieces| == 1 then pieces[0] else pieces[0] + "," + Joined(pieces[1..])
  }

  function Forms(s: string, escapeSlashes: bool): seq<string> {
    seq(|s|, i requires 0 <= i < |s| => Form(s[i], escapeSlashes))
  }

  function Texts(items: seq<Json>, style: Style): seq<string> {
    seq(|items|, i requires 0 <= i < |items| => Encode(items[i], style))
  }

  lemma {:induction false} EscapeIsForms(s: string, escapeSlashes: bool)
    ensures Escape(s, escapeSlashes) == Flat(Forms(s, escapeSlashes))
  {
    if s != "" {
      EscapeIsForm(s[0], escapeSlashes);
      EscapeIsForms(s[1..], escapeSlashes);
      assert Forms(s, escapeSlashes) == [Form(s[0], escapeSlashes)] + Forms(s[1..], escapeSlashes);
      hide Form;
      hide EscapeChar;
    }
  }

  lemma {:induction false} ItemsJoined(items: seq<Json>, style: Style)
    ensures EncodeItems(items, style) == Joined(Texts(items, style))
    decreases |items|
  {
    if items != [] {
      ItemsJoined(items[1..], style);
      assert Texts(items, style) == [Encode(items[0], style)] + Texts(items[1..], style);
    }
  }

  /** What every value but an object is written as. */
  lemma ValueText(v: Json, style: Style)
    ensures v.Null? ==> Encode(v, style) == "null"
    ensures v.Bool? ==> Encode(v, style) == if v.b then "true" else "false"
    ensures v.Str? ==> Encode(v, style) == "\"" + Flat(Forms(v.s, style.escapeSlashes)) + "\""
    ensures v.List? ==> Encode(v, style) == "[" + Joined(Texts(v.items, style)) + "]"
  {
    if v.Str? {
      EscapeIsForms(v.s, style.escapeSlashes);
    } else if v.List? {
      ItemsJoined(v.items, style);
    }
  }

  /** The digits of a number, without a leading zero. */
  predicate Numeral(d: string, n: int) {
    d != "" && AllDigits(d) && (d[0] == '0' ==> d == "0") && NumberOf(d) == n
  }

  lemma NumberText(n: int64, style: Style)
    ensures n >= 0 ==> Numeral(Encode(Int(n), style), n)
    ensures n < 0 ==> Encode(Int(n), style) != "" && Encode(Int(n), style)[0] == '-' && Numeral(Encode(Int(n), style)[1..], -(n as int))
  {
    var m := if n < 0 then -(n as int) else n;
    DecimalRead(m);
    hide Decimal;
    hide NumberOf;
    assert ("-" + Decimal(m))[1..] == Decimal(m);
  }

  function MemberText(key: string, text: string, escapeSlashes: bool): string {
    "\"" + Flat(Forms(key, escapeSlashes)) + "\"" + ":" + text
  }

  function Members(v: Json, keys: seq<string>, style: Style): (ms: seq<string>)
    requires v.Obj? && forall k :: k in keys ==> k in v.fields
    ensures |ms| == |keys| && forall i :: 0 <= i < |ms| ==> ms[i] == MemberText(keys[i], Encode(v.fields[keys[i]], style), style.escapeSlashes)
  {
    seq(|keys|, i requires 0 <= i < |keys| => MemberText(keys[i], Encode(v.fields[keys[i]], style), style.escapeSlashes))
  }

  lemma MemberIsText(key: string, text: string, style: Style)
    ensures EncodeMember(key, text, style) == MemberText(key, text, style.escapeSlashes)
  {
    EscapeIsForms(key, style.escapeSlashes);
  }

  lemma MembersCons(v: Json, keys: seq<string>, style: Style)
    requires v.Obj? && keys != [] && forall k :: k in keys ==> k in v.fields
    ensures Members(v, keys, style)
            == [MemberText(keys[0], Encode(v.fields[keys[0]], style), style.escapeSlashes)] + Members(v, keys[1..], style)
  {
    hide MemberText;
    hide Encode;
  }

  lemma {:induction false} MembersJoined(v: Json, keys: seq<string>, style: Style)
    requires v.Obj? && forall k :: k in keys ==> k in v.fields
    ensures EncodeMembers(v, keys, style) == Joined(Members(v, keys, style))
    decreases |keys|
  {
    if keys != [] {
      MembersCons(v, keys, style);
      MemberIsText(keys[0], Encode(v.fields[keys[0]], style), style);
      MembersJoined(v, keys[1..], style);
      hide MemberText;
      hide EncodeMember;
    }
  }

  /** An object is its members in key order, however its keys are listed to begin with. */
  lemma ObjectText(v: Json, keys: seq<string>, style: Style)
    requires v.Obj? && multiset(keys) == multiset(v.fields.Keys) && Sorted(keys, style.order)
    ensures (forall k :: k in keys ==> k in v.fields) && Encode(v, style) == "{" + Joined(Members(v, keys, style)) + "}"
  {
    SortedKeysUnique(v.fields.Keys, style.order, keys);
    MembersThere(v, keys);
    MembersJoined(v, keys, style);
    ObjectUnfold(v, style);
    hide Encode;
    hide EncodeMembers;
    hide Members;
    hide Joined;
    hide SortedKeys;
    hide Sorted;
  }

  lemma MembersThere(v: Json, keys: seq<string>)
    requires v.Obj? && multiset(keys) == multiset(v.fields.Keys)
    ensures forall k :: k in keys ==> k in v.fields
  {
    assert forall k :: k in keys ==> k in multiset(keys);
  }

  lemma ObjectUnfold(v: Json, style: Style)
    requires v.Obj?
    ensures Encode(v, style) == "{" + EncodeMembers(v, SortedKeys(v.fields.Keys, style.order), style) + "}"
  {
  }

  // ---- The two slash modes ----

  /** The text with every "/" written as "\/". */
  function Slashed(t: string): string {
    if t == "" then "" else (if t[0] == '/' then "\\/" else [t[0]]) + Slashed(t[1..])
  }

  lemma {:induction false} SlashedConcat(a: string, b: string)
    ensures Slashed(a + b) == Slashed(a) + Slashed(b)
  {
    assert Slashed("") == "";
    hide Slashed;
    if a == "" {
      assert a + b == b;
    } else {
      var first := if a[0] == '/' then "\\/" else [a[0]];
      SlashedCons(a[0], a[1..] + b);
      SlashedCons(a[0], a[1..]);
      SlashedConcat(a[1..], b);
      assert a + b == [a[0]] + (a[1..] + b) && a == [a[0]] + a[1..];
      assert first + (Slashed(a[1..]) + Slashed(b)) == first + Slashed(a[1..]) + Slashed(b);
    }
  }

  lemma SlashedCons(c: char, t: string)
    ensures Slashed([c] + t) == (if c == '/' then "\\/" else [c]) + Slashed(t)
  {
    assert ([c] + t)[1..] == t;
  }

  lemma {:induction false} SlashedNone(t: string)
    requires '/' !in t
    ensures Slashed(t) == t
  {
    if t != "" {
      SlashedNone(t[1..]);
      assert t == [t[0]] + t[1..];
    }
  }

  lemma CharSlashed(c: char)
    ensures EscapeChar(c, true) == Slashed(EscapeChar(c, false))
  {
    var e := EscapeChar(c, false);
    if c == '/' {
      assert e == "/" && Slashed("/") == "\\/" + Slashed("");
    } else {
      assert '/' !in e;
      SlashedNone(e);
    }
  }

  lemma {:induction false} StringSlashed(s: string)
    ensures Escape(s, true) == Slashed(Escape(s, false))
  {
    if s != "" {
      CharSlashed(s[0]);
      StringSlashed(s[1..]);
      SlashedConcat(EscapeChar(s[0], false), Escape(s[1..], false));
      hide EscapeChar;
    }
  }

  lemma QuotedSlashed(s: string)
    ensures EncodeString(s, true) == Slashed(EncodeString(s, false))
  {
    StringSlashed(s);
    Wrapped("\"", Escape(s, false), "\"");
  }

  lemma Wrapped(open: string, t: string, close: string)
    requires '/' !in open && '/' !in close
    ensures Slashed(open + t + close) == open + Slashed(t) + close
  {
    SlashedConcat(open + t, close);
    SlashedConcat(open, t);
    SlashedNone(open);
    SlashedNone(close);
  }

  lemma DigitsUnslashed(n: int)
    ensures '/' !in FormatInt(n)
  {
    hide Decimal;
  }

  /** Escaping slashes is writing every "/" of the text as "\/", and nothing else: keys, order and the rest are the same. */
  lemma {:induction false} SlashModes(v: Json, order: Order)
    ensures Encode(v, Style(order, true)) == Slashed(Encode(v, Style(order, false)))
    decreases v, 1, 0
  {
    var on, off := Style(order, true), Style(order, false);
    match v {
      case Null => SlashedNone("null");
      case Bool(b) => SlashedNone(if b then "true" else "false");
      case Int(n) =>
        DigitsUnslashed(n);
        SlashedNone(FormatInt(n));
      case Str(s) => QuotedSlashed(s);
      case List(items) =>
        ItemsSlashed(items, order);
        Wrapped("[", EncodeItems(items, off), "]");
      case Obj(fields) =>
        var keys := SortedKeys(fields.Keys, order);
        MembersSlashed(v, keys, order);
        Wrapped("{", EncodeMembers(v, keys, off), "}");
    }
  }

  lemma {:induction false} ItemsSlashed(items: seq<Json>, order: Order)
    ensures EncodeItems(items, Style(order, true)) == Slashed(EncodeItems(items, Style(order, false)))
    decreases items, 0, 0
  {
    var off := Style(order, false);
    if items != [] {
      SlashModes(items[0], order);
      ItemsSlashed(items[1..], order);
      var tail := if |items| == 1 then "" else "," + EncodeItems(items[1..], off);
      assert EncodeItems(items, off) == Encode(items[0], off) + tail;
      SlashedConcat(Encode(items[0], off), tail);
      if |items| > 1 {
        SlashedConcat(",", EncodeItems(items[1..], off));
        SlashedNone(",");
      }
    }
  }

  lemma {:induction false} MembersSlashed(v: Json, keys: seq<string>, order: Order)
    requires v.Obj? && forall k :: k in keys ==> k in v.fields
    ensures EncodeMembers(v, keys, Style(order, true)) == Slashed(EncodeMembers(v, keys, Style(order, false)))
    decreases v, 0, |keys|
  {
    var off := Style(order, false);
    if keys != [] {
      SlashModes(v.fields[keys[0]], order);
      MembersSlashed(v, keys[1..], order);
      var head := EncodeMember(keys[0], Encode(v.fields[keys[0]], off), off);
      var tail := if |keys| == 1 then "" else "," + EncodeMembers(v, keys[1..], off);
      MemberSlashed(keys[0], Encode(v.fields[keys[0]], off), order);
      assert EncodeMembers(v, keys, off) == head + tail;
      SlashedConcat(head, tail);
      if |keys| > 1 {
        SlashedConcat(",", EncodeMembers(v, keys[1..], off));
        SlashedNone(",");
      }
    }
  }

  lemma MemberSlashed(key: string, text: string, order: Order)
    ensures EncodeMember(key, Slashed(text), Style(order, true)) == Slashed(EncodeMember(key, text, Style(order, false)))
  {
    QuotedSlashed(key);
    SlashedConcat(EncodeString(key, false) + ":", text);
    SlashedConcat(EncodeString(key, false), ":");
    SlashedNone(":");
  }

  /** In a text so written each "/" follows the backslash written for it. */
  lemma {:induction false} SlashedFollows(t: string, i: nat)
    requires i < |Slashed(t)| && Slashed(t)[i] == '/'
    ensures i > 0 && Slashed(t)[i - 1] == '\\'
  {
    var head := if t[0] == '/' then "\\/" else [t[0]];
    if i >= |head| {
      SlashedFollows(t[1..], i - |head|);
    }
  }

  /** A text of plain characters, slashes among them, stands for itself in a string when slashes are not escaped. */
  lemma {:induction false} PlainStands(s: string)
    requires forall i :: 0 <= i < |s| ==> s[i] >= ' ' && s[i] != '\"' && s[i] != '\\'
    ensures EncodeString(s, false) == "\"" + s + "\"" && EncodeString(s, true) == "\"" + Slashed(s) + "\""
  {
    PlainEscaped(s);
    StringSlashed(s);
  }

  lemma {:induction false} PlainEscaped(s: string)
    requires forall i :: 0 <= i < |s| ==> s[i] >= ' ' && s[i] != '\"' && s[i] != '\\'
    ensures Escape(s, false) == s
  {
    if s != "" {
      PlainEscaped(s[1..]);
      assert s == [s[0]] + s[1..];
    }
  }

  /**
   * What is signed escapes its slashes and orders keys Foundation's way, and encoded models escape them and order by
   * code point; credentials, presentations and the handshake's frames leave them as they are.
   */
  lemma StylesUsed(m: Wire.Model, s: Wire.Schema, excluded: set<string>, fold: Fold)
    requires Wire.Fits(m, s) && Wire.ToWire(m, s).Ok?
    ensures var w := Wire.ToWire(m, s).value;
            && Wire.SignedBytes(m, s, excluded, fold) == Ok(Utf8(Slashed(Encode(Obj(w - excluded), Style(Foundation(fold), false)))))
            && Wire.EncodedJSON(m, s) == Ok(Utf8(Slashed(Encode(Obj(w), Style(CodePoint, false)))))
    ensures CHANNEL_STYLE == Style(CodePoint, false)
  {
    var w := Wire.ToWire(m, s).value;
    SlashModes(Obj(w - excluded), Foundation(fold));
    SlashModes(Obj(w), CodePoint);
    hide Encode;
    hide Slashed;
    hide Wire.ToWire;
  }
}
