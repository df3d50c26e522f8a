/** Wire models: a schema tells how a struct becomes the JSON object others sign and read. */
module Wire {
  import opened Prelude
  import opened KeyOrder
  import opened JsonCodec
  import Base64

  /** Kinds of field. Pointers and slices may be nil; structs may not. */
  datatype Kind =
    | TText
    | TInt
    | TFlag
    | TBytes
    | TTexts
    | TTextPtr
    | TPtr(schema: Schema)
    | TStruct(schema: Schema)
    | TList(schema: Schema)
    | TAny
  {
    predicate IsPointer() {
      TTextPtr? || TPtr?
    }

    predicate IsSlice() {
      TBytes? || TTexts? || TList?
    }
  }

  /** What a model's encode and decode hooks do with one key. */
  datatype Rule =
    | Plain
    | ElideEmpty                          // left out when empty
    | ElideDefault(items: seq<string>)    // left out when nil or the default, which a reader puts back
    | Fallback(json: Json)                // a reader puts this in when it is missing
    | ExplicitNull                        // written as null when it would be left out

  datatype Field = Field(key: string, optional: bool, kind: Kind, rule: Rule)

  datatype Schema = Schema(fields: seq<Field>)

  datatype Value =
    | Nil
    | Text(s: string)
    | Number(n: int64)
    | Flag(b: bool)
    | Blob(data: Bytes)
    | Texts(texts: seq<string>)
    | Rec(values: seq<Value>)
    | Recs(items: seq<Value>)
    | Any(json: Json)

  type Model = seq<Value>

  // ---- Typing ----

  predicate HasKind(v: Value, k: Kind)
    decreases k, 0
  {
    match k
    case TText => v.Text?
    case TInt => v.Number?
    case TFlag => v.Flag?
    case TBytes => v.Nil? || v.Blob?
    case TTexts => v.Nil? || v.Texts?
    case TTextPtr => v.Nil? || v.Text?
    case TPtr(s) => v.Nil? || (v.Rec? && Fits(v.values, s))
    case TStruct(s) => v.Rec? && Fits(v.values, s)
    case TList(s) => v.Nil? || (v.Recs? && forall i :: 0 <= i < |v.items| ==> v.items[i].Rec? && Fits(v.items[i].values, s))
    case TAny => v.Any?
  }

  predicate Fits(m: Model, s: Schema)
    decreases s, 1
  {
    |m| == |s.fields| && forall i :: 0 <= i < |m| ==> HasKind(m[i], s.fields[i].kind)
  }

  predicate KeysDiffer(fs: seq<Field>) {
    forall i, j :: 0 <= i < j < |fs| ==> fs[i].key != fs[j].key
  }

  /** The keys from lo up to hi differ from all before them. */
  predicate KeysApart(fs: seq<Field>, lo: nat, hi: nat)
    requires hi <= |fs|
  {
    forall i, j :: 0 <= i < j && lo <= j < hi ==> fs[i].key != fs[j].key
  }

  predicate RuleFits(f: Field) {
    match f.rule
    case Plain => true
    case ElideEmpty => f.optional && f.kind.IsSlice()
    case ElideDefault(_) => f.optional && f.kind.TTexts?
    case Fallback(json) => f.kind.TText? || f.kind.TInt? || f.kind.TFlag?
    case ExplicitNull => f.optional && f.kind.IsSlice()
  }

  /** A schema a Go struct can have: distinct keys, and hooks only where the models put them. */
  predicate WellMade(s: Schema)
    decreases s, 1
  {
    KeysDiffer(s.fields) && forall i :: 0 <= i < |s.fields| ==> RuleFits(s.fields[i]) && KindWellMade(s.fields[i].kind)
  }

  predicate KindWellMade(k: Kind)
    decreases k, 0
  {
    match k
    case TPtr(s) => WellMade(s)
    case TStruct(s) => WellMade(s)
    case TList(s) => WellMade(s)
    case _ => true
  }

  lemma WellMadeFrom(s: Schema)
    requires KeysDiffer(s.fields)
    requires forall i :: 0 <= i < |s.fields| ==> RuleFits(s.fields[i]) && KindWellMade(s.fields[i].kind)
    ensures WellMade(s)
  {
  }

  predicate IsNil(v: Value) {
    v == Nil || v == Any(Null)
  }

  predicate IsEmpty(v: Value) {
    v == Nil || v == Blob([]) || v == Texts([]) || v == Recs([])
  }

  // ---- Encoding ----

  function EncodeField(v: Value, k: Kind): Result<Json>
    requires HasKind(v, k)
    decreases k, 0, 0
  {
    match k
    case TText => Ok(Str(v.s))
    case TInt => Ok(Int(v.n))
    case TFlag => Ok(Bool(v.b))
    case TBytes => Ok(Str(Base64.Encode(if v.Nil? then [] else v.data)))
    case TTexts => Ok(List(TextItems(if v.Nil? then [] else v.texts)))
    case TTextPtr => Ok(if v.Nil? then Null else Str(v.s))
    case TPtr(s) => if v.Nil? then Ok(Null) else AsObject(ToWire(v.values, s))
    case TStruct(s) => AsObject(ToWire(v.values, s))
    case TList(s) =>
      var items :- EncodeItems(if v.Nil? then [] else v.items, s);
      Ok(List(items))
    case TAny => Ok(v.json)
  }

  function AsObject(r: Result<map<string, Json>>): Result<Json> {
    var w :- r;
    Ok(Obj(w))
  }

  function TextItems(texts: seq<string>): (items: seq<Json>)
    ensures |items| == |texts| && forall i :: 0 <= i < |items| ==> items[i] == Str(texts[i])
  {
    seq(|texts|, i requires 0 <= i < |texts| => Str(texts[i]))
  }

  predicate ItemsFit(items: seq<Value>, s: Schema) {
    forall i :: 0 <= i < |items| ==> items[i].Rec? && Fits(items[i].values, s)
  }

  function EncodeItems(items: seq<Value>, s: Schema): Result<seq<Json>>
    requires ItemsFit(items, s)
    decreases s, 1, |items|
  {
    if items == [] then Ok([])
    else
      var init :- EncodeItems(items[..|items| - 1], s);
      var last :- ToWire(items[|items| - 1].values, s);
      Ok(init + [Obj(last)])
  }

  function EncodeFields(m: Model, fs: seq<Field>): Result<map<string, Json>>
    requires |m| == |fs| && forall i :: 0 <= i < |m| ==> HasKind(m[i], fs[i].kind)
    decreases fs, 0, 0
  {
    if fs == [] then Ok(map[])
    else
      var n := |fs| - 1;
      var w :- EncodeFields(m[..n], fs[..n]);
      if IsNil(m[n]) && fs[n].optional then Ok(w)
      else if m[n].Nil? && fs[n].kind.IsPointer() then Err(fs[n].key + " is required")
      else
        var json :- EncodeField(m[n], fs[n].kind);
        Ok(w[fs[n].key := json])
  }

  /** One key after the encode hook. */
  function Hooked(w: map<string, Json>, v: Value, f: Field): map<string, Json> {
    match f.rule
    case ElideEmpty => if IsEmpty(v) then w - {f.key} else w
    case ElideDefault(items) => if v == Nil || v == Texts(items) then w - {f.key} else w
    case ExplicitNull => if f.key in w then w else w[f.key := Null]
    case _ => w
  }

  function AfterEncode(w: map<string, Json>, m: Model, fs: seq<Field>): map<string, Json>
    requires |m| == |fs|
  {
    if fs == [] then w
    else
      var n := |fs| - 1;
      Hooked(AfterEncode(w, m[..n], fs[..n]), m[n], fs[n])
  }

  function ToWire(m: Model, s: Schema): Result<map<string, Json>>
    requires Fits(m, s)
    decreases s, 0, 0
  {
    var w :- EncodeFields(m, s.fields);
    Ok(AfterEncode(w, m, s.fields))
  }

  // ---- Decoding ----

  /** What a Go variable of this kind holds before it is set. */
  function Zero(k: Kind): (v: Value)
    ensures HasKind(v, k)
    decreases k
  {
    match k
    case TText => Text("")
    case TInt => Number(0)
    case TFlag => Flag(false)
    case TStruct(s) => Rec(Zeros(s.fields))
    case TAny => Any(Null)
    case _ => Nil
  }

  function Zeros(fs: seq<Field>): (m: Model)
    ensures |m| == |fs| && forall i :: 0 <= i < |m| ==> HasKind(m[i], fs[i].kind)
    decreases fs
  {
    seq(|fs|, i requires 0 <= i < |fs| => Zero(fs[i].kind))
  }

  function At(w: map<string, Json>, key: string): Json {
    if key in w then w[key] else Null
  }

  /** The decode hook works on a copy: defaults go in where nothing stands. */
  function BeforeDecode(w: map<string, Json>, fs: seq<Field>): map<string, Json> {
    if fs == [] then w
    else
      var f := fs[|fs| - 1];
      var w' := BeforeDecode(w, fs[..|fs| - 1]);
      if At(w', f.key) != Null then w'
      else
        match f.rule
        case ElideDefault(items) => w'[f.key := List(TextItems(items))]
        case Fallback(json) => w'[f.key := json]
        case _ => w'
  }

  function DecodeTexts(items: seq<Json>): Result<seq<string>> {
    if items == [] then Ok([])
    else
      var init :- DecodeTexts(items[..|items| - 1]);
      if items[|items| - 1].Str? then Ok(init + [items[|items| - 1].s]) else Err("expected list of strings")
  }

  function DecodeBytes(raw: Json): Result<Value> {
    if !raw.Str? then Err("expected base64 string")
    else
      match Base64.Decode(raw.s)
      case None => Err("invalid base64")
      case Some(data) => Ok(Blob(data))
  }

  function DecodeField(raw: Json, k: Kind): Result<Value>
    decreases k, 0, 0
  {
    match k
    case TText => if raw.Str? then Ok(Text(raw.s)) else Err("expected string")
    case TInt => if raw.Int? then Ok(Number(raw.n)) else Err("expected integer")
    case TFlag => if raw.Bool? then Ok(Flag(raw.b)) else Err("expected bool")
    case TBytes => DecodeBytes(raw)
    case TTexts =>
      if !raw.List? then Err("expected list")
      else
        var texts :- DecodeTexts(raw.items);
        Ok(Texts(texts))
    case TTextPtr => if raw.Str? then Ok(Text(raw.s)) else Err("expected string")
    case TPtr(s) =>
      var m :- FromWire(raw, s);
      Ok(Rec(m))
    case TStruct(s) =>
      var m :- FromWire(raw, s);
      Ok(Rec(m))
    case TList(s) =>
      if !raw.List? then Err("expected list")
      else
        var items :- DecodeItems(raw.items, s);
        Ok(Recs(items))
    case TAny => Ok(Any(raw))
  }

  function DecodeItems(items: seq<Json>, s: Schema): Result<seq<Value>>
    decreases s, 1, |items|
  {
    if items == [] then Ok([])
    else
      var init :- DecodeItems(items[..|items| - 1], s);
      var last :- FromWire(items[|items| - 1], s);
      Ok(init + [Rec(last)])
  }

  function DecodeOne(w: map<string, Json>, f: Field): Result<Value>
    decreases f, 0, 0
  {
    var raw := At(w, f.key);
    if raw != Null then DecodeField(raw, f.kind)
    else if f.optional then Ok(Zero(f.kind))
    else Err("missing " + f.key)
  }

  function DecodeFields(w: map<string, Json>, fs: seq<Field>): Result<Model>
    decreases fs, 0, 0
  {
    if fs == [] then Ok([])
    else
      var init :- DecodeFields(w, fs[..|fs| - 1]);
      var last :- DecodeOne(w, fs[|fs| - 1]);
      Ok(init + [last])
  }

  function FromWire(raw: Json, s: Schema): Result<Model>
    decreases s, 0, 0
  {
    if !raw.Obj? then Err("expected a JSON object")
    else DecodeFields(BeforeDecode(raw.fields, s.fields), s.fields)
  }

  // ---- Bytes ----

  function EncodedJSON(m: Model, s: Schema): Result<Bytes>
    requires Fits(m, s)
  {
    var w :- ToWire(m, s);
    Ok(CanonicalJSON(Obj(w), ENCODER_STYLE))
  }

  function SignedBytes(m: Model, s: Schema, excluded: set<string>, fold: Fold): Result<Bytes>
    requires Fits(m, s)
  {
    var w :- ToWire(m, s);
    Ok(CanonicalJSON(Obj(w - excluded), Style(Foundation(fold), true)))
  }

  function Decode(data: Bytes, s: Schema): Result<Model> {
    match DecodeJSON(data)
    case None => Err("malformed")
    case Some(json) => FromWire(json, s)
  }

  // ---- What a reader gets back ----

  /** Nil slices that must be written come back empty, elided ones nil, elided defaults as the default. */
  function Normal(v: Value, k: Kind): (r: Value)
    requires HasKind(v, k)
    ensures HasKind(r, k) && (IsNil(r) <==> IsNil(v))
    decreases k, 0
  {
    match k
    case TPtr(s) => if v.Nil? then Nil else Rec(NormalModel(v.values, s))
    case TStruct(s) => Rec(NormalModel(v.values, s))
    case TList(s) =>
      if v.Nil? then Nil
      else Recs(seq(|v.items|, i requires 0 <= i < |v.items| => Rec(NormalModel(v.items[i].values, s))))
    case _ => v
  }

  function NormalOne(v: Value, f: Field): (r: Value)
    requires HasKind(v, f.kind) && RuleFits(f)
    ensures HasKind(r, f.kind)
    decreases f, 0
  {
    if f.rule.ElideDefault? && v.Nil? then Texts(f.rule.items)
    else if f.rule.ElideEmpty? && IsEmpty(v) then Nil
    else if v.Nil? && !f.optional then (if f.kind.TBytes? then Blob([]) else if f.kind.TTexts? then Texts([]) else if f.kind.TList? then Recs([]) else Nil)
    else Normal(v, f.kind)
  }

  function NormalModel(m: Model, s: Schema): (r: Model)
    requires Fits(m, s)
    ensures Fits(r, s)
    decreases s, 1
  {
    seq(|m|, i requires 0 <= i < |m| =>
      if RuleFits(s.fields[i]) then NormalOne(m[i], s.fields[i]) else m[i])
  }

  /** Nothing required is missing, at any depth. */
  predicate Complete(v: Value, k: Kind)
    requires HasKind(v, k)
    decreases k, 0
  {
    match k
    case TPtr(s) => v.Rec? ==> CompleteModel(v.values, s)
    case TStruct(s) => CompleteModel(v.values, s)
    case TList(s) => v.Recs? ==> forall i :: 0 <= i < |v.items| ==> CompleteModel(v.items[i].values, s)
    case _ => true
  }

  predicate CompleteOne(v: Value, f: Field)
    requires HasKind(v, f.kind)
    decreases f, 0
  {
    (IsNil(v) ==> f.optional || f.kind.IsSlice()) && Complete(v, f.kind)
  }

  predicate CompleteModel(m: Model, s: Schema)
    requires Fits(m, s)
    decreases s, 1
  {
    forall i :: 0 <= i < |m| ==> CompleteOne(m[i], s.fields[i])
  }

  /** A schema all of whose models are complete: no pointer and no `any` is required. */
  predicate NeverLacks(s: Schema)
    decreases s, 1
  {
    forall i :: 0 <= i < |s.fields| ==>
      && (s.fields[i].optional || !(s.fields[i].kind.IsPointer() || s.fields[i].kind.TAny?))
      && KindNeverLacks(s.fields[i].kind)
  }

  predicate KindNeverLacks(k: Kind)
    decreases k, 0
  {
    match k
    case TPtr(s) => NeverLacks(s)
    case TStruct(s) => NeverLacks(s)
    case TList(s) => NeverLacks(s)
    case _ => true
  }

  lemma {:induction false} NothingLacking(m: Model, s: Schema)
    requires Fits(m, s) && NeverLacks(s)
    ensures CompleteModel(m, s)
    decreases s, 1
  {
    forall i | 0 <= i < |m|
      ensures Complete(m[i], s.fields[i].kind)
    {
      NothingLackingIn(m[i], s.fields[i].kind);
    }
  }

  lemma {:induction false} NothingLackingIn(v: Value, k: Kind)
    requires HasKind(v, k) && KindNeverLacks(k)
    ensures Complete(v, k)
    decreases k, 0
  {
    match k
    case TPtr(s) =>
      if v.Rec? {
        NothingLacking(v.values, s);
      }
    case TStruct(s) => NothingLacking(v.values, s);
    case TList(s) =>
      if v.Recs? {
        forall i | 0 <= i < |v.items|
          ensures CompleteModel(v.items[i].values, s)
        {
          NothingLacking(v.items[i].values, s);
        }
      }
    case _ =>
  }

  // ---- One key at a time ----

  function Entry(w: map<string, Json>, key: string): Option<Json> {
    if key in w then Some(w[key]) else None
  }

  function Written(v: Value, f: Field): Option<Json>
    requires HasKind(v, f.kind)
  {
    if IsNil(v) && f.optional then None
    else
      match EncodeField(v, f.kind)
      case Ok(json) => Some(json)
      case Err(_) => None
  }

  /** One key's entry after the encode hook. */
  function HookedEntry(entry: Option<Json>, v: Value, f: Field): Option<Json> {
    match f.rule
    case ElideEmpty => if IsEmpty(v) then None else entry
    case ElideDefault(items) => if v == Nil || v == Texts(items) then None else entry
    case ExplicitNull => if entry.None? then Some(Null) else entry
    case _ => entry
  }

  /** What stands at a field's key once the encode hook has run. */
  function Final(v: Value, f: Field): Option<Json>
    requires HasKind(v, f.kind)
  {
    HookedEntry(Written(v, f), v, f)
  }

  /** Encoding this one field does not fail. */
  predicate Writes(v: Value, f: Field)
    requires HasKind(v, f.kind)
  {
    (IsNil(v) && f.optional) || (!(v.Nil? && f.kind.IsPointer()) && EncodeField(v, f.kind).Ok?)
  }

  function KeysOf(fs: seq<Field>): set<string> {
    set i | 0 <= i < |fs| :: fs[i].key
  }

  lemma {:induction false} FieldsWritten(m: Model, fs: seq<Field>)
    requires |m| == |fs| && KeysDiffer(fs) && forall i :: 0 <= i < |m| ==> HasKind(m[i], fs[i].kind)
    ensures EncodeFields(m, fs).Ok? <==> forall i :: 0 <= i < |m| ==> Writes(m[i], fs[i])
    ensures EncodeFields(m, fs).Ok? ==>
              var w := EncodeFields(m, fs).value;
              w.Keys <= KeysOf(fs) && forall i :: 0 <= i < |m| ==> Entry(w, fs[i].key) == Written(m[i], fs[i])
  {
    hide Written;
    hide Writes;
    hide HasKind;
    if fs != [] {
      hide EncodeFields;
      var n := |fs| - 1;
      FieldsWritten(m[..n], fs[..n]);
      FieldWritten(m[..n], fs[..n], m[n], fs[n]);
      assert m == m[..n] + [m[n]] && fs == fs[..n] + [fs[n]];
      assert forall i :: 0 <= i < n ==> m[..n][i] == m[i] && fs[..n][i] == fs[i];
      assert fs[n].key !in KeysOf(fs[..n]);
      assert KeysOf(fs) == KeysOf(fs[..n]) + {fs[n].key};
    }
  }

  lemma FieldWritten(m: Model, fs: seq<Field>, v: Value, f: Field)
    requires |m| == |fs| && HasKind(v, f.kind) && forall i :: 0 <= i < |m| ==> HasKind(m[i], fs[i].kind)
    ensures var r := EncodeFields(m + [v], fs + [f]);
            && (r.Ok? <==> EncodeFields(m, fs).Ok? && Writes(v, f))
            && (r.Ok? ==>
                  var w := EncodeFields(m, fs).value;
                  r.value == match Written(v, f) case Some(json) => w[f.key := json] case None => w)
  {
    hide EncodeField;
    hide HasKind;
    assert (m + [v])[..|m|] == m && (fs + [f])[..|fs|] == fs;
  }

  lemma HookedHere(w: map<string, Json>, v: Value, f: Field)
    ensures Hooked(w, v, f).Keys <= w.Keys + {f.key}
    ensures forall key :: Entry(Hooked(w, v, f), key) == if key == f.key then HookedEntry(Entry(w, key), v, f) else Entry(w, key)
  {
  }

  lemma {:induction false} HookedEntries(w: map<string, Json>, m: Model, fs: seq<Field>)
    requires |m| == |fs| && KeysDiffer(fs)
    ensures AfterEncode(w, m, fs).Keys <= w.Keys + KeysOf(fs)
    ensures forall key :: key !in KeysOf(fs) ==> Entry(AfterEncode(w, m, fs), key) == Entry(w, key)
    ensures forall i :: 0 <= i < |m| ==> Entry(AfterEncode(w, m, fs), fs[i].key) == HookedEntry(Entry(w, fs[i].key), m[i], fs[i])
  {
    hide HookedEntry;
    if fs != [] {
      var n := |fs| - 1;
      HookedEntries(w, m[..n], fs[..n]);
      HookedMore(w, AfterEncode(w, m[..n], fs[..n]), m, fs);
    }
  }

  lemma HookedMore(w: map<string, Json>, u: map<string, Json>, m: Model, fs: seq<Field>)
    requires |m| == |fs| && fs != [] && KeysDiffer(fs)
    requires var n := |fs| - 1;
             && u.Keys <= w.Keys + KeysOf(fs[..n])
             && (forall key :: key !in KeysOf(fs[..n]) ==> Entry(u, key) == Entry(w, key))
             && (forall i :: 0 <= i < n ==> Entry(u, fs[..n][i].key) == HookedEntry(Entry(w, fs[..n][i].key), m[..n][i], fs[..n][i]))
    ensures var n := |fs| - 1;
            var r := Hooked(u, m[n], fs[n]);
            && r.Keys <= w.Keys + KeysOf(fs)
            && (forall key :: key !in KeysOf(fs) ==> Entry(r, key) == Entry(w, key))
            && (forall i :: 0 <= i < |m| ==> Entry(r, fs[i].key) == HookedEntry(Entry(w, fs[i].key), m[i], fs[i]))
  {
    var n := |fs| - 1;
    HookedHere(u, m[n], fs[n]);
    hide Hooked;
    hide HookedEntry;
    hide Entry;
    assert forall i :: 0 <= i < n ==> m[..n][i] == m[i] && fs[..n][i] == fs[i];
    assert fs[n].key !in KeysOf(fs[..n]);
    assert KeysOf(fs) == KeysOf(fs[..n]) + {fs[n].key};
  }

  lemma ToWireEntries(m: Model, s: Schema)
    requires Fits(m, s) && KeysDiffer(s.fields)
    ensures ToWire(m, s).Ok? <==> forall i :: 0 <= i < |m| ==> Writes(m[i], s.fields[i])
    ensures ToWire(m, s).Ok? ==>
              var w := ToWire(m, s).value;
              w.Keys <= KeysOf(s.fields) && forall i :: 0 <= i < |m| ==> Entry(w, s.fields[i].key) == Final(m[i], s.fields[i])
  {
    FieldsWritten(m, s.fields);
    hide Written;
    hide Writes;
    hide EncodeFields;
    hide HookedEntry;
    hide Entry;
    if EncodeFields(m, s.fields).Ok? {
      HookedEntries(EncodeFields(m, s.fields).value, m, s.fields);
    }
    hide AfterEncode;
  }

  /** What a reader finds at a key after the decode hook. */
  function Filled(raw: Json, f: Field): Json {
    if raw != Null then raw
    else
      match f.rule
      case ElideDefault(items) => List(TextItems(items))
      case Fallback(json) => json
      case _ => Null
  }

  lemma {:induction false} FilledAt(w: map<string, Json>, fs: seq<Field>)
    requires KeysDiffer(fs)
    ensures forall key :: key !in KeysOf(fs) ==> At(BeforeDecode(w, fs), key) == At(w, key)
    ensures forall i :: 0 <= i < |fs| ==> At(BeforeDecode(w, fs), fs[i].key) == Filled(At(w, fs[i].key), fs[i])
  {
    if fs != [] {
      var n := |fs| - 1;
      FilledAt(w, fs[..n]);
      assert forall i :: 0 <= i < n ==> fs[..n][i] == fs[i];
      assert fs[n].key !in KeysOf(fs[..n]);
    }
  }

  lemma {:induction false} FieldsDecoded(w: map<string, Json>, fs: seq<Field>, r: Model)
    requires |r| == |fs| && forall i :: 0 <= i < |fs| ==> DecodeOne(w, fs[i]) == Ok(r[i])
    ensures DecodeFields(w, fs) == Ok(r)
  {
    hide DecodeOne;
    if fs != [] {
      var n := |fs| - 1;
      FieldsDecoded(w, fs[..n], r[..n]);
      assert r == r[..n] + [r[n]];
    }
  }

  lemma {:induction false} FieldsDecodable(w: map<string, Json>, fs: seq<Field>)
    ensures DecodeFields(w, fs).Ok? <==> forall i :: 0 <= i < |fs| ==> DecodeOne(w, fs[i]).Ok?
  {
    if fs != [] {
      var n := |fs| - 1;
      FieldsDecodable(w, fs[..n]);
      assert forall i :: 0 <= i < n ==> fs[..n][i] == fs[i];
    }
  }

  lemma {:induction false} TextsDecoded(texts: seq<string>)
    ensures DecodeTexts(TextItems(texts)) == Ok(texts)
  {
    if texts != [] {
      var n := |texts| - 1;
      TextsDecoded(texts[..n]);
      assert TextItems(texts)[..n] == TextItems(texts[..n]);
      assert texts == texts[..n] + [texts[n]];
    }
  }

  // ---- Round trip, kind by kind ----

  /** A written, non-nil field is read back exactly when nothing required in it is missing. */
  ghost predicate FieldReads(v: Value, k: Kind)
    requires HasKind(v, k)
  {
    && (Complete(v, k) ==> EncodeField(v, k).Ok?)
    && (EncodeField(v, k).Ok? ==>
          var json := EncodeField(v, k).value;
          && json != Null
          && (DecodeField(json, k).Ok? <==> Complete(v, k))
          && (Complete(v, k) ==> DecodeField(json, k) == Ok(Normal(v, k)) && EncodeField(Normal(v, k), k) == Ok(json)))
  }

  ghost predicate ModelReads(m: Model, s: Schema)
    requires Fits(m, s)
  {
    && (CompleteModel(m, s) ==> ToWire(m, s).Ok?)
    && (ToWire(m, s).Ok? ==>
          var w := ToWire(m, s).value;
          && (FromWire(Obj(w), s).Ok? <==> CompleteModel(m, s))
          && (CompleteModel(m, s) ==> FromWire(Obj(w), s) == Ok(NormalModel(m, s)) && ToWire(NormalModel(m, s), s) == Ok(w)))
  }

  lemma {:induction false} RoundTripField(v: Value, k: Kind)
    requires HasKind(v, k) && KindWellMade(k) && !IsNil(v)
    ensures FieldReads(v, k)
    decreases k, 0, 0
  {
    match k
    case TBytes => Base64.DecodeEncoded(v.data);
    case TTexts => TextsDecoded(v.texts);
    case TPtr(s) => RoundTripModel(v.values, s);
    case TStruct(s) => RoundTripModel(v.values, s);
    case TList(s) =>
      RoundTripItems(v.items, s);
    case _ =>
  }

  function NormalItems(items: seq<Value>, s: Schema): (r: seq<Value>)
    requires ItemsFit(items, s)
    ensures ItemsFit(r, s) && |r| == |items|
  {
    seq(|items|, i requires 0 <= i < |items| => Rec(NormalModel(items[i].values, s)))
  }

  predicate CompleteItems(items: seq<Value>, s: Schema)
    requires ItemsFit(items, s)
  {
    forall i :: 0 <= i < |items| ==> CompleteModel(items[i].values, s)
  }

  ghost predicate ItemsRead(items: seq<Value>, s: Schema)
    requires ItemsFit(items, s)
  {
    && (CompleteItems(items, s) ==> EncodeItems(items, s).Ok?)
    && (EncodeItems(items, s).Ok? ==>
          var json := EncodeItems(items, s).value;
          && (DecodeItems(json, s).Ok? <==> CompleteItems(items, s))
          && (CompleteItems(items, s) ==>
                DecodeItems(json, s) == Ok(NormalItems(items, s)) && EncodeItems(NormalItems(items, s), s) == Ok(json)))
  }

  lemma {:induction false} RoundTripItems(items: seq<Value>, s: Schema)
    requires ItemsFit(items, s) && WellMade(s)
    ensures ItemsRead(items, s)
    decreases s, 1, |items|
  {
    if items != [] {
      var n := |items| - 1;
      RoundTripItems(items[..n], s);
      RoundTripModel(items[n].values, s);
      OneMoreItem(items[..n], items[n], s);
      assert items == items[..n] + [items[n]];
    }
  }

  lemma OneMoreItem(items: seq<Value>, item: Value, s: Schema)
    requires ItemsFit(items, s) && ItemsRead(items, s) && item.Rec? && Fits(item.values, s) && ModelReads(item.values, s)
    ensures ItemsFit(items + [item], s) && ItemsRead(items + [item], s)
  {
    var all, normal := items + [item], Rec(NormalModel(item.values, s));
    hide ToWire;
    hide FromWire;
    hide CompleteModel;
    CompleteSnoc(items, item, s);
    hide NormalModel;
    EncodeSnoc(items, item, s);
    EncodeSnoc(NormalItems(items, s), normal, s);
    hide EncodeItems;
    hide NormalItems;
    hide CompleteItems;
    if EncodeItems(all, s).Ok? {
      DecodeSnoc(EncodeItems(items, s).value, Obj(ToWire(item.values, s).value), s);
    }
    hide DecodeItems;
  }

  lemma CompleteSnoc(items: seq<Value>, item: Value, s: Schema)
    requires ItemsFit(items, s) && item.Rec? && Fits(item.values, s)
    ensures ItemsFit(items + [item], s)
    ensures CompleteItems(items + [item], s) <==> CompleteItems(items, s) && CompleteModel(item.values, s)
    ensures NormalItems(items + [item], s) == NormalItems(items, s) + [Rec(NormalModel(item.values, s))]
  {
    hide CompleteModel;
    hide NormalModel;
    var all := items + [item];
    assert all[|items|] == item && forall i :: 0 <= i < |items| ==> items[i] == all[i];
  }

  lemma EncodeSnoc(items: seq<Value>, item: Value, s: Schema)
    requires ItemsFit(items, s) && item.Rec? && Fits(item.values, s)
    ensures EncodeItems(items + [item], s).Ok? <==> EncodeItems(items, s).Ok? && ToWire(item.values, s).Ok?
    ensures EncodeItems(items + [item], s).Ok? ==>
              EncodeItems(items + [item], s).value == EncodeItems(items, s).value + [Obj(ToWire(item.values, s).value)]
  {
    hide ToWire;
    assert (items + [item])[..|items|] == items;
  }

  lemma DecodeSnoc(items: seq<Json>, item: Json, s: Schema)
    ensures DecodeItems(items + [item], s).Ok? <==> DecodeItems(items, s).Ok? && FromWire(item, s).Ok?
    ensures DecodeItems(items + [item], s).Ok? ==>
              DecodeItems(items + [item], s).value == DecodeItems(items, s).value + [Rec(FromWire(item, s).value)]
  {
    hide FromWire;
    assert (items + [item])[..|items|] == items;
  }

  /** A decoded field, given what stands at its key. */
  function Taken(raw: Json, f: Field): Result<Value> {
    if raw != Null then DecodeField(raw, f.kind)
    else if f.optional then Ok(Zero(f.kind))
    else Err("missing " + f.key)
  }

  function Received(v: Value, f: Field): Result<Value>
    requires HasKind(v, f.kind)
  {
    Taken(Filled(if Final(v, f).Some? then Final(v, f).value else Null, f), f)
  }

  ghost predicate OneReads(v: Value, f: Field)
    requires HasKind(v, f.kind) && RuleFits(f)
  {
    && (CompleteOne(v, f) ==> Writes(v, f))
    && (Writes(v, f) ==>
          && (Received(v, f).Ok? <==> CompleteOne(v, f))
          && (CompleteOne(v, f) ==>
                && Received(v, f) == Ok(NormalOne(v, f))
                && Writes(NormalOne(v, f), f) && Final(NormalOne(v, f), f) == Final(v, f)))
  }

  lemma DefaultReads(v: Value, f: Field)
    requires HasKind(v, f.kind) && RuleFits(f) && f.rule.ElideDefault?
    ensures OneReads(v, f)
  {
    TextsDecoded(f.rule.items);
    if v.Texts? {
      TextsDecoded(v.texts);
    }
  }

  lemma NilReads(v: Value, f: Field)
    requires HasKind(v, f.kind) && RuleFits(f) && !f.rule.ElideDefault? && IsNil(v)
    ensures OneReads(v, f)
  {
    Base64.DecodeEncoded([]);
    TextsDecoded([]);
    if f.kind.TList? && !f.optional {
      assert EncodeField(v, f.kind) == Ok(List([]));
      assert DecodeItems([], f.kind.schema) == Ok([]);
    }
  }

  lemma EmptyReads(v: Value, f: Field)
    requires HasKind(v, f.kind) && RuleFits(f) && f.rule.ElideEmpty? && IsEmpty(v) && KindWellMade(f.kind)
    ensures OneReads(v, f)
  {
  }

  lemma {:induction false} RoundTripOne(v: Value, f: Field)
    requires HasKind(v, f.kind) && RuleFits(f) && KindWellMade(f.kind)
    ensures OneReads(v, f)
    decreases f, 1, 0
  {
    if f.rule.ElideDefault? {
      DefaultReads(v, f);
    } else if IsNil(v) {
      NilReads(v, f);
    } else if f.rule.ElideEmpty? && IsEmpty(v) {
      EmptyReads(v, f);
    } else {
      RoundTripField(v, f.kind);
      hide EncodeField;
      hide DecodeField;
      hide Complete;
      hide Normal;
    }
  }

  lemma {:induction false} RoundTripModel(m: Model, s: Schema)
    requires Fits(m, s) && WellMade(s)
    ensures ModelReads(m, s)
    decreases s, 0, 0
  {
    forall i | 0 <= i < |m|
      ensures OneReads(m[i], s.fields[i])
    {
      RoundTripOne(m[i], s.fields[i]);
    }
    ModelFromFields(m, s);
  }

  /** The schema's keys do not interfere, so a model reads back when each field does. */
  lemma ModelFromFields(m: Model, s: Schema)
    requires Fits(m, s) && WellMade(s)
    requires forall i :: 0 <= i < |m| ==> OneReads(m[i], s.fields[i])
    ensures ModelReads(m, s)
  {
    hide Final;
    hide Filled;
    hide Writes;
    ToWireEntries(m, s);
    var fs, r := s.fields, NormalModel(m, s);
    assert forall i :: 0 <= i < |m| ==> RuleFits(fs[i]) && r[i] == NormalOne(m[i], fs[i]);
    ToWireEntries(r, s);
    if ToWire(m, s).Ok? {
      var w := ToWire(m, s).value;
      var filled := BeforeDecode(w, fs);
      FilledAt(w, fs);
      FieldsDecodable(filled, fs);
      hide ToWire;
      hide CompleteOne;
      forall i | 0 <= i < |m|
        ensures DecodeOne(filled, fs[i]) == Received(m[i], fs[i])
      {
        assert Entry(w, fs[i].key) == Final(m[i], fs[i]);
        assert At(w, fs[i].key) == if Final(m[i], fs[i]).Some? then Final(m[i], fs[i]).value else Null;
      }
      hide DecodeOne;
      hide Received;
      if CompleteModel(m, s) {
        FieldsDecoded(filled, fs, r);
        SameEntries(w, ToWire(r, s).value, fs);
      }
    }
  }

  lemma SameEntries(w: map<string, Json>, u: map<string, Json>, fs: seq<Field>)
    requires w.Keys <= KeysOf(fs) && u.Keys <= KeysOf(fs)
    requires forall i :: 0 <= i < |fs| ==> Entry(w, fs[i].key) == Entry(u, fs[i].key)
    ensures w == u
  {
    forall key | key in w || key in u
      ensures Entry(w, key) == Entry(u, key)
    {
    }
    assert w.Keys == u.Keys;
  }

  // ---- What decoding gives always fits ----

  lemma {:induction false} DecodedFits(raw: Json, s: Schema)
    ensures FromWire(raw, s).Ok? ==> Fits(FromWire(raw, s).value, s)
    decreases s, 0, 0
  {
    if raw.Obj? {
      DecodedFieldsFit(BeforeDecode(raw.fields, s.fields), s.fields);
    }
  }

  lemma {:induction false} DecodedFieldsFit(w: map<string, Json>, fs: seq<Field>)
    ensures DecodeFields(w, fs).Ok? ==>
              var m := DecodeFields(w, fs).value;
              |m| == |fs| && forall i :: 0 <= i < |m| ==> HasKind(m[i], fs[i].kind)
    decreases fs, 0, 0
  {
    if fs != [] {
      var n := |fs| - 1;
      DecodedFieldsFit(w, fs[..n]);
      var raw := At(w, fs[n].key);
      if raw != Null {
        DecodedFieldFits(raw, fs[n].kind);
      }
      hide HasKind;
      hide DecodeField;
    }
  }

  lemma {:induction false} DecodedFieldFits(raw: Json, k: Kind)
    ensures DecodeField(raw, k).Ok? ==> HasKind(DecodeField(raw, k).value, k)
    decreases k, 0, 0
  {
    match k
    case TPtr(s) => DecodedFits(raw, s);
    case TStruct(s) => DecodedFits(raw, s);
    case TList(s) =>
      if raw.List? {
        DecodedItemsFit(raw.items, s);
      }
    case _ =>
  }

  lemma {:induction false} DecodedItemsFit(items: seq<Json>, s: Schema)
    ensures DecodeItems(items, s).Ok? ==> ItemsFit(DecodeItems(items, s).value, s)
    decreases s, 1, |items|
  {
    if items != [] {
      DecodedItemsFit(items[..|items| - 1], s);
      DecodedFits(items[|items| - 1], s);
    }
  }

  // ---- Bytes out and back ----

  /** A complete model's bytes decode, and what they decode to has the same wire bytes and the same signed bytes. */
  lemma WireFixpoint(m: Model, s: Schema, excluded: set<string>, fold: Fold)
    requires Fits(m, s) && WellMade(s) && CompleteModel(m, s)
    ensures EncodedJSON(m, s).Ok? && Decode(EncodedJSON(m, s).value, s) == Ok(NormalModel(m, s))
    ensures EncodedJSON(NormalModel(m, s), s) == EncodedJSON(m, s)
    ensures SignedBytes(NormalModel(m, s), s, excluded, fold) == SignedBytes(m, s, excluded, fold)
  {
    RoundTripModel(m, s);
    DecodeEncoded(Obj(ToWire(m, s).value), ENCODER_STYLE);
  }

  /** Encoded bytes that do not decode come from exactly the models with a required `any` left null. */
  lemma DecodesIffComplete(m: Model, s: Schema)
    requires Fits(m, s) && WellMade(s) && EncodedJSON(m, s).Ok?
    ensures Decode(EncodedJSON(m, s).value, s).Ok? <==> CompleteModel(m, s)
  {
    RoundTripModel(m, s);
    DecodeEncoded(Obj(ToWire(m, s).value), ENCODER_STYLE);
  }

  /** A signature fixes every wire field it does not exclude, whatever models the two sides hold. */
  lemma SignedBytesBind(m: Model, r: Model, s: Schema, excluded: set<string>, fold: Fold)
    requires Fits(m, s) && Fits(r, s) && SignedBytes(m, s, excluded, fold).Ok?
    requires SignedBytes(m, s, excluded, fold) == SignedBytes(r, s, excluded, fold)
    ensures ToWire(m, s).value - excluded == ToWire(r, s).value - excluded
  {
    var style := Style(Foundation(fold), true);
    EncodingUnambiguous(Obj(ToWire(m, s).value - excluded), Obj(ToWire(r, s).value - excluded), style, style);
  }

  /** Setting an excluded field, as signing does with the proof, leaves the signed bytes alone. */
  lemma ExcludedFieldFree(m: Model, i: nat, v: Value, s: Schema, excluded: set<string>, fold: Fold)
    requires Fits(m, s) && WellMade(s) && i < |m| && HasKind(v, s.fields[i].kind) && s.fields[i].key in excluded
    requires ToWire(m, s).Ok? && Writes(v, s.fields[i])
    ensures Fits(m[i := v], s) && ToWire(m[i := v], s).Ok?
    ensures ToWire(m[i := v], s).value - excluded == ToWire(m, s).value - excluded
    ensures SignedBytes(m[i := v], s, excluded, fold) == SignedBytes(m, s, excluded, fold)
  {
    var r, fs := m[i := v], s.fields;
    ToWireEntries(m, s);
    ToWireEntries(r, s);
    hide Final;
    hide ToWire;
    hide Writes;
    hide CanonicalJSON;
    var w, u := ToWire(m, s).value, ToWire(r, s).value;
    forall j | 0 <= j < |fs|
      ensures Entry(w - excluded, fs[j].key) == Entry(u - excluded, fs[j].key)
    {
      assert Entry(w, fs[j].key) == Final(m[j], fs[j]) && Entry(u, fs[j].key) == Final(r[j], fs[j]);
    }
    SameEntries(w - excluded, u - excluded, fs);
  }

  // ---- Fields a round trip leaves alone ----

  function Need(key: string, kind: Kind): Field {
    Field(key, false, kind, Plain)
  }

  function Opt(key: string, kind: Kind): Field {
    Field(key, true, kind, Plain)
  }

  const DESCRIPTOR := Schema([
    Need("uuid", TText), Opt("displayName", TTextPtr), Need("publicKey", TBytes), Need("algorithm", TText), Need("curveType", TText)])

  /** A field no hook elides, present or optional, and made of settled parts, is its own normal form. */
  lemma SettledField(v: Value, f: Field)
    requires HasKind(v, f.kind) && (f.rule.Plain? || f.rule.Fallback?) && RuleFits(f) && (v.Nil? ==> f.optional)
    requires f.kind.TPtr? || f.kind.TStruct? ==> v.Nil? || NormalModel(v.values, f.kind.schema) == v.values
    requires !f.kind.TList?
    ensures NormalOne(v, f) == v
  {
  }

  // ---- The loops ----

  method EncodeStruct(m: Model, s: Schema) returns (r: Result<map<string, Json>>)
    requires Fits(m, s)
    ensures r == ToWire(m, s)
    decreases s, 0, 0
  {
    hide HasKind;
    var fs := s.fields;
    var wire: map<string, Json> := map[];
    for i := 0 to |fs|
      invariant EncodeFields(m[..i], fs[..i]) == Ok(wire)
    {
      PrefixStep(m, fs, i);
      EncodeStops(m, fs, i + 1);
      if IsNil(m[i]) && fs[i].optional {
        continue;
      }
      if m[i].Nil? && fs[i].kind.IsPointer() {
        return Err(fs[i].key + " is required");
      }
      var json :- EncodeAny(m[i], fs[i].kind);
      wire := wire[fs[i].key := json];
    }
    assert m[..|fs|] == m && fs[..|fs|] == fs;
    wire := EncodeHook(wire, m, fs);
    return Ok(wire);
  }

  method EncodeHook(plain: map<string, Json>, m: Model, fs: seq<Field>) returns (wire: map<string, Json>)
    requires |m| == |fs|
    ensures wire == AfterEncode(plain, m, fs)
  {
    wire := plain;
    for i := 0 to |fs|
      invariant AfterEncode(plain, m[..i], fs[..i]) == wire
    {
      PrefixStep(m, fs, i);
      wire := Hooked(wire, m[i], fs[i]);
    }
    assert m[..|fs|] == m && fs[..|fs|] == fs;
  }

  lemma PrefixStep(m: Model, fs: seq<Field>, i: nat)
    requires |m| == |fs| && i < |fs|
    ensures m[..i + 1][..i] == m[..i] && fs[..i + 1][..i] == fs[..i]
    ensures m[..i + 1][i] == m[i] && fs[..i + 1][i] == fs[i]
  {
  }

  /** The first field that fails decides the outcome. */
  lemma {:induction false} EncodeStops(m: Model, fs: seq<Field>, i: nat)
    requires |m| == |fs| && i <= |fs| && forall j :: 0 <= j < |m| ==> HasKind(m[j], fs[j].kind)
    ensures EncodeFields(m[..i], fs[..i]).Err? ==> EncodeFields(m, fs) == EncodeFields(m[..i], fs[..i])
    decreases |fs| - i
  {
    assert m[..|fs|] == m && fs[..|fs|] == fs;
    if i < |fs| {
      PrefixStep(m, fs, i);
      EncodeStops(m, fs, i + 1);
    }
  }

  method EncodeAny(v: Value, k: Kind) returns (r: Result<Json>)
    requires HasKind(v, k)
    ensures r == EncodeField(v, k)
    decreases k, 0, 0
  {
    match k {
      case TText => r := Ok(Str(v.s));
      case TInt => r := Ok(Int(v.n));
      case TFlag => r := Ok(Bool(v.b));
      case TBytes => r := Ok(Str(Base64.Encode(if v.Nil? then [] else v.data)));
      case TTexts => r := Ok(List(TextItems(if v.Nil? then [] else v.texts)));
      case TTextPtr => r := Ok(if v.Nil? then Null else Str(v.s));
      case TPtr(s) =>
        if v.Nil? {
          return Ok(Null);
        }
        var w :- EncodeStruct(v.values, s);
        r := Ok(Obj(w));
      case TStruct(s) =>
        var w :- EncodeStruct(v.values, s);
        r := Ok(Obj(w));
      case TList(s) =>
        var items :- EncodeList(if v.Nil? then [] else v.items, s);
        r := Ok(List(items));
      case TAny => r := Ok(v.json);
    }
  }

  method EncodeList(items: seq<Value>, s: Schema) returns (r: Result<seq<Json>>)
    requires ItemsFit(items, s)
    ensures r == EncodeItems(items, s)
    decreases s, 1, |items|
  {
    var out := [];
    for i := 0 to |items|
      invariant EncodeItems(items[..i], s) == Ok(out)
    {
      assert items[..i + 1][..i] == items[..i];
      ItemsStop(items, s, i + 1);
      var w :- EncodeStruct(items[i].values, s);
      out := out + [Obj(w)];
    }
    assert items[..|items|] == items;
    return Ok(out);
  }

  lemma {:induction false} ItemsStop(items: seq<Value>, s: Schema, i: nat)
    requires ItemsFit(items, s) && i <= |items|
    ensures EncodeItems(items[..i], s).Err? ==> EncodeItems(items, s) == EncodeItems(items[..i], s)
    decreases |items| - i
  {
    assert items[..|items|] == items;
    if i < |items| {
      assert items[..i + 1][..i] == items[..i];
      ItemsStop(items, s, i + 1);
    }
  }

  method FillIn(given: map<string, Json>, fs: seq<Field>) returns (wire: map<string, Json>)
    ensures wire == BeforeDecode(given, fs)
  {
    wire := given;
    for i := 0 to |fs|
      invariant wire == BeforeDecode(given, fs[..i])
    {
      assert fs[..i + 1][..i] == fs[..i];
      var f := fs[i];
      if f.key !in wire || wire[f.key] == Null {
        match f.rule {
          case ElideDefault(items) => wire := wire[f.key := List(TextItems(items))];
          case Fallback(json) => wire := wire[f.key := json];
          case _ =>
        }
      }
    }
    assert fs[..|fs|] == fs;
  }

  method DecodeStruct(raw: Json, s: Schema) returns (r: Result<Model>)
    ensures r == FromWire(raw, s)
    decreases s, 0, 0
  {
    if !raw.Obj? {
      return Err("expected a JSON object");
    }
    var fs := s.fields;
    var wire := FillIn(raw.fields, fs);
    hide BeforeDecode;
    var m: Model := [];
    for i := 0 to |fs|
      invariant DecodeFields(wire, fs[..i]) == Ok(m)
    {
      assert fs[..i + 1][..i] == fs[..i];
      DecodeStops(wire, fs, i + 1);
      hide DecodeOne;
      var v :- DecodeKey(wire, fs[i]);
      m := m + [v];
    }
    assert fs[..|fs|] == fs;
    return Ok(m);
  }

  method DecodeKey(wire: map<string, Json>, f: Field) returns (r: Result<Value>)
    ensures r == DecodeOne(wire, f)
    decreases f, 1, 0
  {
    if f.key !in wire || wire[f.key] == Null {
      return if f.optional then Ok(Zero(f.kind)) else Err("missing " + f.key);
    }
    r := DecodeAny(wire[f.key], f.kind);
  }

  lemma {:induction false} DecodeStops(w: map<string, Json>, fs: seq<Field>, i: nat)
    requires i <= |fs|
    ensures DecodeFields(w, fs[..i]).Err? ==> DecodeFields(w, fs) == DecodeFields(w, fs[..i])
    decreases |fs| - i
  {
    assert fs[..|fs|] == fs;
    if i < |fs| {
      assert fs[..i + 1][..i] == fs[..i];
      DecodeStops(w, fs, i + 1);
    }
  }

  method DecodeAny(raw: Json, k: Kind) returns (r: Result<Value>)
    ensures r == DecodeField(raw, k)
    decreases k, 0, 0
  {
    match k {
      case TPtr(s) =>
        var m :- DecodeStruct(raw, s);
        r := Ok(Rec(m));
      case TStruct(s) =>
        var m :- DecodeStruct(raw, s);
        r := Ok(Rec(m));
      case TList(s) =>
        if !raw.List? {
          return Err("expected list");
        }
        var items :- DecodeList(raw.items, s);
        r := Ok(Recs(items));
      case _ => r := DecodeField(raw, k);
    }
  }

  method DecodeList(items: seq<Json>, s: Schema) returns (r: Result<seq<Value>>)
    ensures r == DecodeItems(items, s)
    decreases s, 1, |items|
  {
    var out := [];
    for i := 0 to |items|
      invariant DecodeItems(items[..i], s) == Ok(out)
    {
      assert items[..i + 1][..i] == items[..i];
      DecodeItemsStop(items, s, i + 1);
      var m :- DecodeStruct(items[i], s);
      out := out + [Rec(m)];
    }
    assert items[..|items|] == items;
    return Ok(out);
  }

  lemma {:induction false} DecodeItemsStop(items: seq<Json>, s: Schema, i: nat)
    requires i <= |items|
    ensures DecodeItems(items[..i], s).Err? ==> DecodeItems(items, s) == DecodeItems(items[..i], s)
    decreases |items| - i
  {
    assert items[..|items|] == items;
    if i < |items| {
      assert items[..i + 1][..i] == items[..i];
      DecodeItemsStop(items, s, i + 1);
    }
  }
}
