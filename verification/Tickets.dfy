/** The invitation ticket: its schema with elided fields, and the token a link carries. */
module Tickets {
  import opened Prelude
  import opened KeyOrder
  import opened JsonCodec
  import opened Wire
  import Base64Url

  const DEFAULT_CAPABILITIES := ["create_own_entity", "send_contact_request_to_issuer"]

  const BASIS_FIELD := Schema([Need("k", TText), Need("v", TText), Opt("o", TTextPtr)])

  const HAVEN_PROOF := Schema([Need("ty", TText), Need("by", TText), Need("al", TText), Need("cv", TText), Opt("sg", TBytes)])

  const TICKET := Schema([
    Field("v", false, TInt, Fallback(Int(1))), Need("t", TText), Need("is", TStruct(DESCRIPTOR)), Need("n", TText),
    Opt("ce", TTextPtr), Opt("er", TTextPtr), Need("au", TText), Field("ak", false, TText, Fallback(Str("email"))), Need("hc", TText),
    Opt("gn", TTextPtr), Opt("no", TTextPtr), Opt("id", TTextPtr), Field("bs", true, TList(BASIS_FIELD), ElideEmpty),
    Need("ca", TInt), Need("ea", TInt), Field("nc", true, TBytes, ElideEmpty),
    Field("cp", true, TTexts, ElideDefault(DEFAULT_CAPABILITIES)), Opt("pf", TPtr(HAVEN_PROOF))])

  const VERSION := 0
  const ISSUER := 2
  const BASIS := 12
  const NONCE := 15
  const CAPABILITIES := 16
  const PROOF := 17

  const ISSUER_KEY := 2

  // ---- The schema is one a struct can have ----

  lemma KeysApartEarly()
    ensures KeysApart(TICKET.fields, 0, 12)
  {
  }

  lemma KeysApartLate()
    ensures |TICKET.fields| == 18 && KeysApart(TICKET.fields, 12, 18)
  {
  }

  lemma TicketKeysDiffer()
    ensures KeysDiffer(TICKET.fields)
  {
    KeysApartEarly();
    KeysApartLate();
    hide TICKET;
  }

  lemma IssuerWellMade()
    ensures WellMade(DESCRIPTOR) && NeverLacks(DESCRIPTOR)
  {
  }

  lemma PartsWellMade()
    ensures WellMade(BASIS_FIELD) && WellMade(HAVEN_PROOF) && NeverLacks(BASIS_FIELD) && NeverLacks(HAVEN_PROOF)
  {
  }

  predicate FieldWellMade(f: Field) {
    RuleFits(f) && KindWellMade(f.kind)
  }

  lemma EarlyFieldsWellMade()
    ensures forall i :: 0 <= i < 9 ==> FieldWellMade(TICKET.fields[i])
  {
    IssuerWellMade();
    hide WellMade;
  }

  lemma LateFieldsWellMade()
    ensures forall i :: 9 <= i < 18 ==> FieldWellMade(TICKET.fields[i])
  {
    PartsWellMade();
    hide WellMade;
  }

  lemma TicketWellMade()
    ensures WellMade(TICKET)
  {
    KeysApartLate();
    TicketKeysDiffer();
    EarlyFieldsWellMade();
    LateFieldsWellMade();
    hide TICKET;
    hide KeysDiffer;
    hide RuleFits;
    hide KindWellMade;
    forall i | 0 <= i < 18
      ensures RuleFits(TICKET.fields[i]) && KindWellMade(TICKET.fields[i].kind)
    {
      assert FieldWellMade(TICKET.fields[i]);
    }
    hide WellMade;
    WellMadeFrom(TICKET);
  }

  lemma TicketComplete(m: Model)
    requires Fits(m, TICKET)
    ensures CompleteModel(m, TICKET)
  {
    IssuerWellMade();
    PartsWellMade();
    hide WellMade;
    assert NeverLacks(TICKET);
    NothingLacking(m, TICKET);
  }

  // ---- What a ticket reads back as ----

  /** A nil public key comes back empty. */
  function WithKey(d: Model): Model
    requires |d| > ISSUER_KEY
  {
    d[ISSUER_KEY := if d[ISSUER_KEY].Nil? then Blob([]) else d[ISSUER_KEY]]
  }

  /** All a round trip changes: a nil issuer key, an empty basis or nonce, and nil capabilities. */
  function Settled(m: Model): Model
    requires Fits(m, TICKET)
  {
    TicketFields(m);
    m[ISSUER := Rec(WithKey(m[ISSUER].values))]
     [BASIS := if IsEmpty(m[BASIS]) then Nil else m[BASIS]]
     [NONCE := if IsEmpty(m[NONCE]) then Nil else m[NONCE]]
     [CAPABILITIES := if m[CAPABILITIES].Nil? then Texts(DEFAULT_CAPABILITIES) else m[CAPABILITIES]]
  }

  lemma TicketFields(m: Model)
    requires Fits(m, TICKET)
    ensures |m| == 18 && m[VERSION].Number? && m[ISSUER].Rec? && |m[ISSUER].values| == 5 && Fits(m[ISSUER].values, DESCRIPTOR)
    ensures HasKind(m[BASIS], TList(BASIS_FIELD)) && HasKind(m[PROOF], TPtr(HAVEN_PROOF))
  {
    assert HasKind(m[VERSION], TICKET.fields[VERSION].kind) && HasKind(m[ISSUER], TICKET.fields[ISSUER].kind);
    assert HasKind(m[BASIS], TICKET.fields[BASIS].kind) && HasKind(m[PROOF], TICKET.fields[PROOF].kind);
  }

  lemma IssuerSize()
    ensures |DESCRIPTOR.fields| == 5
  {
  }

  lemma IssuerField(d: Model, i: nat)
    requires Fits(d, DESCRIPTOR) && i < |d|
    ensures |d| == |DESCRIPTOR.fields| == 5
    ensures RuleFits(DESCRIPTOR.fields[i]) && NormalOne(d[i], DESCRIPTOR.fields[i]) == WithKey(d)[i]
  {
    var f := DESCRIPTOR.fields[i];
    assert HasKind(d[i], f.kind);
    if i != ISSUER_KEY {
      SettledField(d[i], f);
      hide NormalOne;
    }
  }

  lemma IssuerNormal(d: Model)
    requires Fits(d, DESCRIPTOR)
    ensures |d| == 5 && NormalModel(d, DESCRIPTOR) == WithKey(d)
  {
    hide DESCRIPTOR;
    hide NormalOne;
    hide HasKind;
    hide RuleFits;
    IssuerSize();
    forall i | 0 <= i < |d|
      ensures RuleFits(DESCRIPTOR.fields[i]) && NormalOne(d[i], DESCRIPTOR.fields[i]) == WithKey(d)[i]
    {
      IssuerField(d, i);
    }
    assert NormalModel(d, DESCRIPTOR) == WithKey(d);
  }

  lemma BasisItemNormal(b: Model)
    requires Fits(b, BASIS_FIELD)
    ensures NormalModel(b, BASIS_FIELD) == b
  {
    var r := NormalModel(b, BASIS_FIELD);
    assert r[0] == b[0] && r[1] == b[1] && r[2] == b[2];
  }

  lemma BasisNormal(v: Value)
    requires HasKind(v, TList(BASIS_FIELD))
    ensures Normal(v, TList(BASIS_FIELD)) == v
  {
    if v.Recs? {
      forall i | 0 <= i < |v.items|
        ensures NormalModel(v.items[i].values, BASIS_FIELD) == v.items[i].values
      {
        BasisItemNormal(v.items[i].values);
      }
      hide NormalModel;
      assert Normal(v, TList(BASIS_FIELD)).items == v.items;
    }
  }

  lemma ProofNormal(p: Model)
    requires Fits(p, HAVEN_PROOF)
    ensures NormalModel(p, HAVEN_PROOF) == p
  {
    var r := NormalModel(p, HAVEN_PROOF);
    assert r[0] == p[0] && r[1] == p[1] && r[2] == p[2] && r[3] == p[3] && r[4] == p[4];
  }

  /** A field no hook and no nil slice concerns. */
  predicate Kept(i: nat) {
    i != ISSUER && i != BASIS && i != NONCE && i != CAPABILITIES
  }

  lemma KeptFields(i: nat)
    requires i < 18 && Kept(i)
    ensures |TICKET.fields| == 18
    ensures var f := TICKET.fields[i];
            && (f.rule.Plain? || f.rule.Fallback?) && RuleFits(f)
            && (f.optional || f.kind.TText? || f.kind.TInt?)
            && (if i == PROOF then f.kind == TPtr(HAVEN_PROOF) else f.kind.TText? || f.kind.TInt? || f.kind.TTextPtr?)
  {
  }

  lemma KeptSettled(m: Model, i: nat)
    requires Fits(m, TICKET) && i < |m| == 18 && Kept(i)
    ensures RuleFits(TICKET.fields[i]) && NormalOne(m[i], TICKET.fields[i]) == m[i]
  {
    KeptFields(i);
    TicketFields(m);
    assert HasKind(m[i], TICKET.fields[i].kind);
    if i == PROOF && m[i].Rec? {
      ProofNormal(m[i].values);
    }
    SettledField(m[i], TICKET.fields[i]);
  }

  lemma IssuerSettled(v: Value, f: Field)
    requires f == Need("is", TStruct(DESCRIPTOR)) && v.Rec? && Fits(v.values, DESCRIPTOR)
    ensures |v.values| == 5 && HasKind(v, f.kind) && RuleFits(f) && NormalOne(v, f) == Rec(WithKey(v.values))
  {
    IssuerNormal(v.values);
    hide WithKey;
    hide NormalModel;
    hide DESCRIPTOR;
  }

  lemma BasisSettled(v: Value, f: Field)
    requires f == Field("bs", true, TList(BASIS_FIELD), ElideEmpty) && HasKind(v, TList(BASIS_FIELD))
    ensures RuleFits(f) && NormalOne(v, f) == if IsEmpty(v) then Nil else v
  {
    BasisNormal(v);
    hide Normal;
    hide BASIS_FIELD;
  }

  lemma ChangedSettled(m: Model)
    requires Fits(m, TICKET)
    ensures |m| == |Settled(m)| == |TICKET.fields| == 18
    ensures forall i :: 0 <= i < 18 && !Kept(i) ==> RuleFits(TICKET.fields[i]) && NormalOne(m[i], TICKET.fields[i]) == Settled(m)[i]
  {
    ChangedFields();
    hide TICKET;
    hide WithKey;
    hide NormalModel;
    TicketFields(m);
    IssuerSettled(m[ISSUER], TICKET.fields[ISSUER]);
    BasisSettled(m[BASIS], TICKET.fields[BASIS]);
    assert HasKind(m[NONCE], TICKET.fields[NONCE].kind) && HasKind(m[CAPABILITIES], TICKET.fields[CAPABILITIES].kind);
  }

  lemma ChangedFields()
    ensures |TICKET.fields| == 18
    ensures TICKET.fields[ISSUER] == Need("is", TStruct(DESCRIPTOR))
    ensures TICKET.fields[BASIS] == Field("bs", true, TList(BASIS_FIELD), ElideEmpty)
    ensures TICKET.fields[NONCE] == Field("nc", true, TBytes, ElideEmpty)
    ensures TICKET.fields[CAPABILITIES] == Field("cp", true, TTexts, ElideDefault(DEFAULT_CAPABILITIES))
  {
  }

  lemma FieldSettled(m: Model, i: nat)
    requires Fits(m, TICKET) && i < |m| == |TICKET.fields| == |Settled(m)|
    ensures RuleFits(TICKET.fields[i]) && NormalOne(m[i], TICKET.fields[i]) == Settled(m)[i]
  {
    hide TICKET;
    hide NormalOne;
    hide HasKind;
    hide RuleFits;
    hide WithKey;
    ChangedSettled(m);
    TicketFields(m);
    if Kept(i) {
      KeptSettled(m, i);
    }
  }

  lemma TicketNormal(m: Model)
    requires Fits(m, TICKET)
    ensures NormalModel(m, TICKET) == Settled(m)
  {
    hide TICKET;
    hide NormalOne;
    hide HasKind;
    hide RuleFits;
    ChangedSettled(m);
    hide Settled;
    forall i | 0 <= i < 18
      ensures RuleFits(TICKET.fields[i]) && NormalOne(m[i], TICKET.fields[i]) == Settled(m)[i]
    {
      FieldSettled(m, i);
    }
    assert NormalModel(m, TICKET) == Settled(m);
  }

  /** The encoded JSON of every ticket decodes to it, settled, and that has the same wire bytes and signed bytes. */
  lemma TicketFixpoint(m: Model, fold: Fold)
    requires Fits(m, TICKET)
    ensures EncodedJSON(m, TICKET).Ok? && Decode(EncodedJSON(m, TICKET).value, TICKET) == Ok(Settled(m))
    ensures Fits(Settled(m), TICKET) && EncodedJSON(Settled(m), TICKET) == EncodedJSON(m, TICKET)
    ensures SignedBytes(Settled(m), TICKET, {"pf"}, fold) == SignedBytes(m, TICKET, {"pf"}, fold)
  {
    TicketWellMade();
    TicketComplete(m);
    TicketNormal(m);
    WireFixpoint(m, TICKET, {"pf"}, fold);
    hide EncodedJSON;
    hide SignedBytes;
    hide Decode;
    hide Settled;
    hide TICKET;
  }

  // ---- The token ----

  /** The long-link form: unpadded base64url of the encoded JSON. */
  function Token(m: Model): Result<string>
    requires Fits(m, TICKET)
  {
    var data :- EncodedJSON(m, TICKET);
    Ok(Base64Url.Encode(data))
  }

  function FromToken(token: string): Result<Model> {
    match Base64Url.Decode(token)
    case None => Err("malformed ticket token")
    case Some(data) =>
      var m :- Decode(data, TICKET);
      DecodedVersion(data);
      if m[VERSION] != Number(1) then Err("unsupported ticket version") else Ok(m)
  }

  lemma DecodedVersion(data: Bytes)
    ensures Decode(data, TICKET).Ok? ==> Fits(Decode(data, TICKET).value, TICKET) && |Decode(data, TICKET).value| == 18
  {
    if Decode(data, TICKET).Ok? {
      DecodedFits(DecodeJSON(data).value, TICKET);
      TicketFields(Decode(data, TICKET).value);
    }
  }

  /**
   * A ticket's token reads back exactly when its version is 1, and then as the ticket itself but for a nil
   * issuer key, an empty basis or nonce, and nil capabilities, none of which changes a byte of the next token.
   */
  lemma TokenReadBack(m: Model)
    requires Fits(m, TICKET)
    ensures Token(m).Ok? && |m| == 18
    ensures FromToken(Token(m).value) == if m[VERSION] == Number(1) then Ok(Settled(m)) else Err("unsupported ticket version")
    ensures Fits(Settled(m), TICKET) && Token(Settled(m)) == Token(m)
  {
    hide TICKET;
    hide Fits;
    hide EncodedJSON;
    hide SignedBytes;
    hide Decode;
    hide Settled;
    hide FromToken;
    hide Base64Url.Encode;
    var fold: Fold := x => x;
    SettledVersion(m);
    TicketFixpoint(m, fold);
    DataReadBack(EncodedJSON(m, TICKET).value, Settled(m));
  }

  lemma DataReadBack(data: Bytes, r: Model)
    requires Decode(data, TICKET) == Ok(r)
    ensures |r| == 18 && FromToken(Base64Url.Encode(data)) == if r[VERSION] == Number(1) then Ok(r) else Err("unsupported ticket version")
  {
    Base64Url.DecodeEncoded(data);
    DecodedVersion(data);
    hide TICKET;
    hide Decode;
    hide Base64Url.Encode;
    hide Base64Url.Decode;
  }

  lemma SettledVersion(m: Model)
    requires Fits(m, TICKET)
    ensures |m| == |Settled(m)| == 18 && Settled(m)[VERSION] == m[VERSION]
  {
    TicketFields(m);
    hide TICKET;
  }
}
