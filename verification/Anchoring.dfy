/** What stands in the anchor's storage after each of its link actions. */
module Anchoring {
  import opened Prelude
  import opened JsonCodec
  import opened Wire
  import opened ChannelCodec
  import opened KeyPath
  import opened KeyStore
  import opened EnrollmentModels
  import opened Enrollment
  import opened Anchor
  import Base64

  // ---- Three writes, each read back ----

  lemma ReadBack(root: Fields, t: Target, v: Json)
    requires "" !in t.Names()
    ensures Load(Stored(root, t.Path(), v), t.Path()) == Ok(v)
  {
    TargetNames(t);
    NamesWritten(root, t.Names(), v);
  }

  lemma Kept(root: Fields, t: Target, v: Json, u: Target)
    requires "" !in u.Names() && Parts(StepsOf(t), StepsOf(u))
    ensures Seen(Load(Stored(root, t.Path(), v), u.Path())) == Seen(Load(root, u.Path()))
  {
    TargetNames(t);
    TargetNames(u);
    NamesFrame(root, t.Names(), v, u.Names());
  }

  function StepsOf(t: Target): seq<KeyPath.Step> {
    Anchor.Steps(t.Names())
  }

  lemma KindsApart(linkID: string, other: string)
    ensures Parts(StepsOf(ProofOf(linkID)), StepsOf(RecordOf(other)))
    ensures Parts(StepsOf(UsedOf(linkID)), StepsOf(RecordOf(other)))
    ensures Parts(StepsOf(UsedOf(linkID)), StepsOf(ProofOf(other)))
    ensures Parts(StepsOf(ProofRecordOf(linkID)), StepsOf(RecordOf(other)))
  {
    hide SafeRecordKey;
    assert forall t: Target :: StepsOf(t)[1..][0] == StepsOf(t)[1];
  }

  /** The names are usable where what they name is not empty. */
  lemma NamesFilled(t: Target)
    ensures "" !in t.Names() <==>
            (match t case RecordOf(s) => s case ProofOf(s) => s case ProofRecordOf(s) => s case ApprovalOf(s) => s case UsedOf(s) => s) != ""
  {
  }

  // ---- Completing ----

  /** The record as JSON, key by key what its model says. */
  function RecordJson(r: Record): Json {
    RecordStores(r);
    Obj(ToWire(RecordModel(r), RECORD).value)
  }

  /** A completion stores the record under its link, its proof beside it, and the JTI as used. */
  lemma CompletionStores(env: Env, root: Fields, e: Enrollment.Completion, now: int)
    requires Finish(env, root, e, now).1.Ok?
    ensures var (after, r) := Finish(env, root, e, now);
            var c := r.value;
            && c.approvalJTI != "" && Load(after, UsedPath(c.approvalJTI)) == Ok(Str(c.approvalJTI))
            && (c.record.linkID != "" ==>
                  && Load(after, RecordPath(c.record.linkID)) == Ok(RecordJson(c.record))
                  && Load(after, ProofPath(c.record.linkID)) == Ok(Obj(map[
                       "record" := RecordJson(c.record), "requestHash" := Str(Base64.Encode(c.requestHash)),
                       "approvalJTI" := Str(c.approvalJTI), "credentialID" := Str(c.credentialID),
                       "presentationID" := Str(c.presentationID), "completedAt" := Str(c.record.linkedAt)])))
  {
    hide Finish;
    hide UsedJTIs;
    hide Stored;
    hide Load;
    hide RecordJson;
    CompleteChecks(env, root, e, now);
    CompletionWrites(env, root, e, now);
    var c := Finish(env, root, e, now).1.value;
    ThreeRead(root, c.record.linkID, c.approvalJTI, RecordJson(c.record), ProofEntry(c, RecordJson(c.record)));
  }

  lemma CompletionWrites(env: Env, root: Fields, e: Enrollment.Completion, now: int)
    requires Finish(env, root, e, now).1.Ok?
    ensures var (after, r) := Finish(env, root, e, now);
            var linkID, jti, record := r.value.record.linkID, r.value.approvalJTI, RecordJson(r.value.record);
            after == Stored(Stored(Stored(root, RecordOf(linkID).Path(), record), ProofOf(linkID).Path(), ProofEntry(r.value, record)),
                            UsedOf(jti).Path(), Str(jti))
  {
    hide VerifyCompletion;
    hide Stored;
    hide UsedJTIs;
    hide ToWire;
    hide ProofEntry;
    hide RecordModel;
    hide SafeRecordKey;
    RecordStores(Finish(env, root, e, now).1.value.record);
  }

  lemma ThreeRead(root: Fields, linkID: string, jti: string, record: Json, proof: Json)
    requires jti != ""
    ensures var after := Stored(Stored(Stored(root, RecordOf(linkID).Path(), record), ProofOf(linkID).Path(), proof), UsedOf(jti).Path(), Str(jti));
            && Load(after, UsedOf(jti).Path()) == Ok(Str(jti))
            && (linkID != "" ==> Load(after, RecordOf(linkID).Path()) == Ok(record) && Load(after, ProofOf(linkID).Path()) == Ok(proof))
  {
    hide Stored;
    hide Load;
    hide Target.Path;
    hide StepsOf;
    var one := Stored(root, RecordOf(linkID).Path(), record);
    var two := Stored(one, ProofOf(linkID).Path(), proof);
    NamesFilled(UsedOf(jti));
    ReadBack(two, UsedOf(jti), Str(jti));
    if linkID != "" {
      NamesFilled(RecordOf(linkID));
      NamesFilled(ProofOf(linkID));
      ReadBack(root, RecordOf(linkID), record);
      ReadBack(one, ProofOf(linkID), proof);
      KindsApart(linkID, linkID);
      KindsApart(jti, linkID);
      Kept(one, ProofOf(linkID), proof, RecordOf(linkID));
      Kept(two, UsedOf(jti), Str(jti), RecordOf(linkID));
      Kept(two, UsedOf(jti), Str(jti), ProofOf(linkID));
    }
  }

  // ---- Approving ----

  /** An approval package made is stored under its identifier, and is what is answered. */
  lemma ApprovalStores(env: Env, root: Fields, o: ApprovalOrder, issuer: Option<Descriptor>, sign: Signer, now: int, id: string, uuid: string)
    ensures var (after, r) := Approve(env, root, o, issuer, sign, now, id, uuid);
            && (r.Err? ==> after == root)
            && (r.Ok? ==>
                  && issuer.Some? && ApproveEnrollment(env, o, issuer.value, sign, now, id, uuid).Ok?
                  && var p := ApproveEnrollment(env, o, issuer.value, sign, now, id, uuid).value;
                     && ToStored(PackageModel(p), PACKAGE) == Ok(r.value)
                     && (p.approval.approvalID != "" ==> Load(after, ApprovalPath(p.approval.approvalID)) == Ok(r.value)))
  {
    hide ApproveEnrollment;
    hide ToStored;
    hide PackageModel;
    hide Stored;
    hide Load;
    if Approve(env, root, o, issuer, sign, now, id, uuid).1.Ok? {
      var p := ApproveEnrollment(env, o, issuer.value, sign, now, id, uuid).value;
      var t := ApprovalOf(p.approval.approvalID);
      if p.approval.approvalID != "" {
        NamesFilled(t);
        ReadBack(root, t, ToStored(PackageModel(p), PACKAGE).value);
      }
    }
  }

  // ---- Revoking ----

  /** The stored record as its fields, where one is stored that decodes. */
  function RecordAt(root: Fields, linkID: string): Option<Model> {
    match Load(root, RecordPath(linkID))
    case Err(_) => None
    case Ok(v) =>
      match FromWire(v, RECORD)
      case Err(_) => None
      case Ok(m) => Some(m)
  }

  /** The JSON has the record's keys with the status revoked as of now, and everything else as it was decoded. */
  predicate RevokedJson(v: Json, m: Model, at: string)
    requires Fits(m, RECORD) && ToWire(m, RECORD).Ok?
  {
    && v.Obj? && v.fields.Keys == ToWire(m, RECORD).value.Keys + {"status", "revokedAt"}
    && v.fields["status"] == Str("revoked") && v.fields["revokedAt"] == Str(at)
    && forall key :: key in ToWire(m, RECORD).value && key != "status" && key != "revokedAt" ==> v.fields[key] == ToWire(m, RECORD).value[key]
  }

  lemma RecordShape()
    ensures KeysDiffer(RECORD.fields) && |RECORD.fields| == 13
    ensures RECORD.fields[8] == Need("status", TText) && RECORD.fields[11] == Opt("revokedAt", TTextPtr)
  {
    RecordKeysApart();
    RecordLateKeysApart();
  }

  lemma RecordWellMade()
    ensures WellMade(RECORD) && NeverLacks(RECORD)
  {
    RecordShape();
    RecordFieldsWellMade();
    RecordNeverLacks();
    hide RECORD;
    hide RuleFits;
    hide KindWellMade;
    hide WellMade;
    hide NeverLacks;
    WellMadeFrom(RECORD);
  }

  lemma RecordNeverLacks()
    ensures NeverLacks(RECORD)
  {
    assert NeverLacks(BINDING) && NeverLacks(DESCRIPTOR);
  }

  lemma RecordWritten(m: Model)
    requires Fits(m, RECORD)
    ensures ToWire(m, RECORD).Ok?
  {
    RecordWellMade();
    hide WellMade;
    hide NeverLacks;
    hide ToWire;
    NothingLacking(m, RECORD);
    RoundTripModel(m, RECORD);
  }

  lemma TextFinal(t: string, f: Field)
    requires f == Need(f.key, TText) || f == Opt(f.key, TTextPtr)
    ensures HasKind(Wire.Text(t), f.kind) && Final(Wire.Text(t), f) == Some(Str(t))
  {
  }

  function MarkRevoked(m: Model, at: string): Model
    requires |m| == 13
  {
    m[8 := Wire.Text("revoked")][11 := Wire.Text(at)]
  }

  lemma MarkedFits(m: Model, at: string)
    requires Fits(m, RECORD)
    ensures |m| == 13 && Fits(MarkRevoked(m, at), RECORD)
  {
    RecordShape();
    TextFinal("revoked", RECORD.fields[8]);
    TextFinal(at, RECORD.fields[11]);
    hide RECORD;
    hide HasKind;
    hide Final;
    var r := MarkRevoked(m, at);
    assert forall i :: 0 <= i < 13 ==> HasKind(m[i], RECORD.fields[i].kind);
    FitsFrom(r, RECORD);
  }

  /** Changing the two fields changes the two keys. */
  lemma MarkedRevoked(m: Model, at: string)
    requires Fits(m, RECORD)
    ensures |m| == 13 && ToWire(m, RECORD).Ok?
    ensures var r := MarkRevoked(m, at);
            Fits(r, RECORD) && ToWire(r, RECORD).Ok? && RevokedJson(Obj(ToWire(r, RECORD).value), m, at)
  {
    RecordShape();
    TextFinal("revoked", RECORD.fields[8]);
    TextFinal(at, RECORD.fields[11]);
    MarkedFits(m, at);
    hide RECORD;
    hide ToWire;
    hide Final;
    hide Fits;
    hide HasKind;
    var r := MarkRevoked(m, at);
    RecordWritten(m);
    RecordWritten(r);
    ToWireEntries(r, RECORD);
    var w, u := ToWire(m, RECORD).value, ToWire(r, RECORD).value;
    assert Entry(u, RECORD.fields[8].key) == Final(r[8], RECORD.fields[8]);
    assert Entry(u, RECORD.fields[11].key) == Final(r[11], RECORD.fields[11]);
    forall key | key != "status" && key != "revokedAt"
      ensures Entry(u, key) == Entry(w, key)
    {
      SameElsewhere(m, r, key);
    }
    TwoChanged(w, u, at);
  }

  lemma TwoChanged(w: map<string, Json>, u: map<string, Json>, at: string)
    requires Entry(u, "status") == Some(Str("revoked")) && Entry(u, "revokedAt") == Some(Str(at))
    requires forall key :: key != "status" && key != "revokedAt" ==> Entry(u, key) == Entry(w, key)
    ensures u.Keys == w.Keys + {"status", "revokedAt"} && u["status"] == Str("revoked") && u["revokedAt"] == Str(at)
    ensures forall key :: key in w && key != "status" && key != "revokedAt" ==> u[key] == w[key]
  {
    assert forall key :: key in u <==> Entry(u, key).Some?;
    assert forall key :: key in w <==> Entry(w, key).Some?;
  }

  lemma SameElsewhere(m: Model, r: Model, key: string)
    requires Fits(m, RECORD) && Fits(r, RECORD) && KeysDiffer(RECORD.fields) && |RECORD.fields| == 13
    requires RECORD.fields[8].key == "status" && RECORD.fields[11].key == "revokedAt"
    requires forall i :: 0 <= i < 13 && i != 8 && i != 11 ==> r[i] == m[i]
    requires ToWire(m, RECORD).Ok? && ToWire(r, RECORD).Ok? && key != "status" && key != "revokedAt"
    ensures Entry(ToWire(r, RECORD).value, key) == Entry(ToWire(m, RECORD).value, key)
  {
    hide RECORD;
    hide ToWire;
    hide Final;
    ToWireEntries(m, RECORD);
    ToWireEntries(r, RECORD);
    if key in KeysOf(RECORD.fields) {
      var i :| 0 <= i < 13 && RECORD.fields[i].key == key;
      assert Entry(ToWire(r, RECORD).value, RECORD.fields[i].key) == Final(r[i], RECORD.fields[i]);
      assert Entry(ToWire(m, RECORD).value, RECORD.fields[i].key) == Final(m[i], RECORD.fields[i]);
    }
  }

  /** A link is revoked exactly when it is not the genesis one and its record is there to decode; the record is then stored as revoked. */
  lemma RevokedStores(env: Env, root: Fields, linkID: string, now: int)
    ensures var (after, r) := Revoke(env, root, linkID, now);
            && (r.Ok? <==> linkID != "" && !("genesis-" <= linkID) && Load(root, RecordPath(linkID)) != Ok(Null) && RecordAt(root, linkID).Some?)
            && (r.Err? ==> after == root)
            && (r.Ok? ==>
                  && Fits(RecordAt(root, linkID).value, RECORD) && ToWire(RecordAt(root, linkID).value, RECORD).Ok?
                  && RevokedJson(r.value, RecordAt(root, linkID).value, env.iso.format(now))
                  && Load(after, RecordPath(linkID)) == Ok(r.value) && Load(after, ProofRecordPath(linkID)) == Ok(r.value))
  {
    var stored := Load(root, RecordPath(linkID));
    if stored.Ok? {
      RevokedMade(env, stored.value, now);
    }
    hide Stored;
    hide Load;
    hide FromWire;
    hide RevokedJson;
    if Revoke(env, root, linkID, now).1.Ok? {
      var v := Revoke(env, root, linkID, now).1.value;
      RevokeWritten(env, root, linkID, now);
      TwoRead(root, linkID, v);
    }
    hide Revoked;
  }

  lemma RevokedMade(env: Env, stored: Json, now: int)
    ensures Revoked(env, stored, now).Ok? <==> FromWire(stored, RECORD).Ok?
    ensures FromWire(stored, RECORD).Ok? ==>
              var m := FromWire(stored, RECORD).value;
              Fits(m, RECORD) && ToWire(m, RECORD).Ok? && RevokedJson(Revoked(env, stored, now).value, m, env.iso.format(now))
  {
    if FromWire(stored, RECORD).Ok? {
      DecodedFits(stored, RECORD);
      MarkedRevoked(FromWire(stored, RECORD).value, env.iso.format(now));
    }
    hide FromWire;
    hide ToWire;
    hide RECORD;
    hide Fits;
    hide RevokedJson;
  }

  lemma RevokeWritten(env: Env, root: Fields, linkID: string, now: int)
    requires Revoke(env, root, linkID, now).1.Ok?
    ensures var (after, r) := Revoke(env, root, linkID, now);
            linkID != "" && after == Stored(Stored(root, RecordOf(linkID).Path(), r.value), ProofRecordOf(linkID).Path(), r.value)
  {
    hide Revoked;
    hide Stored;
    hide Load;
  }

  lemma TwoRead(root: Fields, linkID: string, v: Json)
    requires linkID != ""
    ensures var after := Stored(Stored(root, RecordOf(linkID).Path(), v), ProofRecordOf(linkID).Path(), v);
            Load(after, RecordOf(linkID).Path()) == Ok(v) && Load(after, ProofRecordOf(linkID).Path()) == Ok(v)
  {
    hide Stored;
    hide Load;
    hide Target.Path;
    hide StepsOf;
    var one := Stored(root, RecordOf(linkID).Path(), v);
    NamesFilled(RecordOf(linkID));
    NamesFilled(ProofRecordOf(linkID));
    ReadBack(root, RecordOf(linkID), v);
    ReadBack(one, ProofRecordOf(linkID), v);
    KindsApart(linkID, linkID);
    Kept(one, ProofRecordOf(linkID), v, RecordOf(linkID));
  }

  // ---- Genesis ----

  function SealJson(anchorID: string, at: string, trigger: string, initiator: Descriptor, signature: Option<Bytes>): Json {
    SealEncodes(SealModel(anchorID, at, trigger, initiator, signature));
    Obj(ToWire(SealModel(anchorID, at, trigger, initiator, signature), SEAL).value)
  }

  lemma SealEncodes(m: Model)
    requires Fits(m, SEAL)
    ensures ToWire(m, SEAL).Ok?
  {
    SealWellMade();
    hide WellMade;
    hide NeverLacks;
    hide ToWire;
    NothingLacking(m, SEAL);
    RoundTripModel(m, SEAL);
  }

  /** What the initiator signs: the seal without the signature, and without the proof. */
  function SealPayload(env: Env, g: Sealing): Bytes
    requires g.initiator.Some?
  {
    var m := SealModel(g.anchorID, env.iso.format(g.now), Trigger(g.trigger), g.initiator.value, None);
    SealEncodes(m);
    SignedBytes(m, SEAL, {"proof"}, env.fold).value
  }

  /** The first link: the initiator's own key, in the anchor's domain, active from now. */
  function FirstRecord(env: Env, g: Sealing): Record
    requires g.initiator.Some?
  {
    Record("genesis-" + g.anchorID, Binding("localEntityAnchor", Some("cell:///EntityAnchor"), None, None), g.initiator.value,
           Reach([if g.domain == "" then "private" else g.domain], [], ["same_entity"]), g.initiator.value.uuid, "existingDevice", "active",
           env.iso.format(g.now), None, None, None)
  }

  predicate Known(trigger: string) {
    trigger in {"onboarding", "addressBookImport", "verifiableCredential", "fileUpload", "directEdit", "firstPersist"}
  }

  lemma SealingIff(env: Env, g: Sealing)
    requires g.initiator.Some?
    ensures SealGenesis(env, g).Ok? <==> g.sign(SealPayload(env, g)).Ok?
    ensures SealGenesis(env, g).Ok? ==>
              SealGenesis(env, g).value ==
              (SealJson(g.anchorID, env.iso.format(g.now), if Known(g.trigger) then g.trigger else "firstPersist", g.initiator.value,
                        Some(g.sign(SealPayload(env, g)).value)),
               RecordJson(FirstRecord(env, g)))
  {
    hide SealModel;
    hide RecordModel;
    hide ToWire;
    hide CanonicalJSON;
    var at, trigger, d := env.iso.format(g.now), Trigger(g.trigger), g.initiator.value;
    SealEncodes(SealModel(g.anchorID, at, trigger, d, None));
    RecordStores(FirstRecord(env, g));
    if g.sign(SealPayload(env, g)).Ok? {
      SealEncodes(SealModel(g.anchorID, at, trigger, d, Some(g.sign(SealPayload(env, g)).value)));
    }
  }

  /** Genesis goes through exactly once owned, unsealed and signed, and stores the seal, the first record and both as proof. */
  lemma GenesisStores(env: Env, root: Fields, g: Sealing)
    ensures var (after, r) := Genesis(env, root, g);
            && (r.Ok? <==> GenesisSeal(root).None? && g.provesOwnership && g.initiator.Some? && g.sign(SealPayload(env, g)).Ok?)
            && (r.Err? ==> after == root)
            && (r.Ok? ==>
                  var linkID := "genesis-" + g.anchorID;
                  && r.value == SealJson(g.anchorID, env.iso.format(g.now), if Known(g.trigger) then g.trigger else "firstPersist",
                                         g.initiator.value, Some(g.sign(SealPayload(env, g)).value))
                  && Load(after, SEAL_PATH) == Ok(r.value) && Load(after, RecordPath(linkID)) == Ok(RecordJson(FirstRecord(env, g)))
                  && Load(after, ProofPath(linkID)) == Ok(Obj(map["record" := RecordJson(FirstRecord(env, g)), "seal" := r.value])))
  {
    hide GenesisSeal;
    hide SealGenesis;
    hide SealJson;
    hide RecordJson;
    hide FirstRecord;
    hide SealPayload;
    hide Genesis;
    hide Load;
    hide Stored;
    hide Trigger;
    GenesisGoes(env, root, g);
    if Genesis(env, root, g).1.Ok? {
      SealingIff(env, g);
      var (seal, record) := SealGenesis(env, g).value;
      GenesisRead(root, "genesis-" + g.anchorID, seal, record, Obj(map["record" := record, "seal" := seal]));
    } else if g.initiator.Some? {
      SealingIff(env, g);
    }
  }

  lemma GenesisGoes(env: Env, root: Fields, g: Sealing)
    ensures var (after, r) := Genesis(env, root, g);
            && (r.Ok? <==> GenesisSeal(root).None? && g.provesOwnership && SealGenesis(env, g).Ok?)
            && (SealGenesis(env, g).Ok? ==> g.initiator.Some?)
            && (r.Err? ==> after == root)
            && (r.Ok? ==>
                  var (seal, record) := SealGenesis(env, g).value;
                  var linkID := "genesis-" + g.anchorID;
                  && r.value == seal
                  && after == Stored(Stored(Stored(root, SEAL_PATH, seal), RecordOf(linkID).Path(), record),
                                     ProofOf(linkID).Path(), Obj(map["record" := record, "seal" := seal])))
  {
    hide GenesisSeal;
    hide Stored;
    hide SealModel;
    hide RecordModel;
    hide ToWire;
    hide CanonicalJSON;
    hide SafeRecordKey;
  }

  lemma GenesisRead(root: Fields, linkID: string, seal: Json, record: Json, proof: Json)
    requires linkID != ""
    ensures var after := Stored(Stored(Stored(root, SEAL_PATH, seal), RecordOf(linkID).Path(), record), ProofOf(linkID).Path(), proof);
            && Load(after, SEAL_PATH) == Ok(seal) && Load(after, RecordOf(linkID).Path()) == Ok(record)
            && Load(after, ProofOf(linkID).Path()) == Ok(proof)
  {
    hide Stored;
    hide Load;
    hide Target.Path;
    hide StepsOf;
    var one := Stored(root, SEAL_PATH, seal);
    var two := Stored(one, RecordOf(linkID).Path(), record);
    LiteralNames();
    NamesWritten(root, SEAL_NAMES, seal);
    SealKept(one, RecordOf(linkID), record);
    SealKept(two, ProofOf(linkID), proof);
    NamesFilled(RecordOf(linkID));
    NamesFilled(ProofOf(linkID));
    ReadBack(one, RecordOf(linkID), record);
    ReadBack(two, ProofOf(linkID), proof);
    KindsApart(linkID, linkID);
    Kept(two, ProofOf(linkID), proof, RecordOf(linkID));
  }
}
