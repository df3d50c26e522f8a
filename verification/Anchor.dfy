/** The entity anchor's link actions: the seal and the used approvals they keep in the cell's storage. */
module Anchor {
  import opened Prelude
  import opened KeyOrder
  import opened JsonCodec
  import opened Wire
  import opened ChannelCodec
  import opened KeyPath
  import opened KeyStore
  import opened EnrollmentModels
  import opened Enrollment
  import Base64

  // ---- Seal and record ----

  const SEAL := Schema([
    Need("version", TInt), Need("anchorID", TText), Need("sealedAt", TText), Need("trigger", TText), Need("linkID", TText),
    Need("initiatorIdentityUUID", TText), Opt("proof", TPtr(APPROVAL_PROOF))])

  const RECORD := Schema([
    Need("linkID", TText), Need("entityBinding", TStruct(BINDING)), Need("linkedIdentity", TStruct(DESCRIPTOR)),
    Need("approvedDomains", TTexts), Need("approvedIdentityContexts", TTexts), Need("approvedScopes", TTexts),
    Need("issuerIdentityUUID", TText), Need("issuerType", TText), Need("status", TText), Need("linkedAt", TText),
    Opt("lastUsedAt", TTextPtr), Opt("revokedAt", TTextPtr), Opt("revocationReference", TTextPtr)])

  const STATUS_AT := 8
  const REVOKED_AT := 11

  const PACKAGE := Schema([
    Need("approval", TStruct(APPROVAL)), Need("sameEntityCredential", TStruct(CLAIM)), Need("issuerIdentity", TStruct(DESCRIPTOR))])

  function SealModel(anchorID: string, sealedAt: string, trigger: string, initiator: Descriptor, signature: Option<Bytes>): (m: Model)
    ensures Fits(m, SEAL)
  {
    [Number(1), Wire.Text(anchorID), Wire.Text(sealedAt), Wire.Text(trigger), Wire.Text(GENESIS_PREFIX + anchorID), Wire.Text(initiator.uuid),
     Nested(ApprovalProof("signature", initiator.uuid, "existingDevice", initiator.algorithm, initiator.curve, signature).Model(), APPROVAL_PROOF)]
  }

  function RecordModel(r: Record): Model {
    [Wire.Text(r.linkID), Nested(r.binding.Model(), BINDING), Nested(r.linked.Model(), DESCRIPTOR), Texts(r.approved.domains),
     Texts(r.approved.contexts), Texts(r.approved.scopes), Wire.Text(r.issuerUUID), Wire.Text(r.issuerType), Wire.Text(r.status),
     Wire.Text(r.linkedAt), OptText(r.lastUsedAt), OptText(r.revokedAt), OptText(r.revocationReference)]
  }

  lemma RecordFits(r: Record)
    ensures Fits(RecordModel(r), RECORD)
  {
    hide Fits;
    hide Binding.Model;
    hide Descriptor.Model;
    hide OptText;
    FitsFrom(RecordModel(r), RECORD);
  }

  function PackageModel(p: Package): (m: Model)
    ensures Fits(m, PACKAGE)
  {
    ApprovalFits(p.approval);
    [Nested(p.approval.Model(), APPROVAL), Nested(p.credential.Model(), CLAIM), Nested(p.issuer.Model(), DESCRIPTOR)]
  }

  /** A model as the JSON value kept in storage. */
  function ToStored(m: Model, s: Schema): Result<Json>
    requires Fits(m, s)
  {
    AsObject(ToWire(m, s))
  }

  // ---- Key paths ----

  const GENESIS_PREFIX := "genesis-"
  const LINKS := "identityLinks"
  const SEAL_PATH := LINKS + "." + "genesis"
  const USED := "usedApprovalJTIs"
  const GENESIS_TRIGGERS := {"onboarding", "addressBookImport", "verifiableCredential", "fileUpload", "directEdit", "firstPersist"}

  predicate IsSafe(c: char) {
    'A' <= c <= 'Z' || 'a' <= c <= 'z' || '0' <= c <= '9' || c == '_' || c == '-'
  }

  function SafeRecordKey(s: string): (r: string)
    ensures |r| == |s| && forall i :: 0 <= i < |r| ==> r[i] == if IsSafe(s[i]) then s[i] else '_'
  {
    seq(|s|, i requires 0 <= i < |s| => if IsSafe(s[i]) then s[i] else '_')
  }

  function RecordPath(linkID: string): string {
    LINKS + "." + ("records" + "." + SafeRecordKey(linkID))
  }

  function ProofPath(linkID: string): string {
    "proofs" + "." + (LINKS + "." + SafeRecordKey(linkID))
  }

  function ProofRecordPath(linkID: string): string {
    "proofs" + "." + (LINKS + "." + (SafeRecordKey(linkID) + "." + "record"))
  }

  function ApprovalPath(approvalID: string): string {
    LINKS + "." + ("approvals" + "." + SafeRecordKey(approvalID))
  }

  function UsedPath(jti: string): string {
    LINKS + "." + (USED + "." + SafeRecordKey(jti))
  }

  // ---- Storage ----

  function Load(root: Fields, path: string): Result<Json> {
    Read(Obj(root), path)
  }

  /** The error of a write is dropped, as the cell drops it. */
  function Stored(root: Fields, path: string, v: Json): Fields {
    Write(root, path, v).0
  }

  function GenesisSeal(root: Fields): Option<Model> {
    match Load(root, SEAL_PATH)
    case Err(_) => None
    case Ok(v) =>
      match FromWire(v, SEAL)
      case Err(_) => None
      case Ok(m) => Some(m)
  }

  function UsedIn(stored: Result<Json>): set<string> {
    if stored.Ok? && stored.value.Obj? then
      set key | key in stored.value.fields :: if stored.value.fields[key].Str? then stored.value.fields[key].s else key
    else {}
  }

  function UsedJTIs(root: Fields): set<string> {
    UsedIn(Load(root, LINKS + "." + USED))
  }

  // ---- The actions ----

  datatype Sealing = Sealing(anchorID: string, initiator: Option<Descriptor>, provesOwnership: bool, sign: Signer, domain: string, trigger: string, now: int)

  function Trigger(raw: string): string {
    if raw in GENESIS_TRIGGERS then raw else "firstPersist"
  }

  function GenesisRecord(anchorID: string, initiator: Descriptor, domain: string, sealedAt: string): Record {
    Record(GENESIS_PREFIX + anchorID, Binding("localEntityAnchor", Some("cell:///EntityAnchor"), None, None), initiator,
           Reach([domain], [], ["same_entity"]), initiator.uuid, "existingDevice", "active", sealedAt, None, None, None)
  }

  /** The signed seal and its record, both as they are stored. */
  function SealGenesis(env: Env, g: Sealing): Result<(Json, Json)> {
    if g.initiator.None? then Err("initiatorHasNoSigningKey")
    else
      var initiator := g.initiator.value;
      var at, trigger := env.iso.format(g.now), Trigger(g.trigger);
      var payload :- SignedBytes(SealModel(g.anchorID, at, trigger, initiator, None), SEAL, {"proof"}, env.fold);
      var signature :- g.sign(payload);
      var record := GenesisRecord(g.anchorID, initiator, if g.domain == "" then "private" else g.domain, at);
      RecordFits(record);
      var sealValue :- ToStored(SealModel(g.anchorID, at, trigger, initiator, Some(signature)), SEAL);
      var recordValue :- ToStored(RecordModel(record), RECORD);
      Ok((sealValue, recordValue))
  }

  function Genesis(env: Env, root: Fields, g: Sealing): (Fields, Result<Json>) {
    if GenesisSeal(root).Some? then (root, Err("alreadySealed"))
    else if !g.provesOwnership then (root, Err("initiatorIsNotOwner"))
    else
      match SealGenesis(env, g)
      case Err(code) => (root, Err(code))
      case Ok((sealValue, recordValue)) =>
        var linkID := GENESIS_PREFIX + g.anchorID;
        var sealed := Stored(root, SEAL_PATH, sealValue);
        var recorded := Stored(sealed, RecordPath(linkID), recordValue);
        (Stored(recorded, ProofPath(linkID), Obj(map["record" := recordValue, "seal" := sealValue])), Ok(sealValue))
  }

  function Approve(env: Env, root: Fields, o: ApprovalOrder, issuer: Option<Descriptor>, sign: Signer, now: int, id: string, uuid: string): (Fields, Result<Json>) {
    if issuer.None? then (root, Err("missingRequiredContext"))
    else
      match ApproveEnrollment(env, o, issuer.value, sign, now, id, uuid)
      case Err(code) => (root, Err(code))
      case Ok(pkg) =>
        match ToStored(PackageModel(pkg), PACKAGE)
        case Err(code) => (root, Err(code))
        case Ok(value) => (Stored(root, ApprovalPath(pkg.approval.approvalID), value), Ok(value))
  }

  function ProofEntry(c: Completed, record: Json): Json {
    Obj(map["record" := record, "requestHash" := Str(Base64.Encode(c.requestHash)), "approvalJTI" := Str(c.approvalJTI),
            "credentialID" := Str(c.credentialID), "presentationID" := Str(c.presentationID), "completedAt" := Str(c.record.linkedAt)])
  }

  function Finish(env: Env, root: Fields, e: Completion, now: int): (Fields, Result<Completed>) {
    match VerifyCompletion(env, e, now, UsedJTIs(root), None)
    case Err(code) => (root, Err(code))
    case Ok(c) =>
      RecordFits(c.record);
      match ToStored(RecordModel(c.record), RECORD)
      case Err(code) => (root, Err(code))
      case Ok(value) =>
        var recorded := Stored(root, RecordPath(c.record.linkID), value);
        var proven := Stored(recorded, ProofPath(c.record.linkID), ProofEntry(c, value));
        (Stored(proven, UsedPath(c.approvalJTI), Str(c.approvalJTI)), Ok(c))
  }

  /** The stored record with its status changed. */
  function Revoked(env: Env, stored: Json, now: int): Result<Json> {
    var m :- FromWire(stored, RECORD);
    DecodedFits(stored, RECORD);
    ToStored(m[STATUS_AT := Wire.Text("revoked")][REVOKED_AT := Wire.Text(env.iso.format(now))], RECORD)
  }

  function Revoke(env: Env, root: Fields, linkID: string, now: int): (Fields, Result<Json>) {
    if linkID == "" then (root, Err("missingRequiredContext"))
    else if GENESIS_PREFIX <= linkID then (root, Err("cannotRevokeGenesisLink"))
    else
      var stored := Load(root, RecordPath(linkID));
      if stored.Err? || stored.value == Null then (root, Err("recordNotFound"))
      else
        match Revoked(env, stored.value, now)
        case Err(code) => (root, Err(code))
        case Ok(value) => (Stored(Stored(root, RecordPath(linkID), value), ProofRecordPath(linkID), value), Ok(value))
  }

  // ---- Paths made of plain names ----

  predicate IsName(s: string) {
    Uncut(s) && '.' !in s
  }

  predicate AllNames(parts: seq<string>) {
    parts != [] && forall i :: 0 <= i < |parts| ==> IsName(parts[i])
  }

  function Steps(parts: seq<string>): (steps: seq<KeyPath.Step>)
    ensures |steps| == |parts| && forall i :: 0 <= i < |parts| ==> steps[i] == KeyPath.Step(parts[i], Whole)
  {
    seq(|parts|, i requires 0 <= i < |parts| => KeyPath.Step(parts[i], Whole))
  }

  lemma {:induction false} SplitJoined(parts: seq<string>)
    requires AllNames(parts)
    ensures Split(Join(parts), 0, "") == parts
  {
    var name := parts[0];
    if |parts| == 1 {
      SplitPlain(name, "", 0, "");
      assert name + "" == name && "" + name == name;
    } else {
      var rest := Join(parts[1..]);
      SplitJoined(parts[1..]);
      SplitPlain(name, "." + rest, 0, "");
      assert name + "." + rest == name + ("." + rest) && "" + name == name;
      assert ("." + rest)[1..] == rest;
    }
  }

  lemma NameParsed(name: string)
    requires IsName(name)
    ensures ParsePart(name) == if name == "" then Err("empty key") else Ok(KeyPath.Step(name, Whole))
  {
  }

  lemma StepsCons(name: string, rest: seq<string>)
    ensures Steps([name] + rest) == [KeyPath.Step(name, Whole)] + Steps(rest)
  {
  }

  lemma {:induction false} NamesParsed(parts: seq<string>)
    requires forall i :: 0 <= i < |parts| ==> IsName(parts[i])
    ensures "" !in parts ==> ParseParts(parts) == Ok(Steps(parts))
    ensures "" in parts ==> ParseParts(parts).Err?
  {
    hide ParsePart;
    hide IsName;
    if parts != [] {
      var name, rest := parts[0], parts[1..];
      NameParsed(name);
      NamesParsed(rest);
      assert "" in parts <==> name == "" || "" in rest by {
        assert parts == [name] + rest;
      }
      StepsCons(name, rest);
      assert parts == [name] + rest;
      hide Steps;
    }
  }

  lemma NamesPath(parts: seq<string>)
    requires AllNames(parts)
    ensures "" !in parts ==> Parse(Join(parts)) == Ok(Steps(parts))
    ensures "" in parts ==> Parse(Join(parts)).Err?
  {
    SplitJoined(parts);
    NamesParsed(parts);
  }

  /** A write at one path of names leaves another alone where the two take different names. */
  lemma NamesFrame(root: Fields, p: seq<string>, v: Json, q: seq<string>)
    requires AllNames(p) && AllNames(q) && "" !in q && Parts(Steps(p), Steps(q))
    ensures Seen(Load(Stored(root, Join(p), v), Join(q))) == Seen(Load(root, Join(q)))
  {
    NamesPath(p);
    NamesPath(q);
    PlainFrame(root, Steps(p), v, Steps(q));
  }

  lemma {:induction false} WholeUndisturbed(fields: Fields, steps: seq<KeyPath.Step>, v: Json)
    requires steps != [] && forall i :: 0 <= i < |steps| ==> steps[i].selector.Whole?
    ensures Undisturbed(fields, steps, v)
    decreases |steps|
  {
    if |steps| > 1 {
      WholeUndisturbed(Enter(fields, steps[0]).value.Child(), steps[1..], v);
    }
  }

  lemma NamesWritten(root: Fields, p: seq<string>, v: Json)
    requires AllNames(p) && "" !in p
    ensures Load(Stored(root, Join(p), v), Join(p)) == Ok(v)
  {
    NamesPath(p);
    WholeUndisturbed(root, Steps(p), v);
    PutFails(root, Steps(p), v);
    SetThenGet(root, Steps(p), v);
  }

  function FieldsAt(r: Result<Json>): Fields {
    if r.Ok? && r.value.Obj? then r.value.fields else map[]
  }

  /** The object above the place written gains just that key. */
  lemma {:induction false} ParentAfter(fields: Fields, steps: seq<KeyPath.Step>, key: string, v: Json)
    requires forall i :: 0 <= i < |steps| ==> steps[i].selector.Whole?
    ensures var last := KeyPath.Step(key, Whole);
            Get(Obj(Put(fields, steps + [last], v).0), steps) == Ok(Obj(FieldsAt(Get(Obj(fields), steps))[key := v]))
    decreases |steps|
  {
    var last := KeyPath.Step(key, Whole);
    if steps == [] {
      assert steps + [last] == [last];
    } else {
      assert (steps + [last])[1..] == steps[1..] + [last];
      var place := Enter(fields, steps[0]).value;
      ParentAfter(place.Child(), steps[1..], key, v);
      ChildOrNothing(fields, steps[0], steps[1..]);
    }
  }

  /** Reading on from what a writer enters finds the object a reader of the whole path finds, or an empty one. */
  lemma ChildOrNothing(fields: Fields, step: KeyPath.Step, rest: seq<KeyPath.Step>)
    requires step.selector.Whole? && forall i :: 0 <= i < |rest| ==> rest[i].selector.Whole?
    ensures FieldsAt(Get(Obj(Enter(fields, step).value.Child()), rest)) == FieldsAt(Get(Obj(fields), [step] + rest))
  {
    assert ([step] + rest)[1..] == rest;
    var seen := Look(Obj(fields), step);
    if rest != [] && (seen.Err? || !seen.value.Obj?) {
      assert Look(Obj(map[]), rest[0]).Err?;
    }
  }

  // ---- The paths the actions use ----

  const SEAL_NAMES := [LINKS, "genesis"]
  const USED_NAMES := [LINKS, USED]

  lemma LiteralNames()
    ensures IsName(LINKS) && IsName(USED) && IsName("genesis") && IsName("records") && IsName("approvals") && IsName("proofs") && IsName("record")
    ensures Join(SEAL_NAMES) == SEAL_PATH && Join(USED_NAMES) == LINKS + "." + USED
  {
  }

  lemma SafeKeyIsName(s: string)
    ensures IsName(SafeRecordKey(s))
  {
  }

  /** The names of the path each kind of write goes to. */
  datatype Target = RecordOf(linkID: string) | ProofOf(linkID: string) | ProofRecordOf(linkID: string) | ApprovalOf(id: string) | UsedOf(jti: string) {
    function Names(): seq<string> {
      match this
      case RecordOf(linkID) => [LINKS, "records", SafeRecordKey(linkID)]
      case ProofOf(linkID) => ["proofs", LINKS, SafeRecordKey(linkID)]
      case ProofRecordOf(linkID) => ["proofs", LINKS, SafeRecordKey(linkID), "record"]
      case ApprovalOf(id) => [LINKS, "approvals", SafeRecordKey(id)]
      case UsedOf(jti) => [LINKS, USED, SafeRecordKey(jti)]
    }

    function Path(): string {
      match this
      case RecordOf(linkID) => RecordPath(linkID)
      case ProofOf(linkID) => ProofPath(linkID)
      case ProofRecordOf(linkID) => ProofRecordPath(linkID)
      case ApprovalOf(id) => ApprovalPath(id)
      case UsedOf(jti) => UsedPath(jti)
    }
  }

  lemma TargetNames(t: Target)
    ensures AllNames(t.Names()) && Join(t.Names()) == t.Path()
  {
    LiteralNames();
    SafeKeyIsName(match t case RecordOf(s) => s case ProofOf(s) => s case ProofRecordOf(s) => s case ApprovalOf(s) => s case UsedOf(s) => s);
    var parts := t.Names();
    hide SafeRecordKey;
    assert Join(parts) == parts[0] + "." + Join(parts[1..]);
    assert Join(parts[1..]) == parts[1] + "." + Join(parts[1..][1..]);
    assert parts[1..][1..] == parts[2..];
    if |parts| == 4 {
      assert Join(parts[2..]) == parts[2] + "." + parts[3];
    }
  }

  lemma TargetsApart(t: Target)
    ensures Parts(Steps(t.Names()), Steps(SEAL_NAMES))
    ensures !t.UsedOf? ==> Parts(Steps(t.Names()), Steps(USED_NAMES))
  {
    hide SafeRecordKey;
    var p := Steps(t.Names());
    assert p[1..][0] == p[1];
    var seal, used := Steps(SEAL_NAMES), Steps(USED_NAMES);
    assert seal[1..][0] == seal[1] && used[1..][0] == used[1];
  }

  lemma SealApart()
    ensures Parts(Steps(SEAL_NAMES), Steps(USED_NAMES))
  {
    var seal, used := Steps(SEAL_NAMES), Steps(USED_NAMES);
    assert seal[1..][0] == seal[1] && used[1..][0] == used[1];
  }

  /** No record, proof, approval or used-approval write reaches the seal. */
  lemma SealKept(root: Fields, t: Target, v: Json)
    ensures Seen(Load(Stored(root, t.Path(), v), SEAL_PATH)) == Seen(Load(root, SEAL_PATH))
  {
    LiteralNames();
    TargetNames(t);
    TargetsApart(t);
    NamesFrame(root, t.Names(), v, SEAL_NAMES);
  }

  lemma UsedKept(root: Fields, t: Target, v: Json)
    requires !t.UsedOf?
    ensures Seen(Load(Stored(root, t.Path(), v), LINKS + "." + USED)) == Seen(Load(root, LINKS + "." + USED))
  {
    LiteralNames();
    TargetNames(t);
    TargetsApart(t);
    NamesFrame(root, t.Names(), v, USED_NAMES);
  }

  // ---- One action ----

  datatype Action =
    | DoGenesis(sealing: Sealing)
    | DoApprove(order: ApprovalOrder, issuer: Option<Descriptor>, sign: Signer, now: int, id: string, uuid: string)
    | DoComplete(completion: Completion, now: int)
    | DoRevoke(linkID: string, now: int)

  function Act(env: Env, root: Fields, a: Action): Fields {
    match a
    case DoGenesis(g) => Genesis(env, root, g).0
    case DoApprove(o, issuer, sign, now, id, uuid) => Approve(env, root, o, issuer, sign, now, id, uuid).0
    case DoComplete(e, now) => Finish(env, root, e, now).0
    case DoRevoke(linkID, now) => Revoke(env, root, linkID, now).0
  }

  /** The cell's storage after the actions, one at a time. */
  function After(env: Env, root: Fields, actions: seq<Action>): Fields
    decreases |actions|
  {
    if actions == [] then root else After(env, Act(env, root, actions[0]), actions[1..])
  }

  function SealAt(root: Fields): Option<Json> {
    Seen(Load(root, SEAL_PATH))
  }

  lemma SealWellMade()
    ensures WellMade(SEAL) && NeverLacks(SEAL)
  {
    SealFieldsWellMade();
    SealNeverLacks();
    hide WellMade;
    hide NeverLacks;
    hide RuleFits;
    hide KindWellMade;
    WellMadeFrom(SEAL);
  }

  lemma SealFieldsWellMade()
    ensures KeysDiffer(SEAL.fields)
    ensures forall i :: 0 <= i < |SEAL.fields| ==> RuleFits(SEAL.fields[i]) && KindWellMade(SEAL.fields[i].kind)
  {
    ProofPartsWellMade();
    hide WellMade;
  }

  lemma SealNeverLacks()
    ensures NeverLacks(SEAL)
  {
    assert NeverLacks(APPROVAL_PROOF);
  }

  /** A stored seal is found again. */
  lemma SealFound(anchorID: string, at: string, trigger: string, initiator: Descriptor, signature: Bytes, root: Fields)
    requires var v := ToStored(SealModel(anchorID, at, trigger, initiator, Some(signature)), SEAL); v.Ok? && SealAt(root) == Some(v.value)
    ensures GenesisSeal(root).Some?
  {
    var m := SealModel(anchorID, at, trigger, initiator, Some(signature));
    SealWellMade();
    NothingLacking(m, SEAL);
    RoundTripModel(m, SEAL);
    hide ToWire;
    hide FromWire;
    hide SealModel;
    hide WellMade;
    hide NeverLacks;
    hide Read;
  }

  /** A genesis that goes through leaves a seal in place, the value it returns. */
  lemma GenesisSeals(env: Env, root: Fields, g: Sealing)
    requires Genesis(env, root, g).1.Ok?
    ensures var (root', r) := Genesis(env, root, g); SealAt(root') == Some(r.value) && GenesisSeal(root').Some?
    ensures GenesisSeal(root).None?
  {
    hide SealGenesis;
    hide GenesisSeal;
    hide Stored;
    hide Load;
    hide RecordPath;
    hide ProofPath;
    var (sealValue, recordValue) := SealGenesis(env, g).value;
    var linkID := GENESIS_PREFIX + g.anchorID;
    var sealed := Stored(root, SEAL_PATH, sealValue);
    var recorded := Stored(sealed, RecordOf(linkID).Path(), recordValue);
    SealWritten(root, sealValue);
    SealKept(sealed, RecordOf(linkID), recordValue);
    SealKept(recorded, ProofOf(linkID), Obj(map["record" := recordValue, "seal" := sealValue]));
    assert SealAt(Genesis(env, root, g).0) == Some(sealValue);
    hide Genesis;
    SealMadeFound(env, g, Genesis(env, root, g).0);
  }

  lemma SealWritten(root: Fields, v: Json)
    ensures SealAt(Stored(root, SEAL_PATH, v)) == Some(v)
  {
    LiteralNames();
    hide Stored;
    hide Load;
    NamesWritten(root, SEAL_NAMES, v);
  }

  lemma SealMadeFound(env: Env, g: Sealing, root: Fields)
    requires SealGenesis(env, g).Ok? && SealAt(root) == Some(SealGenesis(env, g).value.0)
    ensures GenesisSeal(root).Some?
  {
    hide SealGenesis;
    hide GenesisSeal;
    hide SealAt;
    hide ToStored;
    hide SealModel;
    GenesisMade(env, g);
    var signature :|
      ToStored(SealModel(g.anchorID, env.iso.format(g.now), Trigger(g.trigger), g.initiator.value, Some(signature)), SEAL)
      == Ok(SealGenesis(env, g).value.0);
    SealFound(g.anchorID, env.iso.format(g.now), Trigger(g.trigger), g.initiator.value, signature, root);
  }

  lemma GenesisMade(env: Env, g: Sealing)
    requires SealGenesis(env, g).Ok?
    ensures g.initiator.Some?
    ensures exists signature ::
              ToStored(SealModel(g.anchorID, env.iso.format(g.now), Trigger(g.trigger), g.initiator.value, Some(signature)), SEAL)
              == Ok(SealGenesis(env, g).value.0)
  {
    hide ToStored;
    hide SealModel;
    hide SignedBytes;
    hide RecordModel;
  }

  lemma ApproveWrites(env: Env, root: Fields, o: ApprovalOrder, issuer: Option<Descriptor>, sign: Signer, now: int, id: string, uuid: string)
    ensures var after := Approve(env, root, o, issuer, sign, now, id, uuid).0;
            after == root || exists t: Target, v :: !t.UsedOf? && after == Stored(root, t.Path(), v)
  {
    hide ToStored;
    hide ApproveEnrollment;
    hide PackageModel;
    hide Stored;
    forall s, v
      ensures Stored(root, ApprovalPath(s), v) == Stored(root, ApprovalOf(s).Path(), v)
    {
    }
  }

  lemma CompleteWrites(env: Env, root: Fields, e: Completion, now: int)
    ensures var (after, r) := Finish(env, root, e, now);
            && (r.Err? ==> after == root)
            && (r.Ok? ==> exists v ::
                  after == Stored(Stored(Stored(root, RecordOf(r.value.record.linkID).Path(), v),
                                         ProofOf(r.value.record.linkID).Path(), ProofEntry(r.value, v)),
                                  UsedOf(r.value.approvalJTI).Path(), Str(r.value.approvalJTI)))
  {
    hide ToStored;
    hide VerifyCompletion;
    hide RecordModel;
    hide ProofEntry;
    hide Stored;
  }

  lemma RevokeWrites(env: Env, root: Fields, linkID: string, now: int)
    ensures var after := Revoke(env, root, linkID, now).0;
            after == root || exists v :: after == Stored(Stored(root, RecordOf(linkID).Path(), v), ProofRecordOf(linkID).Path(), v)
  {
    var stored := Load(root, RecordPath(linkID));
    hide Revoked;
    hide Load;
    hide Stored;
    if Revoke(env, root, linkID, now).1.Ok? {
      var v := Revoked(env, stored.value, now).value;
      assert Revoke(env, root, linkID, now).0
          == Stored(Stored(root, RecordOf(linkID).Path(), v), ProofRecordOf(linkID).Path(), v);
    }
  }

  lemma GenesisWrites(env: Env, root: Fields, g: Sealing)
    ensures var (after, r) := Genesis(env, root, g);
            && (r.Err? ==> after == root)
            && (r.Ok? ==> exists v, w ::
                  after == Stored(Stored(Stored(root, SEAL_PATH, r.value), RecordOf(GENESIS_PREFIX + g.anchorID).Path(), v),
                                  ProofOf(GENESIS_PREFIX + g.anchorID).Path(), w))
  {
    hide GenesisSeal;
    hide SealGenesis;
    hide Stored;
    if Genesis(env, root, g).1.Ok? {
      var (v, w) := SealGenesis(env, g).value;
      assert Genesis(env, root, g).0
          == Stored(Stored(Stored(root, SEAL_PATH, v), RecordOf(GENESIS_PREFIX + g.anchorID).Path(), w),
                    ProofOf(GENESIS_PREFIX + g.anchorID).Path(), Obj(map["record" := w, "seal" := v]));
    }
  }

  lemma TargetsKeepSeal()
    ensures forall root: Fields, t: Target, v :: SealAt(Stored(root, t.Path(), v)) == SealAt(root)
  {
    forall root: Fields, t: Target, v
      ensures SealAt(Stored(root, t.Path(), v)) == SealAt(root)
    {
      SealKept(root, t, v);
    }
  }

  lemma GenesisRefused(env: Env, root: Fields, g: Sealing)
    requires GenesisSeal(root).Some?
    ensures Genesis(env, root, g) == (root, Err("alreadySealed"))
  {
    hide GenesisSeal;
    hide SealGenesis;
    hide Stored;
  }

  /** Nothing but a genesis without a seal touches what stands at the seal's path. */
  lemma ActKeepsSeal(env: Env, root: Fields, a: Action)
    requires GenesisSeal(root).Some? || !a.DoGenesis?
    ensures SealAt(Act(env, root, a)) == SealAt(root)
  {
    hide SealAt;
    hide GenesisSeal;
    hide Stored;
    hide Genesis;
    hide Finish;
    hide Approve;
    hide Revoke;
    hide ProofEntry;
    hide Target.Path;
    TargetsKeepSeal();
    match a
    case DoGenesis(g) => GenesisRefused(env, root, g);
    case DoApprove(o, issuer, sign, now, id, uuid) => ApproveWrites(env, root, o, issuer, sign, now, id, uuid);
    case DoComplete(e, now) => CompleteWrites(env, root, e, now);
    case DoRevoke(linkID, now) => RevokeWrites(env, root, linkID, now);
  }

  /** Once sealed, the seal is there for good, unchanged, and every further genesis is refused. */
  lemma {:induction false} SealStays(env: Env, root: Fields, actions: seq<Action>, g: Sealing)
    requires GenesisSeal(root).Some?
    ensures SealAt(After(env, root, actions)) == SealAt(root)
    ensures Genesis(env, After(env, root, actions), g) == (After(env, root, actions), Err("alreadySealed"))
    decreases |actions|
  {
    hide SealAt;
    hide GenesisSeal;
    hide Act;
    hide Genesis;
    SealSeen(root, After(env, root, actions));
    if actions != [] {
      var next := Act(env, root, actions[0]);
      ActKeepsSeal(env, root, actions[0]);
      SealSeen(root, next);
      SealStays(env, next, actions[1..], g);
    }
    GenesisRefused(env, After(env, root, actions), g);
  }

  lemma SealSeen(root: Fields, other: Fields)
    ensures SealAt(root) == SealAt(other) ==> GenesisSeal(root) == GenesisSeal(other)
  {
    hide Load;
    hide FromWire;
  }

  /** In any sequence of actions at most one genesis goes through, and the seal is then that one's. */
  lemma SealedOnce(env: Env, root: Fields, first: Sealing, actions: seq<Action>, second: Sealing)
    requires Genesis(env, root, first).1.Ok?
    ensures var after := After(env, Genesis(env, root, first).0, actions);
            && SealAt(after) == Some(Genesis(env, root, first).1.value)
            && Genesis(env, after, second) == (after, Err("alreadySealed"))
  {
    hide Genesis;
    hide GenesisSeal;
    hide SealAt;
    hide After;
    GenesisSeals(env, root, first);
    SealStays(env, Genesis(env, root, first).0, actions, second);
  }

  // ---- Approvals used once ----

  /** The entries of usedApprovalJTIs. */
  function UsedFields(root: Fields): Fields {
    FieldsAt(Load(root, LINKS + "." + USED))
  }

  /** Entries are kept under the safe form of the JTI they hold. */
  predicate Keyed(used: Fields) {
    forall key :: key in used ==> used[key].Str? && SafeRecordKey(used[key].s) == key
  }

  lemma UsedIsUsed(root: Fields, jti: string)
    requires Keyed(UsedFields(root))
    ensures jti in UsedJTIs(root) <==>
              SafeRecordKey(jti) in UsedFields(root) && UsedFields(root)[SafeRecordKey(jti)] == Str(jti)
  {
    hide Load;
    hide SafeRecordKey;
    var used := UsedFields(root);
    if jti in UsedJTIs(root) {
      var key :| key in used && jti == if used[key].Str? then used[key].s else key;
    }
  }

  lemma NamesParent(root: Fields, names: seq<string>, key: string, v: Json)
    requires AllNames(names) && "" !in names && IsName(key) && key != ""
    ensures FieldsAt(Load(Stored(root, Join(names + [key]), v), Join(names))) == FieldsAt(Load(root, Join(names)))[key := v]
  {
    hide Put;
    hide Get;
    hide Parse;
    hide Join;
    hide IsName;
    NamesPath(names + [key]);
    NamesPath(names);
    assert Steps(names + [key]) == Steps(names) + [KeyPath.Step(key, Whole)];
    ParentAfter(root, Steps(names), key, v);
  }

  lemma UsedWritten(root: Fields, jti: string)
    requires jti != ""
    ensures UsedFields(Stored(root, UsedPath(jti), Str(jti))) == UsedFields(root)[SafeRecordKey(jti) := Str(jti)]
  {
    var t := UsedOf(jti);
    LiteralNames();
    TargetNames(t);
    SafeKeyIsName(jti);
    assert t.Names() == USED_NAMES + [SafeRecordKey(jti)];
    assert SafeRecordKey(jti) != "";
    hide SafeRecordKey;
    hide Stored;
    hide Load;
    hide IsName;
    NamesParent(root, USED_NAMES, SafeRecordKey(jti), Str(jti));
  }

  lemma CompletedJTI(env: Env, e: Completion, now: int, used: set<string>)
    requires VerifyCompletion(env, e, now, used, None).Ok?
    ensures VerifyCompletion(env, e, now, used, None).value.approvalJTI !in used
    ensures VerifyCompletion(env, e, now, used, None).value.approvalJTI != ""
  {
    AcceptedVerifies(env, e, now, used, None);
    hide VerifyCompletion;
  }

  /** A completion uses a JTI not used so far and enters it; nothing else changes the used ones. */
  lemma CompleteUses(env: Env, root: Fields, e: Completion, now: int)
    ensures var (after, r) := Finish(env, root, e, now);
            && (r.Err? ==> UsedFields(after) == UsedFields(root))
            && (r.Ok? ==> r.value.approvalJTI !in UsedJTIs(root)
                          && UsedFields(after) == UsedFields(root)[SafeRecordKey(r.value.approvalJTI) := Str(r.value.approvalJTI)])
  {
    hide Finish;
    hide UsedJTIs;
    hide UsedFields;
    hide Stored;
    hide ProofEntry;
    hide SafeRecordKey;
    CompleteWrites(env, root, e, now);
    var (after, r) := Finish(env, root, e, now);
    if r.Ok? {
      CompleteChecks(env, root, e, now);
      var linkID, jti := r.value.record.linkID, r.value.approvalJTI;
      var v :| after == Stored(Stored(Stored(root, RecordOf(linkID).Path(), v), ProofOf(linkID).Path(), ProofEntry(r.value, v)), UsedOf(jti).Path(), Str(jti));
      ThreeWrites(root, linkID, jti, v, ProofEntry(r.value, v));
    }
  }

  lemma ThreeWrites(root: Fields, linkID: string, jti: string, record: Json, proof: Json)
    requires jti != ""
    ensures UsedFields(Stored(Stored(Stored(root, RecordOf(linkID).Path(), record), ProofOf(linkID).Path(), proof), UsedPath(jti), Str(jti)))
            == UsedFields(root)[SafeRecordKey(jti) := Str(jti)]
  {
    hide Stored;
    hide Load;
    hide SafeRecordKey;
    hide RecordPath;
    hide ProofPath;
    hide UsedPath;
    var one := Stored(root, RecordOf(linkID).Path(), record);
    UsedKept(root, RecordOf(linkID), record);
    UsedKept(one, ProofOf(linkID), proof);
    UsedWritten(Stored(one, ProofOf(linkID).Path(), proof), jti);
  }

  lemma CompleteChecks(env: Env, root: Fields, e: Completion, now: int)
    requires Finish(env, root, e, now).1.Ok?
    ensures Finish(env, root, e, now).1.value.approvalJTI !in UsedJTIs(root)
    ensures Finish(env, root, e, now).1.value.approvalJTI != ""
  {
    CompletedJTI(env, e, now, UsedJTIs(root));
    hide VerifyCompletion;
    hide UsedJTIs;
    hide ToStored;
    hide Stored;
  }

  lemma TargetsKeepUsed()
    ensures forall root: Fields, t: Target, v :: !t.UsedOf? ==> UsedFields(Stored(root, t.Path(), v)) == UsedFields(root)
    ensures forall root: Fields, v :: UsedFields(Stored(root, SEAL_PATH, v)) == UsedFields(root)
  {
    forall root: Fields, t: Target, v | !t.UsedOf?
      ensures UsedFields(Stored(root, t.Path(), v)) == UsedFields(root)
    {
      UsedKept(root, t, v);
    }
    forall root: Fields, v
      ensures UsedFields(Stored(root, SEAL_PATH, v)) == UsedFields(root)
    {
      LiteralNames();
      SealApart();
      NamesFrame(root, SEAL_NAMES, v, USED_NAMES);
    }
  }

  lemma OthersKeepUsed(env: Env, root: Fields, a: Action)
    requires !a.DoComplete?
    ensures UsedFields(Act(env, root, a)) == UsedFields(root)
  {
    hide UsedFields;
    hide Stored;
    hide Genesis;
    hide Approve;
    hide Finish;
    hide Revoke;
    hide Target.Path;
    TargetsKeepUsed();
    match a
    case DoGenesis(g) => GenesisWrites(env, root, g);
    case DoApprove(o, issuer, sign, now, id, uuid) => ApproveWrites(env, root, o, issuer, sign, now, id, uuid);
    case DoRevoke(linkID, now) => RevokeWrites(env, root, linkID, now);
  }

  /** The JTI this action uses up, if it completes an enrollment. */
  function UsedBy(env: Env, root: Fields, a: Action): Option<string> {
    if a.DoComplete? && Finish(env, root, a.completion, a.now).1.Ok? then
      Some(Finish(env, root, a.completion, a.now).1.value.approvalJTI)
    else None
  }

  lemma ActUses(env: Env, root: Fields, a: Action)
    ensures UsedFields(Act(env, root, a)) ==
            match UsedBy(env, root, a)
            case Some(jti) => UsedFields(root)[SafeRecordKey(jti) := Str(jti)]
            case None => UsedFields(root)
    ensures UsedBy(env, root, a).Some? ==> UsedBy(env, root, a).value !in UsedJTIs(root)
    ensures Keyed(UsedFields(root)) ==> Keyed(UsedFields(Act(env, root, a)))
  {
    hide Finish;
    hide Genesis;
    hide Approve;
    hide Revoke;
    hide UsedFields;
    hide UsedJTIs;
    hide SafeRecordKey;
    if a.DoComplete? {
      CompleteUses(env, root, a.completion, a.now);
    } else {
      OthersKeepUsed(env, root, a);
    }
  }

  /** The last JTI completed among those that share this one's safe key. */
  function LastSharing(env: Env, root: Fields, actions: seq<Action>, jti: string): Option<string>
    decreases |actions|
  {
    if actions == [] then None
    else
      var later := LastSharing(env, Act(env, root, actions[0]), actions[1..], jti);
      var used := UsedBy(env, root, actions[0]);
      if later.Some? then later
      else if used.Some? && SafeRecordKey(used.value) == SafeRecordKey(jti) then used
      else None
  }

  /**
   * Over any run, a JTI once completed is still refused exactly when no other JTI with the same safe key
   * has completed since.
   */
  lemma {:induction false} RememberedExactly(env: Env, root: Fields, actions: seq<Action>, jti: string)
    requires Keyed(UsedFields(root))
    ensures Keyed(UsedFields(After(env, root, actions)))
    ensures jti in UsedJTIs(After(env, root, actions)) <==>
              match LastSharing(env, root, actions, jti)
              case Some(last) => last == jti
              case None => jti in UsedJTIs(root)
    decreases |actions|
  {
    hide Act;
    hide UsedFields;
    hide UsedJTIs;
    hide Keyed;
    hide UsedBy;
    hide SafeRecordKey;
    if actions != [] {
      ActRemembers(env, root, actions[0], jti);
      RememberedExactly(env, Act(env, root, actions[0]), actions[1..], jti);
    }
  }

  lemma ActRemembers(env: Env, root: Fields, a: Action, jti: string)
    requires Keyed(UsedFields(root))
    ensures var used, next := UsedBy(env, root, a), Act(env, root, a);
            && Keyed(UsedFields(next))
            && (jti in UsedJTIs(next) <==>
                  if used.Some? && SafeRecordKey(used.value) == SafeRecordKey(jti) then used.value == jti else jti in UsedJTIs(root))
  {
    hide Act;
    hide UsedFields;
    hide UsedJTIs;
    hide Keyed;
    hide UsedBy;
    hide SafeRecordKey;
    ActUses(env, root, a);
    UsedIsUsed(root, jti);
    UsedIsUsed(Act(env, root, a), jti);
  }

  lemma Finished(env: Env, root: Fields, e: Completion, now: int)
    requires Keyed(UsedFields(root)) && Finish(env, root, e, now).1.Ok?
    ensures var (after, r) := Finish(env, root, e, now);
            && Act(env, root, DoComplete(e, now)) == after
            && UsedBy(env, root, DoComplete(e, now)) == Some(r.value.approvalJTI)
            && Keyed(UsedFields(after)) && r.value.approvalJTI in UsedJTIs(after)
  {
    hide Finish;
    hide UsedFields;
    hide UsedJTIs;
    hide Keyed;
    hide SafeRecordKey;
    assert Act(env, root, DoComplete(e, now)) == Finish(env, root, e, now).0;
    assert UsedBy(env, root, DoComplete(e, now)) == Some(Finish(env, root, e, now).1.value.approvalJTI);
    hide Act;
    hide UsedBy;
    ActRemembers(env, root, DoComplete(e, now), Finish(env, root, e, now).1.value.approvalJTI);
  }

  /** A completed approval cannot complete again unless, in between, another JTI with its safe key has. */
  lemma CompletedOnce(env: Env, root: Fields, e: Completion, now: int, actions: seq<Action>, e': Completion, now': int)
    requires Keyed(UsedFields(root)) && Finish(env, root, e, now).1.Ok?
    requires var jti, after := Finish(env, root, e, now).1.value.approvalJTI, Finish(env, root, e, now).0;
             LastSharing(env, after, actions, jti).Some? ==> LastSharing(env, after, actions, jti).value == jti
    ensures var jti, after := Finish(env, root, e, now).1.value.approvalJTI, Finish(env, root, e, now).0;
            var again := Finish(env, After(env, after, actions), e', now').1;
            again.Ok? ==> again.value.approvalJTI != jti
  {
    hide Finish;
    hide Act;
    hide After;
    hide UsedFields;
    hide UsedBy;
    hide UsedJTIs;
    hide Keyed;
    hide LastSharing;
    hide SafeRecordKey;
    var jti, after := Finish(env, root, e, now).1.value.approvalJTI, Finish(env, root, e, now).0;
    Finished(env, root, e, now);
    RememberedExactly(env, after, actions, jti);
    CompleteUses(env, After(env, after, actions), e', now');
  }

  lemma DotBecomesUnderscore()
    ensures SafeRecordKey("a.b") == "a_b" && SafeRecordKey("a_b") == "a_b" && "a.b" != "a_b"
  {
    assert "a.b"[1] != "a_b"[1];
  }

  /** The safe key does run JTIs together, and completing one such makes the anchor forget the other. */
  lemma CollidingJTIForgotten(env: Env, root: Fields, e: Completion, now: int)
    requires Keyed(UsedFields(root)) && Finish(env, root, e, now).1.Ok?
    requires Finish(env, root, e, now).1.value.approvalJTI == "a_b"
    ensures SafeRecordKey("a.b") == "a_b" && "a.b" !in UsedJTIs(Finish(env, root, e, now).0)
  {
    DotBecomesUnderscore();
    hide Finish;
    hide UsedFields;
    hide UsedJTIs;
    hide SafeRecordKey;
    hide Genesis;
    hide Approve;
    hide Revoke;
    var a := DoComplete(e, now);
    ActUses(env, root, a);
    UsedIsUsed(Act(env, root, a), "a.b");
  }

  lemma RecordKeysApart()
    ensures KeysApart(RECORD.fields, 0, 8)
  {
  }

  lemma RecordLateKeysApart()
    ensures KeysApart(RECORD.fields, 8, 13) && |RECORD.fields| == 13
  {
  }

  lemma RecordFieldsWellMade()
    ensures forall i :: 0 <= i < |RECORD.fields| ==> RuleFits(RECORD.fields[i]) && KindWellMade(RECORD.fields[i].kind)
  {
    IdentityPartsWellMade();
    hide WellMade;
  }

  /** Every record can be stored. */
  lemma RecordStores(r: Record)
    ensures Fits(RecordModel(r), RECORD) && ToStored(RecordModel(r), RECORD).Ok?
  {
    RecordFits(r);
    RecordKeysApart();
    RecordLateKeysApart();
    RecordFieldsWellMade();
    RecordComplete(RecordModel(r));
    hide RECORD;
    hide RecordModel;
    hide RuleFits;
    hide KindWellMade;
    hide Fits;
    hide CompleteModel;
    hide ToWire;
    hide WellMade;
    WellMadeFrom(RECORD);
    RoundTripModel(RecordModel(r), RECORD);
  }

  lemma RecordComplete(m: Model)
    requires Fits(m, RECORD)
    ensures CompleteModel(m, RECORD)
  {
    assert NeverLacks(BINDING) && NeverLacks(DESCRIPTOR);
    assert NeverLacks(RECORD);
    NothingLacking(m, RECORD);
  }

  /** Whether an envelope completes depends on the anchor only through its JTI being used. */
  lemma FinishesIffUnused(env: Env, root: Fields, e: Completion, now: int)
    requires VerifyCompletion(env, e, now, {}, None).Ok?
    ensures Finish(env, root, e, now).1.Ok? <==> e.approval.jti !in UsedJTIs(root)
    ensures Finish(env, root, e, now).1.Ok? ==> Finish(env, root, e, now).1.value.approvalJTI == e.approval.jti
  {
    UsedDecides(env, e, now, {}, UsedJTIs(root), None);
    if VerifyCompletion(env, e, now, UsedJTIs(root), None).Ok? {
      AcceptedVerifies(env, e, now, UsedJTIs(root), None);
      RecordStores(VerifyCompletion(env, e, now, UsedJTIs(root), None).value.record);
    }
    hide VerifyCompletion;
    hide UsedJTIs;
    hide ToStored;
    hide Stored;
    hide ProofEntry;
  }

  /**
   * Once completed, an approval that still verifies completes a second time, after any further actions,
   * exactly when the last completion under its safe key was another JTI's.
   */
  lemma CompletesAgainIff(env: Env, root: Fields, e: Completion, now: int, actions: seq<Action>, later: int)
    requires Keyed(UsedFields(root)) && Finish(env, root, e, now).1.Ok? && VerifyCompletion(env, e, later, {}, None).Ok?
    ensures var after := Finish(env, root, e, now).0;
            var last := LastSharing(env, after, actions, e.approval.jti);
            Finish(env, After(env, after, actions), e, later).1.Ok? <==> last.Some? && last.value != e.approval.jti
  {
    hide Finish;
    hide Act;
    hide After;
    hide UsedFields;
    hide UsedBy;
    hide UsedJTIs;
    hide Keyed;
    hide LastSharing;
    hide SafeRecordKey;
    hide VerifyCompletion;
    var after := Finish(env, root, e, now).0;
    FinishedJTI(env, root, e, now);
    Finished(env, root, e, now);
    RememberedExactly(env, after, actions, e.approval.jti);
    FinishesIffUnused(env, After(env, after, actions), e, later);
  }

  lemma FinishedJTI(env: Env, root: Fields, e: Completion, now: int)
    requires Finish(env, root, e, now).1.Ok?
    ensures Finish(env, root, e, now).1.value.approvalJTI == e.approval.jti
  {
    hide VerifyCompletion;
    AcceptedVerifies(env, e, now, UsedJTIs(root), None);
    hide UsedJTIs;
    hide ToStored;
    hide Stored;
    hide ProofEntry;
  }

  /** So the completion of a.b goes through again once a_b has completed. */
  lemma CollidingCompletesAgain(env: Env, root: Fields, e: Completion, now: int, other: Completion, between: int, later: int)
    requires Keyed(UsedFields(root)) && Finish(env, root, e, now).1.Ok? && e.approval.jti == "a.b"
    requires Finish(env, Finish(env, root, e, now).0, other, between).1.Ok? && other.approval.jti == "a_b"
    requires VerifyCompletion(env, e, later, {}, None).Ok?
    ensures Finish(env, Finish(env, Finish(env, root, e, now).0, other, between).0, e, later).1.Ok?
  {
    hide Finish;
    hide VerifyCompletion;
    hide SafeRecordKey;
    hide LastSharing;
    hide Act;
    hide UsedFields;
    hide UsedJTIs;
    hide UsedBy;
    hide Keyed;
    var after, action := Finish(env, root, e, now).0, DoComplete(other, between);
    DotBecomesUnderscore();
    Finished(env, root, e, now);
    Finished(env, after, other, between);
    FinishedJTI(env, after, other, between);
    OneLastSharing(env, after, action, "a.b");
    CompletesAgainIff(env, root, e, now, [action], later);
    assert [action][1..] == [];
    assert After(env, after, [action]) == Act(env, after, action);
  }

  lemma OneLastSharing(env: Env, root: Fields, action: Action, jti: string)
    ensures LastSharing(env, root, [action], jti) ==
            (var used := UsedBy(env, root, action);
             if used.Some? && SafeRecordKey(used.value) == SafeRecordKey(jti) then used else None)
  {
    hide UsedBy;
    hide SafeRecordKey;
    hide Act;
    assert [action][1..] == [];
  }

  // ---- The cell ----

  const ROOTS := {"person", "purposes", "relations", "proofs", "signedAgreementEntity", "entityRepresentation", "agreements", "bindings", "identityLinks"}

  function NewStorage(): Fields {
    (map r | r in ROOTS :: Obj(map[]))["chronicle" := List([])]
  }

  lemma NothingBelow(root: Fields, first: string, name: string)
    requires IsName(first) && IsName(name) && first != "" && name != "" && first in root && root[first] == Obj(map[])
    ensures Load(root, Join([first, name])).Err?
  {
    var names := [first, name];
    NamesPath(names);
    hide Parse;
    hide Join;
    hide IsName;
    var steps := Steps(names);
    assert Look(Obj(root), steps[0]) == Ok(Obj(map[]));
    assert steps[1..][0] == steps[1];
    assert Get(Obj(map[]), steps[1..]).Err?;
    assert names[0] == first && names[1] == name;
  }

  lemma LinksEmpty()
    ensures LINKS in NewStorage() && NewStorage()[LINKS] == Obj(map[])
  {
    assert LINKS in ROOTS && LINKS != "chronicle";
  }

  /** A new anchor is unsealed and has used no approval. */
  lemma NewIsUnsealed()
    ensures GenesisSeal(NewStorage()).None? && UsedFields(NewStorage()) == map[] && Keyed(UsedFields(NewStorage()))
  {
    LiteralNames();
    LinksEmpty();
    hide NewStorage;
    NothingBelow(NewStorage(), LINKS, "genesis");
    NothingBelow(NewStorage(), LINKS, USED);
    hide FromWire;
  }

  class EntityAnchor {
    var storage: Fields

    constructor ()
      ensures storage == NewStorage()
    {
      storage := NewStorage();
    }

    method Store(path: string, v: Json)
      modifies this
      ensures storage == Stored(old(storage), path, v)
    {
      var steps := ParseKeyPath(path);
      if steps.Ok? && steps.value != [] {
        var after, _ := SetSteps(storage, steps.value, v);
        storage := after;
      }
    }

    method Seal(env: Env, g: Sealing) returns (r: Result<Json>)
      modifies this
      ensures (storage, r) == Genesis(env, old(storage), g)
    {
      hide SealGenesis;
      hide Write;
      if GenesisSeal(storage).Some? {
        return Err("alreadySealed");
      }
      if !g.provesOwnership {
        return Err("initiatorIsNotOwner");
      }
      var made :- SealGenesis(env, g);
      var linkID := GENESIS_PREFIX + g.anchorID;
      Store(SEAL_PATH, made.0);
      Store(RecordPath(linkID), made.1);
      Store(ProofPath(linkID), Obj(map["record" := made.1, "seal" := made.0]));
      r := Ok(made.0);
    }

    method ApproveLink(env: Env, o: ApprovalOrder, issuer: Option<Descriptor>, sign: Signer, now: int, id: string, uuid: string) returns (r: Result<Json>)
      modifies this
      ensures (storage, r) == Approve(env, old(storage), o, issuer, sign, now, id, uuid)
    {
      hide ApproveEnrollment;
      hide ToStored;
      hide Write;
      if issuer.None? {
        return Err("missingRequiredContext");
      }
      var pkg :- ApproveEnrollment(env, o, issuer.value, sign, now, id, uuid);
      var value :- ToStored(PackageModel(pkg), PACKAGE);
      Store(ApprovalPath(pkg.approval.approvalID), value);
      r := Ok(value);
    }

    method CompleteLink(env: Env, e: Completion, now: int) returns (r: Result<Completed>)
      modifies this
      ensures (storage, r) == Finish(env, old(storage), e, now)
    {
      hide VerifyCompletion;
      hide ToStored;
      hide Write;
      var c :- VerifyCompletion(env, e, now, UsedJTIs(storage), None);
      RecordFits(c.record);
      var value :- ToStored(RecordModel(c.record), RECORD);
      Store(RecordPath(c.record.linkID), value);
      Store(ProofPath(c.record.linkID), ProofEntry(c, value));
      Store(UsedPath(c.approvalJTI), Str(c.approvalJTI));
      r := Ok(c);
    }

    method RevokeLink(env: Env, linkID: string, now: int) returns (r: Result<Json>)
      modifies this
      ensures (storage, r) == Revoke(env, old(storage), linkID, now)
    {
      hide Revoked;
      hide Write;
      if linkID == "" {
        return Err("missingRequiredContext");
      }
      if GENESIS_PREFIX <= linkID {
        return Err("cannotRevokeGenesisLink");
      }
      var stored := GetKeyPath(Obj(storage), RecordPath(linkID));
      if stored.Err? || stored.value == Null {
        return Err("recordNotFound");
      }
      var value :- Revoked(env, stored.value, now);
      Store(RecordPath(linkID), value);
      Store(ProofRecordPath(linkID), value);
      r := Ok(value);
    }
  }
}
