/** Extending an entity with a new key: request, approval, credential, presentation, and the check of all four. */
module Enrollment {
  import opened Prelude
  import opened Text
  import opened KeyOrder
  import opened JsonCodec
  import opened Wire
  import opened ChannelCodec
  import opened EnrollmentModels
  import Base58

  const SECOND := 1_000_000_000

  /** ISO 8601 in UTC to whole seconds, over times in nanoseconds since 1970. */
  datatype Iso = Iso(format: int -> string, parse: string -> Option<int>)

  /** What the library gives the code: signatures, SHA-256, dates, and case folding for key order. */
  datatype Env = Env(crypto: Crypto, sha: Bytes -> Bytes, iso: Iso, fold: Fold)

  // ---- Keys and signed bytes ----

  function CurveNamed(name: string): Option<Base58.Curve> {
    if name == "Curve25519" then Some(Base58.Curve25519)
    else if name == "secp256k1" then Some(Base58.Secp256k1)
    else if name == "P256" then Some(Base58.P256)
    else None
  }

  function DID(d: Descriptor): Result<string> {
    match CurveNamed(d.curve)
    case None => Err("missingPublicKey")
    case Some(curve) => Ok(Base58.DIDKey(curve, d.publicKey))
  }

  function ProofType(d: Descriptor): string {
    if d.algorithm == "EdDSA" && d.curve == "Curve25519" then "Ed25519Signature2020"
    else if d.algorithm == "ECDSA" && d.curve == "P256" then "EcdsaSecp256r1Signature2019"
    else ""
  }

  function RequestBytes(env: Env, r: Request): Result<Bytes> {
    RequestFits(r);
    SignedBytes(r.Model(), REQUEST, {"proof"}, env.fold)
  }

  function ApprovalBytes(env: Env, a: Approval): Result<Bytes> {
    ApprovalFits(a);
    SignedBytes(a.Model(), APPROVAL, {"proof"}, env.fold)
  }

  /** A credential or presentation is signed without its proof, keys by code point and "/" unescaped. */
  function UnsignedBytes(m: Model, s: Schema): Result<Bytes>
    requires Fits(m, s)
  {
    var w :- ToWire(m, s);
    Ok(CanonicalJSON(Obj(w - {"proof"}), CHANNEL_STYLE))
  }

  function ClaimBytes(c: Claim): Result<Bytes> {
    UnsignedBytes(c.Model(), CLAIM)
  }

  function PresentationBytes(p: Presentation): Result<Bytes> {
    PresentationFits(p);
    UnsignedBytes(p.Model(), PRESENTATION)
  }

  predicate Verifies(env: Env, signature: Bytes, payload: Result<Bytes>, d: Descriptor) {
    payload.Ok? && VerifySignature(env.crypto, signature, payload.value, d.Key())
  }

  // ---- Checks ----

  function NotExpired(env: Env, text: string, now: int): Result<()> {
    match env.iso.parse(text)
    case None => Err("invalidExpiry")
    case Some(moment) => if moment < now then Err("expired") else Ok(())
  }

  /** Go on when the condition holds. */
  function Check(condition: bool, code: string): Result<()> {
    if condition then Ok(()) else Err(code)
  }

  predicate Subset(approved: seq<string>, requested: seq<string>) {
    forall i :: 0 <= i < |approved| ==> approved[i] in requested
  }

  predicate Within(approved: Reach, requested: Reach) {
    && Subset(approved.domains, requested.domains) && Subset(approved.contexts, requested.contexts)
    && Subset(approved.scopes, requested.scopes)
  }

  function ValidateEnrollmentRequest(env: Env, r: Request, now: int): Result<Bytes> {
    var _ :- Check(r.purpose == "link_identity", "invalidPurpose");
    var _ :- Check(r.binding.Some?, "missingEntityBinding");
    var _ :- Check(|r.nonce| >= 16, "invalidNonce");
    var _ :- Check(
               !IsBlank(r.audience) && !IsBlank(r.origin) && r.requested.domains != [] && r.requested.contexts != []
               && r.requested.scopes != [], "missingRequiredContext");
    var _ :- NotExpired(env, r.expiresAt, now);
    var _ :- Check(r.proof.Some? && r.proof.value.signature != [], "missingRequestProof");
    var proof, d := r.proof.value, r.newIdentity;
    var _ :- Check(proof.byUUID == d.uuid && proof.algorithm == d.algorithm && proof.curve == d.curve, "identityMismatch");
    var payload :- RequestBytes(env, r);
    var _ :- Check(VerifySignature(env.crypto, proof.signature, payload, d.Key()), "invalidRequestSignature");
    Ok(env.sha(payload))
  }

  type Verifier = Approval -> bool

  datatype Completion = Completion(
    request: Request, approval: Approval, credential: Claim, presentation: Presentation, issuer: Descriptor,
    expectedAudience: string, expectedOrigin: string, expectedChallenge: Bytes, expectedDomain: string, requireEvidence: bool)

  const ISSUER_TYPES := {"existingDevice", "custodian", "recoveryAuthority"}

  function CheckEvidence(e: Completion, hash: Bytes, verifier: Option<Verifier>): Result<()> {
    if !e.requireEvidence then Ok(())
    else
      var evidence := e.approval.freshAuthEvidence;
      var _ :- Check(evidence.Some?, "missingFreshAuth");
      Check(evidence.value.challenge == hash && verifier.Some? && verifier.value(e.approval), "invalidFreshAuthEvidence")
  }

  function CheckApprovalFields(e: Completion, hash: Bytes, used: set<string>): Result<()> {
    var a, r := e.approval, e.request;
    var _ :- Check(a.purpose == "approve_link_identity", "invalidPurpose");
    var _ :- Check(a.requestHash == hash, "requestHashMismatch");
    var _ :- Check(a.subject.Key() == r.newIdentity.Key(), "identityMismatch");
    var _ :- Check(r.binding == Some(a.binding), "identityMismatch");
    var _ :- Check(a.audience == r.audience && a.audience == e.expectedAudience, "audienceMismatch");
    var _ :- Check(a.origin == r.origin && a.origin == e.expectedOrigin, "originMismatch");
    var _ :- Check(!IsBlank(a.jti), "missingRequiredContext");
    var _ :- Check(a.jti !in used, "replayDetected");
    var _ :- Check(a.issuerType in ISSUER_TYPES, "issuerTypeNotAllowed");
    var _ :- Check(a.issuerUUID != r.newIdentity.uuid && e.issuer.Key() != r.newIdentity.Key(), "sameKeyOnBothSides");
    Check(a.freshAuthRequired && a.freshAuthPerformedAt.Some?, "missingFreshAuth")
  }

  function CheckApprovalProof(env: Env, e: Completion): Result<()> {
    var a, issuer := e.approval, e.issuer;
    var _ :- Check(a.proof.Some? && a.proof.value.signature.Some? && a.proof.value.signature.value != [], "missingApprovalProof");
    var proof := a.proof.value;
    var _ :- Check(
               proof.issuerUUID == issuer.uuid && proof.issuerType == a.issuerType && proof.algorithm == issuer.algorithm
               && proof.curve == issuer.curve && a.issuerUUID == issuer.uuid, "issuerMismatch");
    Check(Verifies(env, proof.signature.value, ApprovalBytes(env, a), issuer), "invalidApprovalSignature")
  }

  function ValidateApproval(env: Env, e: Completion, hash: Bytes, now: int, used: set<string>, verifier: Option<Verifier>): Result<()> {
    var _ :- CheckApprovalFields(e, hash, used);
    var _ :- CheckEvidence(e, hash, verifier);
    var _ :- NotExpired(env, e.approval.expiresAt, now);
    var _ :- Check(Within(e.approval.approved, e.request.requested), "scopeEscalation");
    CheckApprovalProof(env, e)
  }

  const CREDENTIAL_TYPE := "SameEntityIdentityLinkCredential"
  const PRESENTATION_TYPE := "SameEntityIdentityLinkPresentation"

  predicate ClaimVerified(env: Env, c: Claim, issuer: Descriptor) {
    && DID(issuer).Ok? && c.issuer == Str(DID(issuer).value)
    && c.proof.verificationMethod == issuer.uuid && c.proof.purpose == "assertionMethod"
    && ProofType(issuer) != "" && c.proof.kind == ProofType(issuer)
    && 0 < |c.proof.signature| <= 512
    && Verifies(env, c.proof.signature, ClaimBytes(c), issuer)
  }

  function CheckSubject(env: Env, e: Completion, s: Subject, hash: Bytes, now: int): Result<()> {
    var d := e.request.newIdentity;
    var _ :- Check(s.linkType == "same_entity", "invalidCredentialSubject");
    var _ :- Check(DID(d) == Ok(s.id), "holderMismatch");
    var _ :- Check(s.linked.Key() == d.Key(), "identityMismatch");
    var _ :- Check(s.binding == e.approval.binding && s.requestHash == hash && s.approved == e.approval.approved, "invalidCredentialSubject");
    NotExpired(env, s.validUntil, now)
  }

  function ValidateCredential(env: Env, e: Completion, hash: Bytes, now: int): Result<Subject> {
    var c := e.credential;
    var _ :- Check(CREDENTIAL_TYPE in c.types, "invalidCredentialType");
    var _ :- Check(DID(e.issuer).Ok? && c.issuer == Str(DID(e.issuer).value), "issuerMismatch");
    var _ :- Check(ClaimVerified(env, c, e.issuer), "invalidCredentialSignature");
    match FromWire(c.subject, SUBJECT)
    case Err(_) => Err("invalidCredentialSubject")
    case Ok(m) =>
      DecodedFits(c.subject, SUBJECT);
      var s := SubjectFrom(m);
      var _ :- CheckSubject(env, e, s, hash, now);
      Ok(s)
  }

  predicate HolderProven(env: Env, p: Presentation, challenge: Bytes, domain: string) {
    && p.challenge == Some(challenge) && p.domain == Some(domain) && p.binding.Some?
    && p.proof.purpose == "authentication" && p.proof.verificationMethod == p.binding.value.uuid && p.proof.signature != []
    && DID(p.binding.value).Ok? && p.holder == Str(DID(p.binding.value).value) && p.proof.kind == ProofType(p.binding.value)
    && Verifies(env, p.proof.signature, PresentationBytes(p), p.binding.value)
  }

  predicate Carries(p: Presentation, id: string) {
    p.credentials.Some? && exists i :: 0 <= i < |p.credentials.value| && p.credentials.value[i].id == id
  }

  function ValidatePresentation(env: Env, e: Completion): Result<()> {
    var p, linked := e.presentation, e.request.newIdentity;
    var _ :- Check(
               PRESENTATION_TYPE in p.types && Carries(p, e.credential.id) && p.binding.Some? && p.binding.value.Key() == linked.Key()
               && DID(linked).Ok? && p.holder == Str(DID(linked).value), "holderMismatch");
    Check(HolderProven(env, p, e.expectedChallenge, e.expectedDomain), "invalidPresentation")
  }

  datatype Record = Record(
    linkID: string, binding: Binding, linked: Descriptor, approved: Reach, issuerUUID: string, issuerType: string, status: string,
    linkedAt: string, lastUsedAt: Option<string>, revokedAt: Option<string>, revocationReference: Option<string>)

  datatype Completed = Completed(record: Record, requestHash: Bytes, approvalJTI: string, credentialID: string, presentationID: string)

  function VerifyCompletion(env: Env, e: Completion, now: int, used: set<string>, verifier: Option<Verifier>): Result<Completed> {
    var hash :- ValidateEnrollmentRequest(env, e.request, now);
    var _ :- ValidateApproval(env, e, hash, now, used, verifier);
    var subject :- ValidateCredential(env, e, hash, now);
    var _ :- ValidatePresentation(env, e);
    var a := e.approval;
    Ok(Completed(
      Record(a.approvalID, a.binding, e.request.newIdentity, a.approved, e.issuer.uuid, a.issuerType, "active",
             env.iso.format(now), None, None, subject.revocationReference),
      hash, a.jti, e.credential.id, e.presentation.id))
  }

  // ---- Issuing ----

  type Signer = Bytes -> Result<Bytes>

  const VC_CONTEXT := ["https://www.w3.org/2018/credentials/v1", "https://www.w3.org/2018/credentials/examples/v1"]

  function UnsignedClaim(env: Env, issuerDID: string, issuer: Descriptor, subject: Descriptor, body: map<string, Json>, uuid: string, at: int): Claim {
    Claim(Some(VC_CONTEXT), "cell:///identity/" + subject.uuid + "/claims/" + uuid, ["VerifiableCredential", CREDENTIAL_TYPE],
          Str(issuerDID), env.iso.format(at), Obj(body),
          VCProof(ProofType(issuer), env.iso.format(at), "assertionMethod", issuer.uuid, []))
  }

  function IssueVCClaim(env: Env, issuer: Descriptor, subject: Descriptor, fields: map<string, Json>, sign: Signer, uuid: string, at: int): Result<Claim> {
    var _ :- Check(ProofType(issuer) != "", "missingPublicKey");
    var issuerDID :- DID(issuer);
    var subjectDID :- DID(subject);
    var claim := UnsignedClaim(env, issuerDID, issuer, subject, fields["id" := Str(subjectDID)], uuid, at);
    var payload :- ClaimBytes(claim);
    var signature :- sign(payload);
    Ok(claim.(proof := claim.proof.(signature := signature)))
  }

  function UnsignedPresentation(env: Env, credentials: seq<Claim>, holder: Descriptor, did: string, challenge: Option<Bytes>, domain: string, uuid: string, at: int): Presentation {
    Presentation(Some(VC_CONTEXT), "cell:///identity/" + holder.uuid + "/claims/" + uuid, ["VerifiableCredential", PRESENTATION_TYPE],
                 Str(did), challenge, Some(domain), Some(holder), Some(credentials),
                 VCProof(ProofType(holder), env.iso.format(at), "authentication", holder.uuid, []))
  }

  function BindAndSignPresentation(env: Env, credentials: seq<Claim>, holder: Descriptor, sign: Signer, challenge: Option<Bytes>, domain: string, uuid: string, at: int): Result<Presentation> {
    var _ :- Check(ProofType(holder) != "", "missingPublicKey");
    var did :- DID(holder);
    var p := UnsignedPresentation(env, credentials, holder, did, challenge, domain, uuid, at);
    var payload :- PresentationBytes(p);
    var signature :- sign(payload);
    Ok(p.(proof := p.proof.(signature := signature)))
  }

  datatype ApprovalOrder = ApprovalOrder(
    request: Request, issuerType: string, domains: Option<seq<string>>, contexts: Option<seq<string>>, scopes: Option<seq<string>>,
    expiresAt: Option<string>, jti: Option<string>, freshAuthRequired: bool, freshAuthPerformedAt: Option<string>,
    freshAuthEvidence: Option<Evidence>, revocationReference: Option<string>)
  {
    /** What is granted: the chosen lists, or all that was asked for. */
    function Granted(): Reach {
      Reach(Pick(domains, request.requested.domains), Pick(contexts, request.requested.contexts), Pick(scopes, request.requested.scopes))
    }
  }

  datatype Package = Package(approval: Approval, credential: Claim, issuer: Descriptor)

  function Pick(chosen: Option<seq<string>>, requested: seq<string>): seq<string> {
    if chosen.Some? then chosen.value else requested
  }

  function Expiry(env: Env, o: ApprovalOrder, now: int): Result<int> {
    if o.expiresAt.None? then Ok(now + 300 * SECOND)
    else
      match env.iso.parse(o.expiresAt.value)
      case None => Err("invalidExpiry")
      case Some(t) => Ok(t)
  }

  function UnsignedApproval(env: Env, o: ApprovalOrder, hash: Bytes, issuer: Descriptor, now: int, expiry: int, id: string): Approval
    requires o.request.binding.Some?
  {
    var r := o.request;
    var performed := if o.freshAuthPerformedAt.None? && o.freshAuthRequired then Some(env.iso.format(now)) else o.freshAuthPerformedAt;
    Approval(1, id, "approve_link_identity", hash, r.binding.value, r.newIdentity, o.Granted(), issuer.uuid, o.issuerType,
             r.audience, r.origin, env.iso.format(now), env.iso.format(expiry), if o.jti.Some? then o.jti.value else id,
             o.freshAuthRequired, if o.freshAuthRequired then Some("local-user-presence") else None, performed, o.freshAuthEvidence,
             Some(ApprovalProof("signature", issuer.uuid, o.issuerType, issuer.algorithm, issuer.curve, None)))
  }

  function SubjectFor(env: Env, o: ApprovalOrder, a: Approval, hash: Bytes, did: string, expiry: int): Subject {
    Subject(did, "same_entity", a.binding, o.request.newIdentity, a.approved, hash,
            if a.freshAuthRequired then "fresh_auth_and_possession" else "possession_only",
            if a.freshAuthRequired then "high" else "medium", env.iso.format(expiry), o.revocationReference)
  }

  function ApproveEnrollment(env: Env, o: ApprovalOrder, issuer: Descriptor, sign: Signer, now: int, id: string, credentialUUID: string): Result<Package> {
    hide ApprovalBytes;
    hide ToWire;
    hide DID;
    var hash :- ValidateEnrollmentRequest(env, o.request, now);
    var expiry :- Expiry(env, o, now);
    var _ :- Check(o.freshAuthPerformedAt.None? || env.iso.parse(o.freshAuthPerformedAt.value).Some?, "invalidExpiry");
    var unsigned := UnsignedApproval(env, o, hash, issuer, now, expiry, id);
    var payload :- ApprovalBytes(env, unsigned);
    var signature :- sign(payload);
    var a := unsigned.(proof := Some(unsigned.proof.value.(signature := Some(signature))));
    var did :- DID(o.request.newIdentity);
    var fields :- ToWire(SubjectFor(env, o, a, hash, did, expiry).Model(), SUBJECT);
    var credential :- IssueVCClaim(env, issuer, o.request.newIdentity, fields, sign, credentialUUID, now);
    Ok(Package(a, credential, issuer))
  }

  // ---- Signing what the verifier will check ----

  /** Whatever this signer signs verifies under the descriptor's key. */
  ghost predicate SignsAs(env: Env, sign: Signer, d: Descriptor) {
    forall m :: sign(m).Ok? ==> |sign(m).value| == 64 && env.crypto.verify(d.publicKey, m, sign(m).value)
  }

  lemma ApprovalKeysDiffer()
    ensures KeysDiffer(APPROVAL.fields)
  {
    ApprovalKeysApart();
    ApprovalMiddleKeysApart();
    ApprovalLateKeysApart();
  }

  lemma ApprovalKeysApart()
    ensures KeysApart(APPROVAL.fields, 0, 12)
  {
  }

  lemma ApprovalMiddleKeysApart()
    ensures KeysApart(APPROVAL.fields, 12, 16)
  {
  }

  lemma ApprovalLateKeysApart()
    ensures KeysApart(APPROVAL.fields, 16, 21)
  {
  }

  lemma IdentityPartsWellMade()
    ensures WellMade(DESCRIPTOR) && WellMade(BINDING)
  {
  }

  lemma ProofPartsWellMade()
    ensures WellMade(APPROVAL_PROOF) && WellMade(VC_PROOF)
  {
  }

  lemma EvidenceWellMade()
    ensures WellMade(EVIDENCE)
  {
  }

  lemma PartsWellMade()
    ensures WellMade(DESCRIPTOR) && WellMade(BINDING) && WellMade(EVIDENCE) && WellMade(APPROVAL_PROOF) && WellMade(VC_PROOF)
  {
    IdentityPartsWellMade();
    ProofPartsWellMade();
    EvidenceWellMade();
    hide WellMade;
  }

  lemma ApprovalWellMade()
    ensures WellMade(APPROVAL)
  {
    PartsWellMade();
    ApprovalKeysDiffer();
    hide KeysDiffer;
    hide WellMade;
    WellMadeFrom(APPROVAL);
  }

  lemma ClaimWellMade()
    ensures WellMade(CLAIM)
  {
    PartsWellMade();
  }

  lemma PresentationKeysDiffer()
    ensures KeysDiffer(PRESENTATION.fields)
  {
  }

  lemma PresentationWellMade()
    ensures WellMade(PRESENTATION)
  {
    PartsWellMade();
    ClaimWellMade();
    PresentationKeysDiffer();
    hide KeysDiffer;
  }

  lemma SubjectKeysDiffer()
    ensures KeysDiffer(SUBJECT.fields)
  {
  }

  lemma SubjectWellMade()
    ensures WellMade(SUBJECT)
  {
    PartsWellMade();
    SubjectKeysDiffer();
    hide KeysDiffer;
  }

  lemma ProofWrites(m: Model, s: Schema, f: Field)
    requires Fits(m, s) && WellMade(s) && NeverLacks(s) && (f.kind == TPtr(s) || f.kind == TStruct(s))
    ensures HasKind(Rec(m), f.kind) && Writes(Rec(m), f)
  {
    NothingLacking(m, s);
    RoundTripModel(m, s);
  }

  lemma ApprovalProofWrites(proof: Option<ApprovalProof>)
    ensures var f := APPROVAL.fields[APPROVAL_PROOF_AT];
            var v := if proof.Some? then Rec(proof.value.Model()) else Nil;
            f.key == "proof" && HasKind(v, f.kind) && Writes(v, f)
  {
    var f := APPROVAL.fields[APPROVAL_PROOF_AT];
    assert f == Opt("proof", TPtr(APPROVAL_PROOF));
    if proof.Some? {
      assert NeverLacks(APPROVAL_PROOF);
      PartsWellMade();
      ProofWrites(proof.value.Model(), APPROVAL_PROOF, f);
    }
  }

  lemma ApprovalProofPlaced(a: Approval, proof: Option<ApprovalProof>)
    ensures a.(proof := proof).Model() == a.Model()[APPROVAL_PROOF_AT := if proof.Some? then Rec(proof.value.Model()) else Nil]
  {
    hide ApprovalProof.Model;
    hide Binding.Model;
    hide Descriptor.Model;
    hide Evidence.Model;
    hide Fits;
  }

  /** The proof is not among the bytes it signs. */
  lemma ApprovalProofFree(env: Env, a: Approval, proof: Option<ApprovalProof>)
    requires ApprovalBytes(env, a).Ok?
    ensures ApprovalBytes(env, a.(proof := proof)) == ApprovalBytes(env, a)
  {
    ApprovalWellMade();
    ApprovalProofWrites(proof);
    ApprovalProofPlaced(a, proof);
    ApprovalFits(a);
    assert APPROVAL_PROOF_AT < |a.Model()|;
    hide WellMade;
    hide ToWire;
    hide Writes;
    hide HasKind;
    hide Fits;
    hide Approval.Model;
    hide ApprovalProof.Model;
    ExcludedFieldFree(a.Model(), APPROVAL_PROOF_AT, if proof.Some? then Rec(proof.value.Model()) else Nil, APPROVAL, {"proof"}, env.fold);
  }

  lemma UnsignedFree(m: Model, i: nat, v: Value, s: Schema)
    requires Fits(m, s) && WellMade(s) && i < |m| && HasKind(v, s.fields[i].kind) && s.fields[i].key == "proof"
    requires UnsignedBytes(m, s).Ok? && Writes(v, s.fields[i])
    ensures Fits(m[i := v], s) && UnsignedBytes(m[i := v], s) == UnsignedBytes(m, s)
  {
    hide WellMade;
    hide ToWire;
    hide Writes;
    hide HasKind;
    hide Fits;
    hide CanonicalJSON;
    var fold: Fold := x => x;
    ExcludedFieldFree(m, i, v, s, {"proof"}, fold);
  }

  lemma ClaimProofPlaced(c: Claim, proof: VCProof)
    ensures c.(proof := proof).Model() == c.Model()[CLAIM_PROOF_AT := Rec(proof.Model())]
  {
    hide VCProof.Model;
  }

  lemma VCProofWrites(proof: VCProof)
    ensures var f, g := CLAIM.fields[CLAIM_PROOF_AT], PRESENTATION.fields[PRESENTATION_PROOF_AT];
            && f.key == g.key == "proof" && f.kind == g.kind == TStruct(VC_PROOF)
            && HasKind(Rec(proof.Model()), TStruct(VC_PROOF)) && Writes(Rec(proof.Model()), f) && Writes(Rec(proof.Model()), g)
  {
    assert NeverLacks(VC_PROOF);
    PartsWellMade();
    var f, g := CLAIM.fields[CLAIM_PROOF_AT], PRESENTATION.fields[PRESENTATION_PROOF_AT];
    assert f == Need("proof", TStruct(VC_PROOF)) == g;
    hide WellMade;
    ProofWrites(proof.Model(), VC_PROOF, f);
  }

  lemma ClaimProofFree(c: Claim, proof: VCProof)
    requires ClaimBytes(c).Ok?
    ensures ClaimBytes(c.(proof := proof)) == ClaimBytes(c)
  {
    assert CLAIM_PROOF_AT < |c.Model()|;
    hide UnsignedBytes;
    hide WellMade;
    hide Writes;
    hide HasKind;
    hide Fits;
    hide Claim.Model;
    hide VCProof.Model;
    ClaimWellMade();
    VCProofWrites(proof);
    ClaimProofPlaced(c, proof);
    UnsignedFree(c.Model(), CLAIM_PROOF_AT, Rec(proof.Model()), CLAIM);
  }

  lemma PresentationProofPlaced(p: Presentation, proof: VCProof)
    ensures p.(proof := proof).Model() == p.Model()[PRESENTATION_PROOF_AT := Rec(proof.Model())]
  {
    hide VCProof.Model;
    hide Descriptor.Model;
    hide ClaimModels;
  }

  lemma PresentationProofFree(p: Presentation, proof: VCProof)
    requires PresentationBytes(p).Ok?
    ensures PresentationBytes(p.(proof := proof)) == PresentationBytes(p)
  {
    assert PRESENTATION_PROOF_AT < |p.Model()|;
    hide UnsignedBytes;
    hide WellMade;
    hide Writes;
    hide HasKind;
    hide Fits;
    hide Presentation.Model;
    hide VCProof.Model;
    PresentationFits(p);
    PresentationWellMade();
    VCProofWrites(proof);
    PresentationProofPlaced(p, proof);
    UnsignedFree(p.Model(), PRESENTATION_PROOF_AT, Rec(proof.Model()), PRESENTATION);
  }

  // ---- The subject comes back as it went in ----

  lemma DescriptorNormal(d: Descriptor)
    ensures NormalModel(d.Model(), DESCRIPTOR) == d.Model() && DescriptorFrom(d.Model()) == d
  {
    var m, r := d.Model(), NormalModel(d.Model(), DESCRIPTOR);
    assert r[0] == m[0] && r[1] == m[1] && r[2] == m[2] && r[3] == m[3] && r[4] == m[4];
  }

  lemma BindingNormal(b: Binding)
    ensures NormalModel(b.Model(), BINDING) == b.Model() && BindingFrom(b.Model()) == b
  {
    var m, r := b.Model(), NormalModel(b.Model(), BINDING);
    assert r[0] == m[0] && r[1] == m[1] && r[2] == m[2] && r[3] == m[3];
  }

  lemma SubjectNormal(s: Subject)
    ensures NormalModel(s.Model(), SUBJECT) == s.Model()
  {
    DescriptorNormal(s.linked);
    BindingNormal(s.binding);
    hide Descriptor.Model;
    hide Binding.Model;
    var m, fs := s.Model(), SUBJECT.fields;
    forall i | 0 <= i < |m|
      ensures NormalOne(m[i], fs[i]) == m[i]
    {
      assert HasKind(m[i], fs[i].kind);
      SettledField(m[i], fs[i]);
    }
    hide NormalOne;
    hide HasKind;
    assert NormalModel(m, SUBJECT) == m;
  }

  lemma SubjectRead(s: Subject)
    ensures ToWire(s.Model(), SUBJECT).Ok?
    ensures FromWire(Obj(ToWire(s.Model(), SUBJECT).value), SUBJECT) == Ok(s.Model())
    ensures SubjectFrom(s.Model()) == s
  {
    SubjectWellMade();
    SubjectNormal(s);
    SubjectComplete(s.Model());
    RoundTripModel(s.Model(), SUBJECT);
    SubjectFields(s);
  }

  lemma SubjectComplete(m: Model)
    requires Fits(m, SUBJECT)
    ensures CompleteModel(m, SUBJECT)
  {
    assert NeverLacks(DESCRIPTOR) && NeverLacks(BINDING);
    assert NeverLacks(SUBJECT);
    NothingLacking(m, SUBJECT);
  }

  lemma SubjectFields(s: Subject)
    ensures SubjectFrom(s.Model()) == s
  {
    DescriptorNormal(s.linked);
    BindingNormal(s.binding);
  }

  // ---- What the issuer makes, the verifier takes ----

  lemma SignatureChecks(env: Env, sign: Signer, d: Descriptor, payload: Bytes)
    requires SignsAs(env, sign, d) && sign(payload).Ok?
    ensures |sign(payload).value| == 64
    ensures VerifySignature(env.crypto, sign(payload).value, payload, d.Key()) <==> d.IsEd25519()
  {
  }

  /** The credential an issuer signs verifies exactly when the issuer's key is one that verification supports. */
  lemma IssuedClaimVerifies(env: Env, issuer: Descriptor, subject: Descriptor, fields: map<string, Json>, sign: Signer, uuid: string, at: int)
    requires SignsAs(env, sign, issuer) && IssueVCClaim(env, issuer, subject, fields, sign, uuid, at).Ok?
    ensures ClaimVerified(env, IssueVCClaim(env, issuer, subject, fields, sign, uuid, at).value, issuer) <==> issuer.IsEd25519()
  {
    var claim := UnsignedClaim(env, DID(issuer).value, issuer, subject, fields["id" := Str(DID(subject).value)], uuid, at);
    var payload := ClaimBytes(claim).value;
    SignatureChecks(env, sign, issuer, payload);
    ClaimProofFree(claim, claim.proof.(signature := sign(payload).value));
    hide ClaimBytes;
    hide VerifySignature;
    hide DID;
  }

  lemma SignedPresentationProves(env: Env, credentials: seq<Claim>, holder: Descriptor, sign: Signer, challenge: Option<Bytes>, domain: string, uuid: string, at: int, expected: Bytes, expectedDomain: string)
    requires SignsAs(env, sign, holder) && holder.IsEd25519()
    requires BindAndSignPresentation(env, credentials, holder, sign, challenge, domain, uuid, at).Ok?
    ensures var p := BindAndSignPresentation(env, credentials, holder, sign, challenge, domain, uuid, at).value;
            HolderProven(env, p, expected, expectedDomain) <==> challenge == Some(expected) && domain == expectedDomain
  {
    hide PresentationBytes;
    hide VerifySignature;
    hide DID;
    hide SignsAs;
    var p := UnsignedPresentation(env, credentials, holder, DID(holder).value, challenge, domain, uuid, at);
    var payload := PresentationBytes(p).value;
    SignatureChecks(env, sign, holder, payload);
    PresentationProofFree(p, p.proof.(signature := sign(payload).value));
  }

  lemma ApprovalSigned(env: Env, a: Approval, sign: Signer, issuer: Descriptor)
    requires SignsAs(env, sign, issuer) && ApprovalBytes(env, a).Ok? && sign(ApprovalBytes(env, a).value).Ok?
    requires a.proof == Some(ApprovalProof("signature", issuer.uuid, a.issuerType, issuer.algorithm, issuer.curve, None))
    requires a.issuerUUID == issuer.uuid
    ensures var signed := a.(proof := Some(a.proof.value.(signature := Some(sign(ApprovalBytes(env, a).value).value))));
            forall e: Completion :: e.approval == signed && e.issuer == issuer ==>
              (CheckApprovalProof(env, e).Ok? <==> issuer.IsEd25519())
  {
    var payload := ApprovalBytes(env, a).value;
    SignatureChecks(env, sign, issuer, payload);
    ApprovalProofFree(env, a, Some(a.proof.value.(signature := Some(sign(payload).value))));
    hide ApprovalBytes;
    hide VerifySignature;
  }

  lemma RequestLater(env: Env, r: Request, now: int, later: int)
    requires ValidateEnrollmentRequest(env, r, now).Ok?
    ensures ValidateEnrollmentRequest(env, r, later) ==
            if NotExpired(env, r.expiresAt, later).Ok? then ValidateEnrollmentRequest(env, r, now)
            else Err(NotExpired(env, r.expiresAt, later).code)
    ensures r.newIdentity.IsEd25519() && r.binding.Some?
  {
    hide RequestBytes;
    hide IsBlank;
  }

  /** One enrollment: the order, who approves with which signer and when, and the identifiers drawn. */
  datatype Approving = Approving(order: ApprovalOrder, issuer: Descriptor, sign: Signer, now: int, id: string, credentialUUID: string) {
    function Package(env: Env): Result<Package> {
      ApproveEnrollment(env, order, issuer, sign, now, id, credentialUUID)
    }

    function Hash(env: Env): Bytes
      requires Package(env).Ok?
    {
      ValidateEnrollmentRequest(env, order.request, now).value
    }

    function Unsigned(env: Env): Approval
      requires Package(env).Ok?
    {
      UnsignedApproval(env, order, Hash(env), issuer, now, Expiry(env, order, now).value, id)
    }

    function Subject(env: Env): Subject
      requires Package(env).Ok?
    {
      hide ValidateEnrollmentRequest;
      hide ApprovalBytes;
      hide ToWire;
      hide IssueVCClaim;
      hide DID;
      SubjectFor(env, order, Package(env).value.approval, Hash(env), DID(order.request.newIdentity).value, Expiry(env, order, now).value)
    }
  }

  // ---- When the pieces are made at all ----

  lemma EnrollmentNeverLacks()
    ensures NeverLacks(BINDING) && NeverLacks(DESCRIPTOR) && NeverLacks(EVIDENCE) && NeverLacks(APPROVAL_PROOF) && NeverLacks(VC_PROOF)
  {
  }

  lemma ApprovalNeverLacks()
    ensures NeverLacks(APPROVAL)
  {
    EnrollmentNeverLacks();
    assert NeverLacks(APPROVAL);
  }

  /** Every approval has bytes to sign. */
  lemma ApprovalWritten(env: Env, a: Approval)
    ensures ApprovalBytes(env, a).Ok?
  {
    ApprovalFits(a);
    ApprovalWellMade();
    ApprovalNeverLacks();
    hide WellMade;
    hide NeverLacks;
    hide ToWire;
    hide Approval.Model;
    hide Fits;
    NothingLacking(a.Model(), APPROVAL);
    RoundTripModel(a.Model(), APPROVAL);
  }

  /** Every credential has bytes to sign, whatever its issuer and subject are. */
  lemma ClaimWritten(c: Claim)
    ensures ToWire(c.Model(), CLAIM).Ok? && ClaimBytes(c).Ok?
  {
    VCProofWrites(c.proof);
    ClaimKeysDiffer();
    hide VCProof.Model;
    hide ToWire;
    ToWireEntries(c.Model(), CLAIM);
    forall i | 0 <= i < |c.Model()|
      ensures HasKind(c.Model()[i], CLAIM.fields[i].kind) && Writes(c.Model()[i], CLAIM.fields[i])
    {
    }
  }

  lemma ClaimKeysDiffer()
    ensures KeysDiffer(CLAIM.fields)
  {
  }

  lemma {:induction false} ClaimsWritten(claims: seq<Claim>)
    ensures Wire.EncodeItems(ClaimModels(claims), CLAIM).Ok?
  {
    hide ToWire;
    hide Claim.Model;
    if claims != [] {
      var n := |claims| - 1;
      ClaimsWritten(claims[..n]);
      ClaimWritten(claims[n]);
      assert ClaimModels(claims)[..n] == ClaimModels(claims[..n]);
    }
  }

  lemma HolderWrites(d: Descriptor)
    ensures var f := PRESENTATION.fields[6]; f.kind == TPtr(DESCRIPTOR) && HasKind(Rec(d.Model()), f.kind) && Writes(Rec(d.Model()), f)
  {
    IdentityPartsWellMade();
    EnrollmentNeverLacks();
    hide WellMade;
    hide NeverLacks;
    hide Descriptor.Model;
    hide DESCRIPTOR;
    ProofWrites(d.Model(), DESCRIPTOR, PRESENTATION.fields[6]);
  }

  lemma CredentialsWrite(credentials: Option<seq<Claim>>)
    ensures var f, v := PRESENTATION.fields[7], if credentials.Some? then Recs(ClaimModels(credentials.value)) else Nil;
            f.kind == TList(CLAIM) && HasKind(v, f.kind) && Writes(v, f)
  {
    if credentials.Some? {
      ClaimsWritten(credentials.value);
    }
    hide ClaimModels;
    hide CLAIM;
    hide Wire.EncodeItems;
    assert PRESENTATION.fields[7] == Field("verifiableCredential", true, TList(CLAIM), ExplicitNull);
  }

  /** Every presentation has bytes to sign. */
  lemma PresentationWritten(p: Presentation)
    ensures PresentationBytes(p).Ok?
  {
    hide ToWire;
    hide Descriptor.Model;
    hide VCProof.Model;
    hide ClaimModels;
    hide Fits;
    PresentationFits(p);
    PresentationKeysDiffer();
    VCProofWrites(p.proof);
    CredentialsWrite(p.credentials);
    if p.binding.Some? {
      HolderWrites(p.binding.value);
    }
    PlainPartsWrite(p);
    assert forall i :: 0 <= i < |p.Model()| ==>
        HasKind(p.Model()[i], PRESENTATION.fields[i].kind) && Writes(p.Model()[i], PRESENTATION.fields[i]) by {
      hide Writes;
      hide HasKind;
    }
    hide KeysDiffer;
    hide Writes;
    hide HasKind;
    ToWireEntries(p.Model(), PRESENTATION);
  }

  lemma PlainPartsWrite(p: Presentation)
    ensures forall i :: 0 <= i < 6 ==> HasKind(p.Model()[i], PRESENTATION.fields[i].kind) && Writes(p.Model()[i], PRESENTATION.fields[i])
  {
    hide Descriptor.Model;
    hide VCProof.Model;
    hide ClaimModels;
  }

  /** What the caller can see to: the request, both dates and a key that credentials can be signed with. */
  predicate Approvable(env: Env, a: Approving) {
    && ValidateEnrollmentRequest(env, a.order.request, a.now).Ok?
    && (a.order.expiresAt.None? || env.iso.parse(a.order.expiresAt.value).Some?)
    && (a.order.freshAuthPerformedAt.None? || env.iso.parse(a.order.freshAuthPerformedAt.value).Some?)
    && ProofType(a.issuer) != ""
  }

  lemma ApprovableParts(env: Env, a: Approving)
    requires Approvable(env, a)
    ensures a.order.request.binding.Some? && Expiry(env, a.order, a.now).Ok?
    ensures DID(a.order.request.newIdentity).Ok? && DID(a.issuer).Ok?
  {
    RequestLater(env, a.order.request, a.now, a.now);
    hide ValidateEnrollmentRequest;
    hide Base58.DIDKey;
  }

  function DraftApproval(env: Env, a: Approving): Approval
    requires Approvable(env, a)
  {
    ApprovableParts(env, a);
    var hash := ValidateEnrollmentRequest(env, a.order.request, a.now).value;
    UnsignedApproval(env, a.order, hash, a.issuer, a.now, Expiry(env, a.order, a.now).value, a.id)
  }

  /** The subject of the credential that goes with the approval under this signature. */
  function DraftSubject(env: Env, a: Approving, signature: Bytes): Subject
    requires Approvable(env, a)
  {
    ApprovableParts(env, a);
    var draft := DraftApproval(env, a);
    var signed := draft.(proof := Some(draft.proof.value.(signature := Some(signature))));
    SubjectFor(env, a.order, signed, ValidateEnrollmentRequest(env, a.order.request, a.now).value,
               DID(a.order.request.newIdentity).value, Expiry(env, a.order, a.now).value)
  }

  function DraftCredential(env: Env, a: Approving, signature: Bytes): Claim
    requires Approvable(env, a)
  {
    ApprovableParts(env, a);
    var subject := DraftSubject(env, a, signature);
    SubjectRead(subject);
    UnsignedClaim(env, DID(a.issuer).value, a.issuer, a.order.request.newIdentity,
                  ToWire(subject.Model(), SUBJECT).value["id" := Str(subject.id)], a.credentialUUID, a.now)
  }

  /** The signer answers for the approval, and then for the credential over the signed approval. */
  predicate SignerAnswers(env: Env, a: Approving)
    requires Approvable(env, a)
  {
    ApprovalWritten(env, DraftApproval(env, a));
    var signature := a.sign(ApprovalBytes(env, DraftApproval(env, a)).value);
    signature.Ok? &&
    (ClaimWritten(DraftCredential(env, a, signature.value));
     a.sign(ClaimBytes(DraftCredential(env, a, signature.value)).value).Ok?)
  }

  /** An approval goes through exactly when the request and dates are right, the key can sign credentials and the signer answers. */
  lemma ApprovesIff(env: Env, a: Approving)
    ensures a.Package(env).Ok? <==> Approvable(env, a) && SignerAnswers(env, a)
  {
    if Approvable(env, a) {
      ApprovableApproves(env, a);
    } else {
      OthersRefused(env, a);
    }
    hide Approvable;
    hide SignerAnswers;
    hide Approving.Package;
  }

  lemma OthersRefused(env: Env, a: Approving)
    requires !Approvable(env, a)
    ensures a.Package(env).Err?
  {
    hide ValidateEnrollmentRequest;
    hide ApprovalBytes;
    hide ClaimBytes;
    hide ToWire;
    hide DID;
    hide ProofType;
    hide UnsignedClaim;
  }

  lemma ApprovableApproves(env: Env, a: Approving)
    requires Approvable(env, a)
    ensures a.Package(env).Ok? <==> SignerAnswers(env, a)
  {
    hide ValidateEnrollmentRequest;
    hide ApprovalBytes;
    hide ClaimBytes;
    hide ToWire;
    hide DID;
    hide Subject.Model;
    hide ProofType;
    hide UnsignedClaim;
    hide IssueVCClaim;
    ApprovableParts(env, a);
    ApprovalWritten(env, DraftApproval(env, a));
    var signature := a.sign(ApprovalBytes(env, DraftApproval(env, a)).value);
    if signature.Ok? {
      var subject, d := DraftSubject(env, a, signature.value), a.order.request.newIdentity;
      SubjectRead(subject);
      ClaimWritten(DraftCredential(env, a, signature.value));
      IssuesIff(env, a.issuer, d, ToWire(subject.Model(), SUBJECT).value, a.sign, a.credentialUUID, a.now);
    }
  }

  lemma IssuesIff(env: Env, issuer: Descriptor, subject: Descriptor, fields: map<string, Json>, sign: Signer, uuid: string, at: int)
    requires ProofType(issuer) != "" && DID(issuer).Ok? && DID(subject).Ok?
    ensures var claim := UnsignedClaim(env, DID(issuer).value, issuer, subject, fields["id" := Str(DID(subject).value)], uuid, at);
            ClaimBytes(claim).Ok? && (IssueVCClaim(env, issuer, subject, fields, sign, uuid, at).Ok? <==> sign(ClaimBytes(claim).value).Ok?)
  {
    hide ClaimBytes;
    hide DID;
    hide ProofType;
    ClaimWritten(UnsignedClaim(env, DID(issuer).value, issuer, subject, fields["id" := Str(DID(subject).value)], uuid, at));
  }

  /** What the new key presents. */
  datatype Presenting = Presenting(sign: Signer, credentials: seq<Claim>, challenge: Option<Bytes>, domain: string, uuid: string, at: int) {
    function Presentation(env: Env, holder: Descriptor): Result<Presentation> {
      BindAndSignPresentation(env, credentials, holder, sign, challenge, domain, uuid, at)
    }
  }

  function DraftPresentation(env: Env, p: Presenting, holder: Descriptor): Presentation
    requires ProofType(holder) != ""
  {
    UnsignedPresentation(env, p.credentials, holder, DID(holder).value, p.challenge, p.domain, p.uuid, p.at)
  }

  predicate HolderAnswers(env: Env, p: Presenting, holder: Descriptor)
    requires ProofType(holder) != ""
  {
    PresentationWritten(DraftPresentation(env, p, holder));
    p.sign(PresentationBytes(DraftPresentation(env, p, holder)).value).Ok?
  }

  /** A presentation is made exactly when the holder's key can sign one and its signer answers. */
  lemma PresentsIff(env: Env, p: Presenting, holder: Descriptor)
    ensures p.Presentation(env, holder).Ok? <==> ProofType(holder) != "" && HolderAnswers(env, p, holder)
  {
    hide PresentationBytes;
    if ProofType(holder) != "" {
      PresentationWritten(DraftPresentation(env, p, holder));
    }
  }

  ghost predicate AlwaysAnswers(sign: Signer) {
    forall m :: sign(m).Ok?
  }

  lemma AnswersApproval(env: Env, a: Approving)
    requires Approvable(env, a) && AlwaysAnswers(a.sign)
    ensures SignerAnswers(env, a)
  {
    hide Approvable;
    hide DraftApproval;
    hide DraftCredential;
    hide ApprovalBytes;
    hide ClaimBytes;
    ApprovalWritten(env, DraftApproval(env, a));
    var payload: Bytes := ApprovalBytes(env, DraftApproval(env, a)).value;
    assert a.sign(payload).Ok?;
    var credential := DraftCredential(env, a, a.sign(payload).value);
    ClaimWritten(credential);
    var second: Bytes := ClaimBytes(credential).value;
    assert a.sign(second).Ok?;
  }

  lemma AnswersPresentation(env: Env, p: Presenting, holder: Descriptor)
    requires ProofType(holder) != "" && AlwaysAnswers(p.sign)
    ensures HolderAnswers(env, p, holder)
  {
    hide ProofType;
    hide DraftPresentation;
    hide PresentationBytes;
    PresentationWritten(DraftPresentation(env, p, holder));
    var payload: Bytes := PresentationBytes(DraftPresentation(env, p, holder)).value;
    assert p.sign(payload).Ok?;
  }

  /** With signers that always answer, whatever is approvable is approved and can be presented. */
  lemma BothMade(env: Env, a: Approving, p: Presenting)
    requires AlwaysAnswers(a.sign) && AlwaysAnswers(p.sign)
    ensures a.Package(env).Ok? <==> Approvable(env, a)
    ensures Approvable(env, a) ==> p.Presentation(env, a.order.request.newIdentity).Ok?
  {
    hide Approving.Package;
    hide Presenting.Presentation;
    hide AlwaysAnswers;
    hide SignerAnswers;
    hide HolderAnswers;
    hide ValidateEnrollmentRequest;
    ApprovesIff(env, a);
    if Approvable(env, a) {
      AnswersApproval(env, a);
      RequestLater(env, a.order.request, a.now, a.now);
      PresentsIff(env, p, a.order.request.newIdentity);
      AnswersPresentation(env, p, a.order.request.newIdentity);
    }
  }

  datatype Expecting = Expecting(audience: string, origin: string, challenge: Bytes, domain: string, evidence: bool)

  function Assembled(env: Env, a: Approving, p: Presenting, x: Expecting): Completion
    requires a.Package(env).Ok? && p.Presentation(env, a.order.request.newIdentity).Ok?
  {
    var pkg := a.Package(env).value;
    Completion(a.order.request, pkg.approval, pkg.credential, p.Presentation(env, a.order.request.newIdentity).value, pkg.issuer,
               x.audience, x.origin, x.challenge, x.domain, x.evidence)
  }

  lemma ApprovalMade(env: Env, a: Approving)
    requires a.Package(env).Ok?
    ensures ValidateEnrollmentRequest(env, a.order.request, a.now).Ok? && a.order.request.binding.Some?
    ensures ApprovalBytes(env, a.Unsigned(env)).Ok?
    ensures a.sign(ApprovalBytes(env, a.Unsigned(env)).value).Ok?
    ensures var u, pkg := a.Unsigned(env), a.Package(env).value;
            && pkg.issuer == a.issuer
            && pkg.approval == u.(proof := Some(u.proof.value.(signature := Some(a.sign(ApprovalBytes(env, u).value).value))))
  {
    hide ApprovalBytes;
    hide IssueVCClaim;
    hide ToWire;
    hide ValidateEnrollmentRequest;
    RequestBinding(env, a.order.request, a.now);
  }

  lemma RequestBinding(env: Env, r: Request, now: int)
    ensures ValidateEnrollmentRequest(env, r, now).Ok? ==> r.binding.Some?
  {
    hide RequestBytes;
    hide IsBlank;
  }

  lemma CredentialIssued(env: Env, a: Approving)
    requires a.Package(env).Ok?
    ensures var s, d := a.Subject(env), a.order.request.newIdentity;
            && DID(d) == Ok(s.id) && ToWire(s.Model(), SUBJECT).Ok?
            && Ok(a.Package(env).value.credential) ==
               IssueVCClaim(env, a.issuer, d, ToWire(s.Model(), SUBJECT).value, a.sign, a.credentialUUID, a.now)
  {
    hide ApprovalBytes;
    hide ValidateEnrollmentRequest;
    hide IssueVCClaim;
    hide ToWire;
    hide DID;
    hide Subject.Model;
  }

  lemma IssuedShape(env: Env, issuer: Descriptor, subject: Descriptor, fields: map<string, Json>, sign: Signer, uuid: string, at: int)
    requires IssueVCClaim(env, issuer, subject, fields, sign, uuid, at).Ok?
    ensures var c := IssueVCClaim(env, issuer, subject, fields, sign, uuid, at).value;
            && DID(issuer).Ok? && c.issuer == Str(DID(issuer).value) && CREDENTIAL_TYPE in c.types
            && DID(subject).Ok? && c.subject == Obj(fields["id" := Str(DID(subject).value)])
  {
    hide ClaimBytes;
    hide DID;
  }

  lemma CredentialMade(env: Env, a: Approving)
    requires a.Package(env).Ok? && SignsAs(env, a.sign, a.issuer)
    ensures var c := a.Package(env).value.credential;
            && DID(a.issuer).Ok? && DID(a.order.request.newIdentity).Ok?
            && c.issuer == Str(DID(a.issuer).value) && CREDENTIAL_TYPE in c.types
            && FromWire(c.subject, SUBJECT) == Ok(a.Subject(env).Model())
            && (ClaimVerified(env, c, a.issuer) <==> a.issuer.IsEd25519())
  {
    hide ApproveEnrollment;
    hide ClaimVerified;
    hide FromWire;
    hide ToWire;
    hide DID;
    hide Subject.Model;
    hide IssueVCClaim;
    hide SubjectFor;
    hide SignsAs;
    hide Fits;
    hide Descriptor.IsEd25519;
    var s, d := a.Subject(env), a.order.request.newIdentity;
    SubjectRead(s);
    SubjectIdWritten(s);
    CredentialIssued(env, a);
    var fields := ToWire(s.Model(), SUBJECT).value;
    IssuedClaimVerifies(env, a.issuer, d, fields, a.sign, a.credentialUUID, a.now);
    IssuedShape(env, a.issuer, d, fields, a.sign, a.credentialUUID, a.now);
    assert fields["id" := Str(s.id)] == fields;
  }

  /** The claim's id key holds what the issuer would put there again. */
  lemma SubjectIdWritten(s: Subject)
    requires ToWire(s.Model(), SUBJECT).Ok?
    ensures var w := ToWire(s.Model(), SUBJECT).value; "id" in w && w["id"] == Str(s.id)
  {
    SubjectKeysDiffer();
    ToWireEntries(s.Model(), SUBJECT);
    var f := SUBJECT.fields[0];
    assert f == Need("id", TText);
    assert Entry(ToWire(s.Model(), SUBJECT).value, f.key) == Final(s.Model()[0], f);
  }

  /** Everything the verifier asks beyond what the issuer and holder have seen to. */
  predicate Acceptable(env: Env, a: Approving, p: Presenting, x: Expecting, now: int, used: set<string>, verifier: Option<Verifier>)
    requires a.Package(env).Ok? && p.Presentation(env, a.order.request.newIdentity).Ok?
  {
    hide ApproveEnrollment;
    hide BindAndSignPresentation;
    var r, approval := a.order.request, a.Package(env).value.approval;
    var jti := if a.order.jti.Some? then a.order.jti.value else a.id;
    && NotExpired(env, r.expiresAt, now).Ok? && NotExpired(env, approval.expiresAt, now).Ok?
    && x.audience == r.audience && x.origin == r.origin
    && !IsBlank(jti) && jti !in used
    && a.order.issuerType in ISSUER_TYPES && a.issuer.uuid != r.newIdentity.uuid && a.issuer.IsEd25519()
    && a.order.freshAuthRequired
    && (x.evidence ==> a.order.freshAuthEvidence.Some? && a.order.freshAuthEvidence.value.challenge == a.Hash(env)
                       && verifier.Some? && verifier.value(approval))
    && Within(a.order.Granted(), r.requested)
    && p.challenge == Some(x.challenge) && p.domain == x.domain
  }

  lemma FieldsPart(env: Env, a: Approving, e: Completion, used: set<string>)
    requires a.Package(env).Ok? && e.request == a.order.request && e.issuer == a.issuer
    requires e.approval.(proof := None) == a.Unsigned(env).(proof := None)
    ensures var r, o := a.order.request, a.order;
            var jti := if o.jti.Some? then o.jti.value else a.id;
            CheckApprovalFields(e, a.Hash(env), used).Ok? <==>
              && r.binding.Some? && e.expectedAudience == r.audience && e.expectedOrigin == r.origin
              && !IsBlank(jti) && jti !in used
              && o.issuerType in ISSUER_TYPES && a.issuer.uuid != r.newIdentity.uuid
              && o.freshAuthRequired
  {
    ApprovalMade(env, a);
    FieldsSteps(e, a.Hash(env), used);
    hide CheckApprovalFields;
    hide ApproveEnrollment;
    hide ApprovalBytes;
    hide IsBlank;
    hide ValidateEnrollmentRequest;
    hide Expiry;
  }

  lemma FieldsSteps(e: Completion, hash: Bytes, used: set<string>)
    ensures var a, r := e.approval, e.request;
            CheckApprovalFields(e, hash, used).Ok? <==>
              && a.purpose == "approve_link_identity" && a.requestHash == hash
              && a.subject.Key() == r.newIdentity.Key() && r.binding == Some(a.binding)
              && a.audience == r.audience == e.expectedAudience && a.origin == r.origin == e.expectedOrigin
              && !IsBlank(a.jti) && a.jti !in used && a.issuerType in ISSUER_TYPES
              && a.issuerUUID != r.newIdentity.uuid && e.issuer.Key() != r.newIdentity.Key()
              && a.freshAuthRequired && a.freshAuthPerformedAt.Some?
  {
    hide IsBlank;
  }

  lemma ApprovalPart(env: Env, a: Approving, e: Completion, now: int, used: set<string>, verifier: Option<Verifier>)
    requires a.Package(env).Ok? && SignsAs(env, a.sign, a.issuer)
    requires e.request == a.order.request && e.approval == a.Package(env).value.approval && e.issuer == a.issuer
    ensures var r, o, approval := a.order.request, a.order, e.approval;
            var jti := if o.jti.Some? then o.jti.value else a.id;
            ValidateApproval(env, e, a.Hash(env), now, used, verifier).Ok? <==>
              && NotExpired(env, approval.expiresAt, now).Ok?
              && e.expectedAudience == r.audience && e.expectedOrigin == r.origin
              && !IsBlank(jti) && jti !in used
              && o.issuerType in ISSUER_TYPES && a.issuer.uuid != r.newIdentity.uuid && a.issuer.IsEd25519()
              && o.freshAuthRequired
              && (e.requireEvidence ==> o.freshAuthEvidence.Some? && o.freshAuthEvidence.value.challenge == a.Hash(env)
                                        && verifier.Some? && verifier.value(approval))
              && Within(o.Granted(), r.requested)
  {
    ApprovalMade(env, a);
    ApprovalSigned(env, a.Unsigned(env), a.sign, a.issuer);
    FieldsPart(env, a, e, used);
    ApprovalSteps(env, e, a.Hash(env), now, used, verifier);
    assert e.approval.freshAuthEvidence == a.order.freshAuthEvidence && e.approval.approved == a.order.Granted();
    hide CheckApprovalFields;
    hide CheckApprovalProof;
    hide ValidateApproval;
    hide ApproveEnrollment;
    hide ApprovalBytes;
    hide NotExpired;
    hide Within;
    hide IsBlank;
    hide ValidateEnrollmentRequest;
    hide Expiry;
    hide UnsignedApproval;
  }

  lemma ApprovalSteps(env: Env, e: Completion, hash: Bytes, now: int, used: set<string>, verifier: Option<Verifier>)
    ensures ValidateApproval(env, e, hash, now, used, verifier).Ok? <==>
              && CheckApprovalFields(e, hash, used).Ok? && NotExpired(env, e.approval.expiresAt, now).Ok?
              && (e.requireEvidence ==> e.approval.freshAuthEvidence.Some? && e.approval.freshAuthEvidence.value.challenge == hash
                                        && verifier.Some? && verifier.value(e.approval))
              && Within(e.approval.approved, e.request.requested) && CheckApprovalProof(env, e).Ok?
  {
    hide CheckApprovalFields;
    hide CheckApprovalProof;
    hide NotExpired;
    hide Within;
  }

  lemma CredentialPart(env: Env, a: Approving, e: Completion, now: int)
    requires a.Package(env).Ok? && SignsAs(env, a.sign, a.issuer)
    requires e.request == a.order.request && e.approval == a.Package(env).value.approval && e.issuer == a.issuer
    requires e.credential == a.Package(env).value.credential
    ensures var r := ValidateCredential(env, e, a.Hash(env), now);
            && (r.Ok? <==> a.issuer.IsEd25519() && NotExpired(env, e.approval.expiresAt, now).Ok?)
            && (r.Ok? ==> r.value.revocationReference == a.order.revocationReference)
  {
    hide ApproveEnrollment;
    hide ClaimVerified;
    hide ApprovalBytes;
    hide NotExpired;
    hide ValidateEnrollmentRequest;
    hide Expiry;
    hide FromWire;
    hide Subject.Model;
    hide SubjectFrom;
    hide DID;
    hide SignsAs;
    hide Fits;
    ApprovalMade(env, a);
    CredentialMade(env, a);
    SubjectFields(a.Subject(env));
    DecodedFits(e.credential.subject, SUBJECT);
  }

  lemma PresentationPart(env: Env, a: Approving, p: Presenting, e: Completion)
    requires SignsAs(env, p.sign, e.request.newIdentity) && e.request.newIdentity.IsEd25519()
    requires p.Presentation(env, e.request.newIdentity) == Ok(e.presentation) && e.credential in p.credentials
    ensures ValidatePresentation(env, e).Ok? <==> p.challenge == Some(e.expectedChallenge) && p.domain == e.expectedDomain
  {
    hide HolderProven;
    hide PresentationBytes;
    hide DID;
    hide SignsAs;
    hide Descriptor.IsEd25519;
    hide Descriptor.Key;
    var d := e.request.newIdentity;
    SignedPresentationProves(env, p.credentials, d, p.sign, p.challenge, p.domain, p.uuid, p.at, e.expectedChallenge, e.expectedDomain);
    var i :| 0 <= i < |p.credentials| && p.credentials[i] == e.credential;
    assert e.presentation.credentials.value[i].id == e.credential.id;
  }

  /**
   * A package the issuer made, presented by the new key, completes exactly when the listed conditions hold,
   * and the record carries the granted lists.
   */
  lemma EnrollmentCompletes(env: Env, a: Approving, p: Presenting, x: Expecting, now: int, used: set<string>, verifier: Option<Verifier>)
    requires a.Package(env).Ok? && p.Presentation(env, a.order.request.newIdentity).Ok?
    requires SignsAs(env, a.sign, a.issuer) && SignsAs(env, p.sign, a.order.request.newIdentity)
    requires a.Package(env).value.credential in p.credentials
    ensures var r := VerifyCompletion(env, Assembled(env, a, p, x), now, used, verifier);
            && (r.Ok? <==> Acceptable(env, a, p, x, now, used, verifier))
            && (r.Ok? ==>
                  && r.value.record.approved == a.order.Granted() && r.value.record.linked == a.order.request.newIdentity
                  && Some(r.value.record.binding) == a.order.request.binding && r.value.record.linkID == a.id
                  && r.value.record.issuerUUID == a.issuer.uuid && r.value.record.status == "active"
                  && r.value.record.revocationReference == a.order.revocationReference
                  && r.value.approvalJTI == (if a.order.jti.Some? then a.order.jti.value else a.id))
  {
    hide ApproveEnrollment;
    hide BindAndSignPresentation;
    hide ApprovalBytes;
    hide NotExpired;
    hide ValidateEnrollmentRequest;
    hide ValidateApproval;
    hide ValidateCredential;
    hide ValidatePresentation;
    hide Within;
    hide IsBlank;
    hide Expiry;
    hide SignsAs;
    var e := Assembled(env, a, p, x);
    ApprovalMade(env, a);
    RequestLater(env, a.order.request, a.now, now);
    ApprovalPart(env, a, e, now, used, verifier);
    CredentialPart(env, a, e, now);
    PresentationPart(env, a, p, e);
  }

  // ---- What an accepted completion rests on ----

  /** Signatures under this key exist only for approvals the key's owner made. */
  ghost predicate SignsOnly(env: Env, issuer: Descriptor, made: set<Approval>) {
    forall a: Approval, signature ::
      Verifies(env, signature, ApprovalBytes(env, a), issuer) ==>
        exists m :: m in made && ApprovalBytes(env, m) == ApprovalBytes(env, a)
  }

  /** The accepted approval says, key by key on the wire, what one of the issuer's own approvals said. */
  lemma AcceptedWasApproved(env: Env, e: Completion, now: int, used: set<string>, verifier: Option<Verifier>, made: set<Approval>) returns (m: Approval)
    requires VerifyCompletion(env, e, now, used, verifier).Ok? && SignsOnly(env, e.issuer, made)
    ensures m in made && Fits(m.Model(), APPROVAL) && Fits(e.approval.Model(), APPROVAL)
    ensures ToWire(m.Model(), APPROVAL).Ok? && ToWire(e.approval.Model(), APPROVAL).Ok?
    ensures ToWire(m.Model(), APPROVAL).value - {"proof"} == ToWire(e.approval.Model(), APPROVAL).value - {"proof"}
    ensures Within(e.approval.approved, e.request.requested)
    ensures VerifyCompletion(env, e, now, used, verifier).value.record.approved == e.approval.approved
  {
    hide VerifyCompletion;
    hide VerifySignature;
    hide Approval.Model;
    hide Fits;
    hide Within;
    AcceptedVerifies(env, e, now, used, verifier);
    ApprovalFits(e.approval);
    m :| m in made && ApprovalBytes(env, m) == ApprovalBytes(env, e.approval);
    ApprovalFits(m);
    hide ToWire;
    SignedBytesBind(e.approval.Model(), m.Model(), APPROVAL, {"proof"}, env.fold);
  }

  lemma AcceptedVerifies(env: Env, e: Completion, now: int, used: set<string>, verifier: Option<Verifier>)
    requires VerifyCompletion(env, e, now, used, verifier).Ok?
    ensures exists signature :: Verifies(env, signature, ApprovalBytes(env, e.approval), e.issuer)
    ensures Within(e.approval.approved, e.request.requested) && e.approval.jti !in used && !IsBlank(e.approval.jti)
    ensures VerifyCompletion(env, e, now, used, verifier).value.record.approved == e.approval.approved
    ensures VerifyCompletion(env, e, now, used, verifier).value.approvalJTI == e.approval.jti
  {
    hide Verifies;
    hide ApprovalBytes;
    hide Within;
    hide IsBlank;
    hide ValidateEnrollmentRequest;
    hide ValidateCredential;
    hide ValidatePresentation;
    hide NotExpired;
    assert Verifies(env, e.approval.proof.value.signature.value, ApprovalBytes(env, e.approval), e.issuer);
  }

  /** Of two sets of used JTIs, what decides is whether they hold this approval's. */
  lemma UsedDecides(env: Env, e: Completion, now: int, used: set<string>, others: set<string>, verifier: Option<Verifier>)
    requires VerifyCompletion(env, e, now, used, verifier).Ok?
    ensures if e.approval.jti in others then VerifyCompletion(env, e, now, others, verifier).Err?
            else VerifyCompletion(env, e, now, others, verifier) == VerifyCompletion(env, e, now, used, verifier)
  {
    var hash := ValidateEnrollmentRequest(env, e.request, now).value;
    FieldsSteps(e, hash, used);
    FieldsSteps(e, hash, others);
    hide CheckApprovalFields;
    hide CheckEvidence;
    hide CheckApprovalProof;
    hide Within;
    hide IsBlank;
    hide ValidateEnrollmentRequest;
    hide ValidateCredential;
    hide ValidatePresentation;
    hide NotExpired;
  }
}
