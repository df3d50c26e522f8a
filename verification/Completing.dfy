/** What completing an enrollment rests on: every field that is compared and every signature, written out. */
module Completing {
  import opened Prelude
  import opened Text
  import opened JsonCodec
  import opened Wire
  import opened ChannelCodec
  import opened EnrollmentModels
  import opened Enrollment
  import Base58

  // ---- Written out ----

  /** These octets were signed under this key: a 64-octet Ed25519 signature that verifies. */
  predicate Signed(env: Env, signature: Bytes, payload: Result<Bytes>, d: Descriptor) {
    && payload.Ok? && d.algorithm == "EdDSA" && d.curve == "Curve25519" && |d.publicKey| == 32
    && |signature| == 64 && env.crypto.verify(d.publicKey, payload.value, signature)
  }

  /** The date reads as a moment that is not past. */
  predicate Lasts(env: Env, text: string, now: int) {
    env.iso.parse(text).Some? && now <= env.iso.parse(text).value
  }

  /** The did:key of an Ed25519 key. */
  function Ed25519DID(publicKey: Bytes): Json {
    Str("did:key:z" + Base58.Encode([0xED, 0x01] + publicKey))
  }

  predicate SameKey(d: Descriptor, e: Descriptor) {
    d.uuid == e.uuid && d.publicKey == e.publicKey && d.algorithm == e.algorithm && d.curve == e.curve
  }

  /** The request, asked for in full and signed by the new key itself. */
  predicate RequestHolds(env: Env, r: Request, now: int) {
    && r.purpose == "link_identity" && r.binding.Some? && |r.nonce| >= 16
    && !IsBlank(r.audience) && !IsBlank(r.origin)
    && |r.requested.domains| > 0 && |r.requested.contexts| > 0 && |r.requested.scopes| > 0
    && Lasts(env, r.expiresAt, now)
    && r.proof.Some? && r.proof.value.byUUID == r.newIdentity.uuid
    && r.proof.value.algorithm == r.newIdentity.algorithm && r.proof.value.curve == r.newIdentity.curve
    && Signed(env, r.proof.value.signature, RequestBytes(env, r), r.newIdentity)
  }

  predicate Among(granted: seq<string>, asked: seq<string>) {
    forall i :: 0 <= i < |granted| ==> granted[i] in asked
  }

  /** The evidence of fresh authentication, where it is asked for. */
  predicate EvidenceHolds(e: Completion, hash: Bytes, verifier: Option<Verifier>) {
    e.requireEvidence ==>
      && e.approval.freshAuthEvidence.Some? && e.approval.freshAuthEvidence.value.challenge == hash
      && verifier.Some? && verifier.value(e.approval)
  }

  /** The approval is of this very request, within what it asks, unused, and signed by another, permitted issuer. */
  predicate ApprovalHolds(env: Env, e: Completion, hash: Bytes, now: int, used: set<string>, verifier: Option<Verifier>) {
    var a, r, issuer := e.approval, e.request, e.issuer;
    && a.purpose == "approve_link_identity" && a.requestHash == hash
    && SameKey(a.subject, r.newIdentity) && r.binding == Some(a.binding)
    && a.audience == r.audience && a.audience == e.expectedAudience
    && a.origin == r.origin && a.origin == e.expectedOrigin
    && !IsBlank(a.jti) && a.jti !in used
    && (a.issuerType == "existingDevice" || a.issuerType == "custodian" || a.issuerType == "recoveryAuthority")
    && a.issuerUUID != r.newIdentity.uuid && !SameKey(issuer, r.newIdentity)
    && a.freshAuthRequired && a.freshAuthPerformedAt.Some? && EvidenceHolds(e, hash, verifier)
    && Lasts(env, a.expiresAt, now)
    && Among(a.approved.domains, r.requested.domains) && Among(a.approved.contexts, r.requested.contexts)
    && Among(a.approved.scopes, r.requested.scopes)
    && a.proof.Some? && a.proof.value.signature.Some?
    && a.proof.value.issuerUUID == issuer.uuid && a.proof.value.issuerType == a.issuerType
    && a.proof.value.algorithm == issuer.algorithm && a.proof.value.curve == issuer.curve && a.issuerUUID == issuer.uuid
    && Signed(env, a.proof.value.signature.value, ApprovalBytes(env, a), issuer)
  }

  /** The credential's subject, where it has one that decodes. */
  function SubjectOf(c: Claim): Option<Subject> {
    match FromWire(c.subject, SUBJECT)
    case Err(_) => None
    case Ok(m) =>
      DecodedFits(c.subject, SUBJECT);
      Some(SubjectFrom(m))
  }

  /** The credential says of the new key what the approval says, and the issuer signed it. */
  predicate CredentialHolds(env: Env, e: Completion, hash: Bytes, now: int) {
    var c, issuer, d, subject := e.credential, e.issuer, e.request.newIdentity, SubjectOf(e.credential);
    && "SameEntityIdentityLinkCredential" in c.types && c.issuer == Ed25519DID(issuer.publicKey)
    && c.proof.verificationMethod == issuer.uuid && c.proof.purpose == "assertionMethod"
    && c.proof.kind == "Ed25519Signature2020"
    && Signed(env, c.proof.signature, ClaimBytes(c), issuer)
    && subject.Some? && subject.value.linkType == "same_entity" && Str(subject.value.id) == Ed25519DID(d.publicKey)
    && SameKey(subject.value.linked, d) && subject.value.binding == e.approval.binding
    && subject.value.requestHash == hash && subject.value.approved == e.approval.approved
    && Lasts(env, subject.value.validUntil, now)
  }

  /** The presentation carries the credential for this challenge and domain, and the new key signed it. */
  predicate PresentationHolds(env: Env, e: Completion) {
    var p, d := e.presentation, e.request.newIdentity;
    && "SameEntityIdentityLinkPresentation" in p.types
    && p.credentials.Some? && (exists i :: 0 <= i < |p.credentials.value| && p.credentials.value[i].id == e.credential.id)
    && p.binding.Some? && SameKey(p.binding.value, d) && p.holder == Ed25519DID(d.publicKey)
    && p.challenge == Some(e.expectedChallenge) && p.domain == Some(e.expectedDomain)
    && p.proof.purpose == "authentication" && p.proof.verificationMethod == d.uuid && p.proof.kind == "Ed25519Signature2020"
    && Signed(env, p.proof.signature, PresentationBytes(p), d)
  }

  // ---- Piece by piece ----

  lemma EdDSAKey(d: Descriptor)
    requires d.algorithm == "EdDSA" && d.curve == "Curve25519"
    ensures DID(d).Ok? && Str(DID(d).value) == Ed25519DID(d.publicKey) && ProofType(d) == "Ed25519Signature2020"
  {
    hide Base58.Encode;
  }

  lemma RequestIff(env: Env, r: Request, now: int)
    ensures ValidateEnrollmentRequest(env, r, now).Ok? <==> RequestHolds(env, r, now)
    ensures RequestHolds(env, r, now) ==> ValidateEnrollmentRequest(env, r, now) == Ok(env.sha(RequestBytes(env, r).value))
  {
    hide RequestBytes;
    hide IsBlank;
  }

  lemma ApprovalIff(env: Env, e: Completion, hash: Bytes, now: int, used: set<string>, verifier: Option<Verifier>)
    ensures ValidateApproval(env, e, hash, now, used, verifier).Ok? <==> ApprovalHolds(env, e, hash, now, used, verifier)
  {
    FieldsSteps(e, hash, used);
    ApprovalSteps(env, e, hash, now, used, verifier);
    hide CheckApprovalFields;
    hide ValidateApproval;
    hide ApprovalBytes;
    hide IsBlank;
  }

  lemma ClaimIff(env: Env, c: Claim, issuer: Descriptor)
    requires issuer.algorithm == "EdDSA" && issuer.curve == "Curve25519"
    ensures ClaimVerified(env, c, issuer) <==>
              && c.issuer == Ed25519DID(issuer.publicKey)
              && c.proof.verificationMethod == issuer.uuid && c.proof.purpose == "assertionMethod"
              && c.proof.kind == "Ed25519Signature2020" && Signed(env, c.proof.signature, ClaimBytes(c), issuer)
  {
    EdDSAKey(issuer);
    hide DID;
    hide Ed25519DID;
    hide ProofType;
    hide ClaimBytes;
  }

  lemma SubjectIff(env: Env, e: Completion, s: Subject, hash: Bytes, now: int)
    requires e.request.newIdentity.algorithm == "EdDSA" && e.request.newIdentity.curve == "Curve25519"
    ensures var d := e.request.newIdentity;
            CheckSubject(env, e, s, hash, now).Ok? <==>
              && s.linkType == "same_entity" && Str(s.id) == Ed25519DID(d.publicKey)
              && SameKey(s.linked, d) && s.binding == e.approval.binding && s.requestHash == hash
              && s.approved == e.approval.approved && Lasts(env, s.validUntil, now)
  {
    EdDSAKey(e.request.newIdentity);
    hide DID;
    hide Ed25519DID;
    hide ProofType;
  }

  lemma CredentialIff(env: Env, e: Completion, hash: Bytes, now: int)
    requires e.issuer.algorithm == "EdDSA" && e.issuer.curve == "Curve25519"
    requires e.request.newIdentity.algorithm == "EdDSA" && e.request.newIdentity.curve == "Curve25519"
    ensures ValidateCredential(env, e, hash, now).Ok? <==> CredentialHolds(env, e, hash, now)
    ensures CredentialHolds(env, e, hash, now) ==> SubjectOf(e.credential) == Some(ValidateCredential(env, e, hash, now).value)
  {
    hide DID;
    hide Ed25519DID;
    hide ProofType;
    hide ClaimBytes;
    hide FromWire;
    hide SubjectFrom;
    hide ClaimVerified;
    hide CheckSubject;
    hide SameKey;
    hide Lasts;
    hide Signed;
    EdDSAKey(e.issuer);
    ClaimIff(env, e.credential, e.issuer);
    if SubjectOf(e.credential).Some? {
      SubjectIff(env, e, SubjectOf(e.credential).value, hash, now);
    }
  }

  lemma PresentationIff(env: Env, e: Completion)
    requires e.request.newIdentity.algorithm == "EdDSA" && e.request.newIdentity.curve == "Curve25519"
    ensures ValidatePresentation(env, e).Ok? <==> PresentationHolds(env, e)
  {
    var d := e.request.newIdentity;
    EdDSAKey(d);
    if e.presentation.binding.Some? && SameKey(e.presentation.binding.value, d) {
      EdDSAKey(e.presentation.binding.value);
    }
    hide DID;
    hide Ed25519DID;
    hide ProofType;
    hide PresentationBytes;
  }

  /** Everything at once: an envelope completes exactly when all four pieces hold, and this is what is recorded. */
  lemma CompletionIff(env: Env, e: Completion, now: int, used: set<string>, verifier: Option<Verifier>)
    ensures VerifyCompletion(env, e, now, used, verifier).Ok? <==>
              && RequestHolds(env, e.request, now)
              && var hash := env.sha(RequestBytes(env, e.request).value);
                 && ApprovalHolds(env, e, hash, now, used, verifier) && CredentialHolds(env, e, hash, now) && PresentationHolds(env, e)
    ensures VerifyCompletion(env, e, now, used, verifier).Ok? ==>
              var c, a := VerifyCompletion(env, e, now, used, verifier).value, e.approval;
              && RequestBytes(env, e.request).Ok? && c.requestHash == env.sha(RequestBytes(env, e.request).value)
              && SubjectOf(e.credential).Some?
              && c.record == Record(a.approvalID, a.binding, e.request.newIdentity, a.approved, e.issuer.uuid, a.issuerType, "active",
                                    env.iso.format(now), None, None, SubjectOf(e.credential).value.revocationReference)
              && c.approvalJTI == a.jti && c.credentialID == e.credential.id && c.presentationID == e.presentation.id
  {
    RequestIff(env, e.request, now);
    hide ValidateEnrollmentRequest;
    hide ValidateApproval;
    hide ValidateCredential;
    hide ValidatePresentation;
    hide RequestBytes;
    hide ApprovalBytes;
    hide ClaimBytes;
    hide PresentationBytes;
    hide SubjectOf;
    hide IsBlank;
    hide Ed25519DID;
    if RequestHolds(env, e.request, now) {
      var hash := env.sha(RequestBytes(env, e.request).value);
      ApprovalIff(env, e, hash, now, used, verifier);
      if ApprovalHolds(env, e, hash, now, used, verifier) {
        CredentialIff(env, e, hash, now);
        PresentationIff(env, e);
      }
    }
  }

  // ---- What was signed is what is said ----

  /** Signatures under this key exist only for requests its owner made. */
  ghost predicate Asks(env: Env, d: Descriptor, made: set<Request>) {
    forall r: Request, signature :: Signed(env, signature, RequestBytes(env, r), d) ==>
      exists m :: m in made && RequestBytes(env, m) == RequestBytes(env, r)
  }

  ghost predicate Presents(env: Env, d: Descriptor, made: set<Presentation>) {
    forall p: Presentation, signature :: Signed(env, signature, PresentationBytes(p), d) ==>
      exists m :: m in made && PresentationBytes(m) == PresentationBytes(p)
  }

  ghost predicate Issues(env: Env, d: Descriptor, made: set<Claim>) {
    forall c: Claim, signature :: Signed(env, signature, ClaimBytes(c), d) ==>
      exists m :: m in made && ClaimBytes(m) == ClaimBytes(c)
  }

  /** Two models of a schema whose wire forms agree but for the proof. */
  ghost predicate SaysTheSame(m: Model, n: Model, s: Schema)
    requires Fits(m, s) && Fits(n, s)
  {
    && ToWire(m, s).Ok? && ToWire(n, s).Ok?
    && forall key :: key != "proof" ==> Entry(ToWire(m, s).value, key) == Entry(ToWire(n, s).value, key)
  }

  lemma UnsignedBind(m: Model, n: Model, s: Schema)
    requires Fits(m, s) && Fits(n, s) && UnsignedBytes(m, s).Ok? && UnsignedBytes(m, s) == UnsignedBytes(n, s)
    ensures SaysTheSame(m, n, s)
  {
    hide ToWire;
    hide Fits;
    var w, u := ToWire(m, s).value - {"proof"}, ToWire(n, s).value - {"proof"};
    EncodingUnambiguous(Obj(w), Obj(u), CHANNEL_STYLE, CHANNEL_STYLE);
    hide CanonicalJSON;
    forall key | key != "proof"
      ensures Entry(ToWire(m, s).value, key) == Entry(ToWire(n, s).value, key)
    {
      assert Entry(w, key) == Entry(u, key);
    }
  }

  /** The accepted presentation says, key by key on the wire, what one of the holder's own presentations said. */
  lemma AcceptedWasPresented(env: Env, e: Completion, now: int, used: set<string>, verifier: Option<Verifier>, made: set<Presentation>) returns (m: Presentation)
    requires VerifyCompletion(env, e, now, used, verifier).Ok? && Presents(env, e.request.newIdentity, made)
    ensures m in made && Fits(m.Model(), PRESENTATION) && Fits(e.presentation.Model(), PRESENTATION)
    ensures SaysTheSame(m.Model(), e.presentation.Model(), PRESENTATION)
  {
    CompletionIff(env, e, now, used, verifier);
    hide VerifyCompletion;
    hide Signed;
    hide Presentation.Model;
    hide SaysTheSame;
    hide RequestHolds;
    hide ApprovalHolds;
    hide CredentialHolds;
    hide Fits;
    PresentationFits(e.presentation);
    m :| m in made && PresentationBytes(m) == PresentationBytes(e.presentation);
    PresentationFits(m);
    PresentationWritten(m);
    hide UnsignedBytes;
    UnsignedBind(m.Model(), e.presentation.Model(), PRESENTATION);
  }

  lemma AcceptedWasIssued(env: Env, e: Completion, now: int, used: set<string>, verifier: Option<Verifier>, made: set<Claim>) returns (m: Claim)
    requires VerifyCompletion(env, e, now, used, verifier).Ok? && Issues(env, e.issuer, made)
    ensures m in made && SaysTheSame(m.Model(), e.credential.Model(), CLAIM)
  {
    CompletionIff(env, e, now, used, verifier);
    hide VerifyCompletion;
    hide Signed;
    hide Claim.Model;
    hide SaysTheSame;
    hide RequestHolds;
    hide ApprovalHolds;
    hide PresentationHolds;
    m :| m in made && ClaimBytes(m) == ClaimBytes(e.credential);
    ClaimWritten(m);
    hide UnsignedBytes;
    hide Fits;
    UnsignedBind(m.Model(), e.credential.Model(), CLAIM);
  }

  /** And the request, what the new key's owner asked for. */
  lemma AcceptedWasAsked(env: Env, e: Completion, now: int, used: set<string>, verifier: Option<Verifier>, made: set<Request>) returns (m: Request)
    requires VerifyCompletion(env, e, now, used, verifier).Ok? && Asks(env, e.request.newIdentity, made)
    ensures m in made && Fits(m.Model(), REQUEST) && Fits(e.request.Model(), REQUEST)
    ensures ToWire(m.Model(), REQUEST).Ok? && ToWire(e.request.Model(), REQUEST).Ok?
    ensures ToWire(m.Model(), REQUEST).value - {"proof"} == ToWire(e.request.Model(), REQUEST).value - {"proof"}
  {
    CompletionIff(env, e, now, used, verifier);
    hide VerifyCompletion;
    hide Signed;
    hide Request.Model;
    hide ApprovalHolds;
    hide CredentialHolds;
    hide PresentationHolds;
    hide Fits;
    RequestFits(e.request);
    m :| m in made && RequestBytes(env, m) == RequestBytes(env, e.request);
    RequestFits(m);
    hide ToWire;
    SignedBytesBind(e.request.Model(), m.Model(), REQUEST, {"proof"}, env.fold);
  }

  // ---- What the issuer and the new key make ----

  /** The approval in a package: the request's own fields, the lists granted, fresh authentication as ordered, the issuer's name. */
  lemma ApprovalIs(env: Env, a: Approving)
    requires a.Package(env).Ok?
    ensures var o, r, x := a.order, a.order.request, a.Package(env).value.approval;
            && a.Package(env).value.issuer == a.issuer && r.binding == Some(x.binding)
            && x.version == 1 && x.approvalID == a.id && x.purpose == "approve_link_identity"
            && ValidateEnrollmentRequest(env, r, a.now) == Ok(x.requestHash)
            && x.subject == r.newIdentity && x.audience == r.audience && x.origin == r.origin
            && x.approved == Reach(if o.domains.Some? then o.domains.value else r.requested.domains,
                                   if o.contexts.Some? then o.contexts.value else r.requested.contexts,
                                   if o.scopes.Some? then o.scopes.value else r.requested.scopes)
            && x.issuerUUID == a.issuer.uuid && x.issuerType == o.issuerType && x.jti == (if o.jti.Some? then o.jti.value else a.id)
            && x.createdAt == env.iso.format(a.now)
            && (o.expiresAt.None? ==> x.expiresAt == env.iso.format(a.now + 300_000_000_000))
            && (o.expiresAt.Some? ==> env.iso.parse(o.expiresAt.value).Some? && x.expiresAt == env.iso.format(env.iso.parse(o.expiresAt.value).value))
            && x.freshAuthRequired == o.freshAuthRequired && x.freshAuthEvidence == o.freshAuthEvidence
            && x.freshAuthMethod == (if o.freshAuthRequired then Some("local-user-presence") else None)
            && x.freshAuthPerformedAt == (if o.freshAuthPerformedAt.Some? then o.freshAuthPerformedAt
                                          else if o.freshAuthRequired then Some(env.iso.format(a.now)) else None)
            && x.proof.Some? && x.proof.value.kind == "signature" && x.proof.value.issuerUUID == a.issuer.uuid
            && x.proof.value.issuerType == o.issuerType && x.proof.value.algorithm == a.issuer.algorithm
            && x.proof.value.curve == a.issuer.curve && x.proof.value.signature.Some?
  {
    hide ApproveEnrollment;
    hide ApprovalBytes;
    hide ValidateEnrollmentRequest;
    hide UnsignedApproval;
    hide Expiry;
    ApprovalMade(env, a);
    MadeInTime(env, a);
    UnsignedIs(env, a.order, a.Hash(env), a.issuer, a.now, Expiry(env, a.order, a.now).value, a.id);
  }

  lemma MadeInTime(env: Env, a: Approving)
    requires a.Package(env).Ok?
    ensures Expiry(env, a.order, a.now).Ok?
    ensures a.order.expiresAt.None? ==> Expiry(env, a.order, a.now) == Ok(a.now + 300_000_000_000)
    ensures a.order.expiresAt.Some? ==>
              env.iso.parse(a.order.expiresAt.value).Some? && Expiry(env, a.order, a.now) == Ok(env.iso.parse(a.order.expiresAt.value).value)
  {
    hide ApprovalBytes;
    hide ValidateEnrollmentRequest;
    hide IssueVCClaim;
    hide ToWire;
    hide DID;
  }

  lemma UnsignedIs(env: Env, o: ApprovalOrder, hash: Bytes, issuer: Descriptor, now: int, expiry: int, id: string)
    requires o.request.binding.Some?
    ensures var r, x := o.request, UnsignedApproval(env, o, hash, issuer, now, expiry, id);
            && r.binding == Some(x.binding) && x.version == 1 && x.approvalID == id && x.purpose == "approve_link_identity"
            && x.requestHash == hash && x.subject == r.newIdentity && x.audience == r.audience && x.origin == r.origin
            && x.approved == Reach(if o.domains.Some? then o.domains.value else r.requested.domains,
                                   if o.contexts.Some? then o.contexts.value else r.requested.contexts,
                                   if o.scopes.Some? then o.scopes.value else r.requested.scopes)
            && x.issuerUUID == issuer.uuid && x.issuerType == o.issuerType && x.jti == (if o.jti.Some? then o.jti.value else id)
            && x.createdAt == env.iso.format(now) && x.expiresAt == env.iso.format(expiry)
            && x.freshAuthRequired == o.freshAuthRequired && x.freshAuthEvidence == o.freshAuthEvidence
            && x.freshAuthMethod == (if o.freshAuthRequired then Some("local-user-presence") else None)
            && x.freshAuthPerformedAt == (if o.freshAuthPerformedAt.Some? then o.freshAuthPerformedAt
                                          else if o.freshAuthRequired then Some(env.iso.format(now)) else None)
            && x.proof == Some(ApprovalProof("signature", issuer.uuid, o.issuerType, issuer.algorithm, issuer.curve, None))
  {
  }

  /** And what the credential says of its subject. */
  lemma SubjectIs(env: Env, a: Approving)
    requires a.Package(env).Ok?
    ensures var o, r, x := a.order, a.order.request, a.Package(env).value.approval;
            && DID(r.newIdentity).Ok?
            && SubjectOf(a.Package(env).value.credential) == Some(Subject(
                 DID(r.newIdentity).value, "same_entity", x.binding, r.newIdentity, x.approved, x.requestHash,
                 if o.freshAuthRequired then "fresh_auth_and_possession" else "possession_only",
                 if o.freshAuthRequired then "high" else "medium", x.expiresAt, o.revocationReference))
  {
    hide ApproveEnrollment;
    hide ApprovalBytes;
    hide ValidateEnrollmentRequest;
    hide FromWire;
    hide ToWire;
    hide SubjectFrom;
    hide Subject.Model;
    hide DID;
    hide IssueVCClaim;
    hide Expiry;
    hide Fits;
    ApprovalMade(env, a);
    var s, d := a.Subject(env), a.order.request.newIdentity;
    SubjectRead(s);
    SubjectIdWritten(s);
    CredentialIssued(env, a);
    var fields := ToWire(s.Model(), SUBJECT).value;
    IssuedShape(env, a.issuer, d, fields, a.sign, a.credentialUUID, a.now);
    assert fields["id" := Str(s.id)] == fields;
    DecodedFits(Obj(fields), SUBJECT);
  }

  lemma ClaimIs(env: Env, issuer: Descriptor, subject: Descriptor, fields: map<string, Json>, sign: Signer, uuid: string, at: int)
    requires IssueVCClaim(env, issuer, subject, fields, sign, uuid, at).Ok?
    ensures var c := IssueVCClaim(env, issuer, subject, fields, sign, uuid, at).value;
            && DID(issuer).Ok? && DID(subject).Ok? && c.issuer == Str(DID(issuer).value)
            && c.context == Some(["https://www.w3.org/2018/credentials/v1", "https://www.w3.org/2018/credentials/examples/v1"])
            && c.id == "cell:///identity/" + subject.uuid + "/claims/" + uuid
            && c.types == ["VerifiableCredential", "SameEntityIdentityLinkCredential"]
            && c.issuanceDate == env.iso.format(at) && c.subject == Obj(fields["id" := Str(DID(subject).value)])
            && c.proof.kind == ProofType(issuer) && c.proof.created == env.iso.format(at) && c.proof.purpose == "assertionMethod"
            && c.proof.verificationMethod == issuer.uuid
  {
    hide ClaimBytes;
    hide DID;
    hide ProofType;
  }

  lemma PresentationIs(env: Env, credentials: seq<Claim>, holder: Descriptor, sign: Signer, challenge: Option<Bytes>, domain: string, uuid: string, at: int)
    requires BindAndSignPresentation(env, credentials, holder, sign, challenge, domain, uuid, at).Ok?
    ensures var p := BindAndSignPresentation(env, credentials, holder, sign, challenge, domain, uuid, at).value;
            && DID(holder).Ok? && p.holder == Str(DID(holder).value) && p.binding == Some(holder) && p.credentials == Some(credentials)
            && p.context == Some(["https://www.w3.org/2018/credentials/v1", "https://www.w3.org/2018/credentials/examples/v1"])
            && p.id == "cell:///identity/" + holder.uuid + "/claims/" + uuid
            && p.types == ["VerifiableCredential", "SameEntityIdentityLinkPresentation"]
            && p.challenge == challenge && p.domain == Some(domain)
            && p.proof.kind == ProofType(holder) && p.proof.created == env.iso.format(at) && p.proof.purpose == "authentication"
            && p.proof.verificationMethod == holder.uuid
  {
    hide PresentationBytes;
    hide DID;
    hide ProofType;
  }
}
