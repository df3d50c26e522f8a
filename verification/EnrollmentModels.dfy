/** The records of an enrollment and the wire schema of each. */
module EnrollmentModels {
  import opened Prelude
  import opened JsonCodec
  import opened Wire
  import opened ChannelCodec

  // ---- Models ----

  function OptText(s: Option<string>): (v: Value)
    ensures HasKind(v, TTextPtr)
  {
    if s.Some? then Wire.Text(s.value) else Nil
  }

  /** A struct's fields, as a field of that struct kind or a pointer to it. */
  function Nested(m: Model, s: Schema): (v: Value)
    requires Fits(m, s)
    ensures v == Rec(m) && HasKind(v, TStruct(s)) && HasKind(v, TPtr(s))
  {
    Rec(m)
  }

  datatype Descriptor = Descriptor(uuid: string, displayName: Option<string>, publicKey: Bytes, algorithm: string, curve: string) {
    function Model(): (m: Model)
      ensures Fits(m, DESCRIPTOR)
    {
      [Wire.Text(uuid), OptText(displayName), Blob(publicKey), Wire.Text(algorithm), Wire.Text(curve)]
    }

    /** The identity and key, without the display name. */
    function Key(): PublicIdentity {
      PublicIdentity(uuid, publicKey, algorithm, curve)
    }

    predicate IsEd25519() {
      algorithm == "EdDSA" && curve == "Curve25519" && |publicKey| == 32
    }
  }

  const BINDING := Schema([
    Need("mode", TText), Opt("entityAnchorReference", TTextPtr), Opt("bindingID", TTextPtr), Opt("audience", TTextPtr)])

  datatype Binding = Binding(mode: string, anchor: Option<string>, bindingID: Option<string>, audience: Option<string>) {
    function Model(): (m: Model)
      ensures Fits(m, BINDING)
    {
      [Wire.Text(mode), OptText(anchor), OptText(bindingID), OptText(audience)]
    }
  }

  const REQUEST_PROOF := Schema([
    Need("type", TText), Need("byIdentityUUID", TText), Need("algorithm", TText), Need("curveType", TText), Opt("signature", TBytes)])

  datatype RequestProof = RequestProof(kind: string, byUUID: string, algorithm: string, curve: string, signature: Bytes) {
    function Model(): (m: Model)
      ensures Fits(m, REQUEST_PROOF)
    {
      [Wire.Text(kind), Wire.Text(byUUID), Wire.Text(algorithm), Wire.Text(curve), Blob(signature)]
    }
  }

  const REQUEST := Schema([
    Need("version", TInt), Need("requestID", TText), Need("purpose", TText), Opt("entityBinding", TPtr(BINDING)),
    Need("newIdentity", TStruct(DESCRIPTOR)), Need("requestedDomains", TTexts), Need("requestedIdentityContexts", TTexts),
    Need("requestedScopes", TTexts), Need("audience", TText), Need("origin", TText), Need("createdAt", TText),
    Need("expiresAt", TText), Need("nonce", TBytes), Opt("platform", TTextPtr), Opt("deviceLabel", TTextPtr),
    Opt("proof", TPtr(REQUEST_PROOF))])

  /** Three lists that go together: domains, identity contexts and scopes. */
  datatype Reach = Reach(domains: seq<string>, contexts: seq<string>, scopes: seq<string>)

  datatype Request = Request(
    version: int64, requestID: string, purpose: string, binding: Option<Binding>, newIdentity: Descriptor, requested: Reach,
    audience: string, origin: string, createdAt: string, expiresAt: string, nonce: Bytes,
    platform: Option<string>, deviceLabel: Option<string>, proof: Option<RequestProof>)
  {
    function Model(): Model {
      [Number(version), Wire.Text(requestID), Wire.Text(purpose), if binding.Some? then Nested(binding.value.Model(), BINDING) else Nil,
       Nested(newIdentity.Model(), DESCRIPTOR), Texts(requested.domains), Texts(requested.contexts), Texts(requested.scopes),
       Wire.Text(audience), Wire.Text(origin), Wire.Text(createdAt), Wire.Text(expiresAt), Blob(nonce),
       OptText(platform), OptText(deviceLabel), if proof.Some? then Nested(proof.value.Model(), REQUEST_PROOF) else Nil]
    }
  }

  const EVIDENCE := Schema([
    Need("method", TText), Need("challenge", TBytes), Need("performedAt", TText), Opt("credentialID", TBytes),
    Opt("authenticatorData", TBytes), Opt("clientDataJSON", TBytes), Opt("signature", TBytes)])

  function OptBlob(b: Option<Bytes>): (v: Value)
    ensures HasKind(v, TBytes)
  {
    if b.Some? then Blob(b.value) else Nil
  }

  datatype Evidence = Evidence(
    means: string, challenge: Bytes, performedAt: string, credentialID: Option<Bytes>,
    authenticatorData: Option<Bytes>, clientDataJSON: Option<Bytes>, signature: Option<Bytes>)
  {
    function Model(): (m: Model)
      ensures Fits(m, EVIDENCE)
    {
      [Wire.Text(means), Blob(challenge), Wire.Text(performedAt), OptBlob(credentialID), OptBlob(authenticatorData),
       OptBlob(clientDataJSON), OptBlob(signature)]
    }
  }

  const APPROVAL_PROOF := Schema([
    Need("type", TText), Need("issuerIdentityUUID", TText), Need("issuerType", TText), Need("algorithm", TText),
    Need("curveType", TText), Opt("signature", TBytes)])

  datatype ApprovalProof = ApprovalProof(
    kind: string, issuerUUID: string, issuerType: string, algorithm: string, curve: string, signature: Option<Bytes>)
  {
    function Model(): (m: Model)
      ensures Fits(m, APPROVAL_PROOF)
    {
      [Wire.Text(kind), Wire.Text(issuerUUID), Wire.Text(issuerType), Wire.Text(algorithm), Wire.Text(curve), OptBlob(signature)]
    }
  }

  const APPROVAL := Schema([
    Need("version", TInt), Need("approvalID", TText), Need("purpose", TText), Need("requestHash", TBytes),
    Need("entityBinding", TStruct(BINDING)), Need("subjectIdentity", TStruct(DESCRIPTOR)), Need("approvedDomains", TTexts),
    Need("approvedIdentityContexts", TTexts), Need("approvedScopes", TTexts), Need("issuerIdentityUUID", TText),
    Need("issuerType", TText), Need("audience", TText), Need("origin", TText), Need("createdAt", TText),
    Need("expiresAt", TText), Need("jti", TText), Need("freshAuthRequired", TFlag), Opt("freshAuthMethod", TTextPtr),
    Opt("freshAuthPerformedAt", TTextPtr), Opt("freshAuthEvidence", TPtr(EVIDENCE)), Opt("proof", TPtr(APPROVAL_PROOF))])

  const APPROVAL_PROOF_AT := 20

  datatype Approval = Approval(
    version: int64, approvalID: string, purpose: string, requestHash: Bytes, binding: Binding, subject: Descriptor,
    approved: Reach, issuerUUID: string, issuerType: string, audience: string, origin: string, createdAt: string,
    expiresAt: string, jti: string, freshAuthRequired: bool, freshAuthMethod: Option<string>,
    freshAuthPerformedAt: Option<string>, freshAuthEvidence: Option<Evidence>, proof: Option<ApprovalProof>)
  {
    function Model(): Model {
      [Number(version), Wire.Text(approvalID), Wire.Text(purpose), Blob(requestHash), Nested(binding.Model(), BINDING), Nested(subject.Model(), DESCRIPTOR),
       Texts(approved.domains), Texts(approved.contexts), Texts(approved.scopes), Wire.Text(issuerUUID), Wire.Text(issuerType),
       Wire.Text(audience), Wire.Text(origin), Wire.Text(createdAt), Wire.Text(expiresAt), Wire.Text(jti), Flag(freshAuthRequired),
       OptText(freshAuthMethod), OptText(freshAuthPerformedAt),
       if freshAuthEvidence.Some? then Nested(freshAuthEvidence.value.Model(), EVIDENCE) else Nil,
       if proof.Some? then Nested(proof.value.Model(), APPROVAL_PROOF) else Nil]
    }
  }

  lemma FitsFrom(m: Model, s: Schema)
    requires |m| == |s.fields| && forall i :: 0 <= i < |m| ==> HasKind(m[i], s.fields[i].kind)
    ensures Fits(m, s)
  {
  }

  lemma RequestFits(r: Request)
    ensures Fits(r.Model(), REQUEST)
  {
    hide Fits;
    hide Binding.Model;
    hide Descriptor.Model;
    hide RequestProof.Model;
    hide OptText;
    FitsFrom(r.Model(), REQUEST);
  }

  lemma ApprovalFits(a: Approval)
    ensures Fits(a.Model(), APPROVAL)
  {
    hide Fits;
    hide Binding.Model;
    hide Descriptor.Model;
    hide Evidence.Model;
    hide ApprovalProof.Model;
    hide OptText;
    ApprovalFitsTo(a);
    ApprovalFitsFrom(a);
    FitsFrom(a.Model(), APPROVAL);
  }

  lemma ApprovalFitsTo(a: Approval)
    ensures forall i :: 0 <= i < 10 ==> HasKind(a.Model()[i], APPROVAL.fields[i].kind)
  {
    hide Binding.Model;
    hide Descriptor.Model;
    hide Evidence.Model;
    hide ApprovalProof.Model;
    hide OptText;
  }

  lemma ApprovalFitsFrom(a: Approval)
    ensures forall i :: 10 <= i < 21 ==> HasKind(a.Model()[i], APPROVAL.fields[i].kind)
  {
    hide Binding.Model;
    hide Descriptor.Model;
    hide Evidence.Model;
    hide ApprovalProof.Model;
    hide OptText;
  }

  const VC_PROOF := Schema([
    Need("type", TText), Need("created", TText), Need("proofPurpose", TText), Need("verificationMethod", TText),
    Need("signatureData", TBytes)])

  datatype VCProof = VCProof(kind: string, created: string, purpose: string, verificationMethod: string, signature: Bytes) {
    function Model(): (m: Model)
      ensures Fits(m, VC_PROOF)
    {
      [Wire.Text(kind), Wire.Text(created), Wire.Text(purpose), Wire.Text(verificationMethod), Blob(signature)]
    }
  }

  const CLAIM := Schema([
    Opt("@context", TTexts), Need("id", TText), Need("type", TTexts), Need("issuer", TAny), Need("issuanceDate", TText),
    Need("credentialSubject", TAny), Need("proof", TStruct(VC_PROOF))])

  const CLAIM_PROOF_AT := 6

  datatype Claim = Claim(
    context: Option<seq<string>>, id: string, types: seq<string>, issuer: Json, issuanceDate: string, subject: Json, proof: VCProof)
  {
    function Model(): (m: Model)
      ensures Fits(m, CLAIM)
    {
      [if context.Some? then Texts(context.value) else Nil, Wire.Text(id), Texts(types), Any(issuer), Wire.Text(issuanceDate),
       Any(subject), Nested(proof.Model(), VC_PROOF)]
    }
  }

  const PRESENTATION := Schema([
    Opt("@context", TTexts), Need("id", TText), Need("type", TTexts), Need("holder", TAny), Opt("challenge", TBytes),
    Opt("domain", TTextPtr), Opt("holderBinding", TPtr(DESCRIPTOR)),
    Field("verifiableCredential", true, TList(CLAIM), ExplicitNull), Need("proof", TStruct(VC_PROOF))])

  const PRESENTATION_PROOF_AT := 8

  datatype Presentation = Presentation(
    context: Option<seq<string>>, id: string, types: seq<string>, holder: Json, challenge: Option<Bytes>, domain: Option<string>,
    binding: Option<Descriptor>, credentials: Option<seq<Claim>>, proof: VCProof)
  {
    function Model(): Model {
      [if context.Some? then Texts(context.value) else Nil, Wire.Text(id), Texts(types), Any(holder), OptBlob(challenge),
       OptText(domain), if binding.Some? then Nested(binding.value.Model(), DESCRIPTOR) else Nil,
       if credentials.Some? then Recs(ClaimModels(credentials.value)) else Nil, Nested(proof.Model(), VC_PROOF)]
    }
  }

  function ClaimModels(claims: seq<Claim>): (items: seq<Value>)
    ensures |items| == |claims| && forall i :: 0 <= i < |items| ==> items[i].Rec? && Fits(items[i].values, CLAIM)
  {
    seq(|claims|, i requires 0 <= i < |claims| => Rec(claims[i].Model()))
  }

  lemma PresentationFits(p: Presentation)
    ensures Fits(p.Model(), PRESENTATION)
  {
    hide Fits;
    hide Descriptor.Model;
    hide VCProof.Model;
    hide OptText;
    hide OptBlob;
    hide ClaimModels;
    assert PRESENTATION.fields[7] == Field("verifiableCredential", true, TList(CLAIM), ExplicitNull);
    FitsFrom(p.Model(), PRESENTATION);
  }

  const SUBJECT := Schema([
    Need("id", TText), Need("linkType", TText), Need("entityBinding", TStruct(BINDING)), Need("linkedIdentity", TStruct(DESCRIPTOR)),
    Need("approvedDomains", TTexts), Need("approvedIdentityContexts", TTexts), Need("approvedScopes", TTexts),
    Need("enrollmentRequestHash", TBytes), Need("assuranceSource", TText), Need("assuranceLevel", TText),
    Need("validUntil", TText), Opt("revocationReference", TTextPtr)])

  datatype Subject = Subject(
    id: string, linkType: string, binding: Binding, linked: Descriptor, approved: Reach, requestHash: Bytes,
    assuranceSource: string, assuranceLevel: string, validUntil: string, revocationReference: Option<string>)
  {
    function Model(): (m: Model)
      ensures Fits(m, SUBJECT)
    {
      [Wire.Text(id), Wire.Text(linkType), Nested(binding.Model(), BINDING), Nested(linked.Model(), DESCRIPTOR), Texts(approved.domains),
       Texts(approved.contexts), Texts(approved.scopes), Blob(requestHash), Wire.Text(assuranceSource),
       Wire.Text(assuranceLevel), Wire.Text(validUntil), OptText(revocationReference)]
    }
  }

  // ---- The decoded subject as a record again ----

  function TextFrom(v: Value): string {
    if v.Text? then v.s else ""
  }

  function OptTextFrom(v: Value): Option<string> {
    if v.Text? then Some(v.s) else None
  }

  function TextsFrom(v: Value): seq<string> {
    if v.Texts? then v.texts else []
  }

  function BlobFrom(v: Value): Bytes {
    if v.Blob? then v.data else []
  }

  function DescriptorFrom(m: Model): Descriptor
    requires Fits(m, DESCRIPTOR)
  {
    Descriptor(TextFrom(m[0]), OptTextFrom(m[1]), BlobFrom(m[2]), TextFrom(m[3]), TextFrom(m[4]))
  }

  function BindingFrom(m: Model): Binding
    requires Fits(m, BINDING)
  {
    Binding(TextFrom(m[0]), OptTextFrom(m[1]), OptTextFrom(m[2]), OptTextFrom(m[3]))
  }

  function SubjectFrom(m: Model): Subject
    requires Fits(m, SUBJECT)
  {
    assert HasKind(m[2], SUBJECT.fields[2].kind) && HasKind(m[3], SUBJECT.fields[3].kind);
    Subject(TextFrom(m[0]), TextFrom(m[1]), BindingFrom(m[2].values), DescriptorFrom(m[3].values),
            Reach(TextsFrom(m[4]), TextsFrom(m[5]), TextsFrom(m[6])), BlobFrom(m[7]), TextFrom(m[8]), TextFrom(m[9]),
            TextFrom(m[10]), OptTextFrom(m[11]))
  }
}
