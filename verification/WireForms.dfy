/** The enrollment records as the objects they are on the wire, key by key. */
module WireForms {
  import opened Prelude
  import opened JsonCodec
  import opened Wire
  import opened ChannelCodec
  import opened EnrollmentModels
  import opened Enrollment
  import Anchor
  import Base64

  function TextEntry(t: Option<string>): Option<Json> {
    if t.Some? then Some(Str(t.value)) else None
  }

  function BytesEntry(d: Option<Bytes>): Option<Json> {
    if d.Some? then Some(Str(Base64.Encode(d.value))) else None
  }

  function TextsEntry(ts: Option<seq<string>>): Option<Json> {
    if ts.Some? then Some(List(TextItems(ts.value))) else None
  }

  function AsEntry(w: Result<map<string, Json>>): Option<Json> {
    if w.Ok? then Some(Obj(w.value)) else None
  }

  /** What stands at a key of the object a model is written as. */
  function EntryOf(m: Model, s: Schema, key: string): Option<Json>
    requires Fits(m, s)
  {
    if ToWire(m, s).Ok? then Entry(ToWire(m, s).value, key) else None
  }

  lemma EntryAt(m: Model, s: Schema, i: nat)
    requires Fits(m, s) && KeysDiffer(s.fields) && ToWire(m, s).Ok? && i < |m|
    ensures EntryOf(m, s, s.fields[i].key) == Final(m[i], s.fields[i])
  {
    hide ToWire;
    hide Final;
    ToWireEntries(m, s);
  }

  /** A field no hook touches, and what it holds. */
  predicate Holds(m: Model, s: Schema, i: nat, key: string, kind: Kind, v: Value) {
    i < |m| && i < |s.fields| && s.fields[i].key == key && s.fields[i].kind == kind && s.fields[i].rule == Plain && m[i] == v
  }

  /** A model that can be read off key by key. */
  predicate Legible(m: Model, s: Schema) {
    Fits(m, s) && KeysDiffer(s.fields) && ToWire(m, s).Ok?
  }

  lemma HeldAt(m: Model, s: Schema, i: nat, key: string, kind: Kind, v: Value)
    requires Legible(m, s) && Holds(m, s, i, key, kind, v)
    ensures HasKind(v, kind) && EntryOf(m, s, key) == Written(v, s.fields[i])
  {
    EntryAt(m, s, i);
    hide ToWire;
    hide KeysDiffer;
    hide Written;
    hide EntryOf;
  }

  lemma TextAt(m: Model, s: Schema, i: nat, key: string, t: string)
    requires Legible(m, s) && Holds(m, s, i, key, TText, Wire.Text(t))
    ensures EntryOf(m, s, key) == Some(Str(t))
  {
    HeldAt(m, s, i, key, TText, Wire.Text(t));
    hide Legible;
    hide EntryOf;
    hide ToWire;
  }

  lemma IntAt(m: Model, s: Schema, i: nat, key: string, n: int64)
    requires Legible(m, s) && Holds(m, s, i, key, TInt, Number(n))
    ensures EntryOf(m, s, key) == Some(Int(n))
  {
    HeldAt(m, s, i, key, TInt, Number(n));
    hide Legible;
    hide EntryOf;
    hide ToWire;
  }

  lemma FlagAt(m: Model, s: Schema, i: nat, key: string, b: bool)
    requires Legible(m, s) && Holds(m, s, i, key, TFlag, Flag(b))
    ensures EntryOf(m, s, key) == Some(Bool(b))
  {
    HeldAt(m, s, i, key, TFlag, Flag(b));
    hide Legible;
    hide EntryOf;
    hide ToWire;
  }

  lemma BytesAt(m: Model, s: Schema, i: nat, key: string, d: Bytes)
    requires Legible(m, s) && Holds(m, s, i, key, TBytes, Blob(d))
    ensures EntryOf(m, s, key) == Some(Str(Base64.Encode(d)))
  {
    HeldAt(m, s, i, key, TBytes, Blob(d));
    hide Legible;
    hide EntryOf;
    hide ToWire;
  }

  lemma TextsAt(m: Model, s: Schema, i: nat, key: string, ts: seq<string>)
    requires Legible(m, s) && Holds(m, s, i, key, TTexts, Texts(ts))
    ensures EntryOf(m, s, key) == Some(List(TextItems(ts)))
  {
    HeldAt(m, s, i, key, TTexts, Texts(ts));
    hide Legible;
    hide EntryOf;
    hide ToWire;
  }

  lemma AnyAt(m: Model, s: Schema, i: nat, key: string, v: Json)
    requires Legible(m, s) && Holds(m, s, i, key, TAny, Any(v)) && !s.fields[i].optional
    ensures EntryOf(m, s, key) == Some(v)
  {
    HeldAt(m, s, i, key, TAny, Any(v));
    hide Legible;
    hide EntryOf;
    hide ToWire;
  }

  lemma OptTextAt(m: Model, s: Schema, i: nat, key: string, t: Option<string>)
    requires Legible(m, s) && Holds(m, s, i, key, TTextPtr, OptText(t)) && s.fields[i].optional
    ensures EntryOf(m, s, key) == TextEntry(t)
  {
    HeldAt(m, s, i, key, TTextPtr, OptText(t));
    hide Legible;
    hide EntryOf;
    hide ToWire;
  }

  lemma OptBytesAt(m: Model, s: Schema, i: nat, key: string, d: Option<Bytes>)
    requires Legible(m, s) && Holds(m, s, i, key, TBytes, OptBlob(d)) && s.fields[i].optional
    ensures EntryOf(m, s, key) == BytesEntry(d)
  {
    HeldAt(m, s, i, key, TBytes, OptBlob(d));
    hide Legible;
    hide EntryOf;
    hide ToWire;
  }

  lemma OptTextsAt(m: Model, s: Schema, i: nat, key: string, ts: Option<seq<string>>)
    requires Legible(m, s) && Holds(m, s, i, key, TTexts, (if ts.Some? then Texts(ts.value) else Nil)) && s.fields[i].optional
    ensures EntryOf(m, s, key) == TextsEntry(ts)
  {
    HeldAt(m, s, i, key, TTexts, (if ts.Some? then Texts(ts.value) else Nil));
    hide Legible;
    hide EntryOf;
    hide ToWire;
  }

  lemma StructAt(m: Model, s: Schema, i: nat, key: string, inner: Model, t: Schema)
    requires Legible(m, s) && Holds(m, s, i, key, TStruct(t), Rec(inner))
    ensures Fits(inner, t) && EntryOf(m, s, key) == AsEntry(ToWire(inner, t))
  {
    HeldAt(m, s, i, key, TStruct(t), Rec(inner));
    hide Legible;
    hide EntryOf;
    hide ToWire;
  }

  lemma PtrAt(m: Model, s: Schema, i: nat, key: string, inner: Option<Model>, t: Schema)
    requires Legible(m, s) && Holds(m, s, i, key, TPtr(t), if inner.Some? then Rec(inner.value) else Nil) && s.fields[i].optional
    ensures inner.Some? ==> Fits(inner.value, t)
    ensures EntryOf(m, s, key) == if inner.Some? then AsEntry(ToWire(inner.value, t)) else None
  {
    HeldAt(m, s, i, key, TPtr(t), if inner.Some? then Rec(inner.value) else Nil);
    hide Legible;
    hide EntryOf;
    hide ToWire;
  }

  lemma DescriptorSaysFirst(d: Descriptor)
    requires Legible(d.Model(), DESCRIPTOR)
    ensures EntryOf(d.Model(), DESCRIPTOR, "uuid") == Some(Str(d.uuid))
    ensures EntryOf(d.Model(), DESCRIPTOR, "displayName") == TextEntry(d.displayName)
    ensures EntryOf(d.Model(), DESCRIPTOR, "publicKey") == Some(Str(Base64.Encode(d.publicKey)))
    ensures EntryOf(d.Model(), DESCRIPTOR, "algorithm") == Some(Str(d.algorithm))
  {
    hide Legible;
    hide EntryOf;
    hide ToWire;
    hide Fits;
    hide OptText;
    hide OptBlob;
    TextAt(d.Model(), DESCRIPTOR, 0, "uuid", d.uuid);
    OptTextAt(d.Model(), DESCRIPTOR, 1, "displayName", d.displayName);
    BytesAt(d.Model(), DESCRIPTOR, 2, "publicKey", d.publicKey);
    TextAt(d.Model(), DESCRIPTOR, 3, "algorithm", d.algorithm);
  }

  lemma DescriptorSaysSecond(d: Descriptor)
    requires Legible(d.Model(), DESCRIPTOR)
    ensures EntryOf(d.Model(), DESCRIPTOR, "curveType") == Some(Str(d.curve))
  {
    hide Legible;
    hide EntryOf;
    hide ToWire;
    hide Fits;
    hide OptText;
    hide OptBlob;
    TextAt(d.Model(), DESCRIPTOR, 4, "curveType", d.curve);
  }

  lemma BindingSays(b: Binding)
    requires Legible(b.Model(), BINDING)
    ensures EntryOf(b.Model(), BINDING, "mode") == Some(Str(b.mode))
    ensures EntryOf(b.Model(), BINDING, "entityAnchorReference") == TextEntry(b.anchor)
    ensures EntryOf(b.Model(), BINDING, "bindingID") == TextEntry(b.bindingID)
    ensures EntryOf(b.Model(), BINDING, "audience") == TextEntry(b.audience)
  {
    hide Legible;
    hide EntryOf;
    hide ToWire;
    hide Fits;
    hide OptText;
    hide OptBlob;
    TextAt(b.Model(), BINDING, 0, "mode", b.mode);
    OptTextAt(b.Model(), BINDING, 1, "entityAnchorReference", b.anchor);
    OptTextAt(b.Model(), BINDING, 2, "bindingID", b.bindingID);
    OptTextAt(b.Model(), BINDING, 3, "audience", b.audience);
  }

  lemma RequestSaysFirst(r: Request)
    requires Legible(r.Model(), REQUEST)
    ensures EntryOf(r.Model(), REQUEST, "version") == Some(Int(r.version))
    ensures EntryOf(r.Model(), REQUEST, "requestID") == Some(Str(r.requestID))
    ensures EntryOf(r.Model(), REQUEST, "purpose") == Some(Str(r.purpose))
    ensures EntryOf(r.Model(), REQUEST, "entityBinding") == (if r.binding.Some? then AsEntry(ToWire(r.binding.value.Model(), BINDING)) else None)
  {
    hide Legible;
    hide EntryOf;
    hide ToWire;
    hide Fits;
    hide Binding.Model;
    hide Descriptor.Model;
    hide RequestProof.Model;
    hide OptText;
    hide OptBlob;
    IntAt(r.Model(), REQUEST, 0, "version", r.version);
    TextAt(r.Model(), REQUEST, 1, "requestID", r.requestID);
    TextAt(r.Model(), REQUEST, 2, "purpose", r.purpose);
    PtrAt(r.Model(), REQUEST, 3, "entityBinding", if r.binding.Some? then Some(r.binding.value.Model()) else None, BINDING);
  }

  lemma RequestSaysSecond(r: Request)
    requires Legible(r.Model(), REQUEST)
    ensures EntryOf(r.Model(), REQUEST, "newIdentity") == AsEntry(ToWire(r.newIdentity.Model(), DESCRIPTOR))
    ensures EntryOf(r.Model(), REQUEST, "requestedDomains") == Some(List(TextItems(r.requested.domains)))
    ensures EntryOf(r.Model(), REQUEST, "requestedIdentityContexts") == Some(List(TextItems(r.requested.contexts)))
    ensures EntryOf(r.Model(), REQUEST, "requestedScopes") == Some(List(TextItems(r.requested.scopes)))
  {
    hide Legible;
    hide EntryOf;
    hide ToWire;
    hide Fits;
    hide Binding.Model;
    hide Descriptor.Model;
    hide RequestProof.Model;
    hide OptText;
    hide OptBlob;
    StructAt(r.Model(), REQUEST, 4, "newIdentity", r.newIdentity.Model(), DESCRIPTOR);
    TextsAt(r.Model(), REQUEST, 5, "requestedDomains", r.requested.domains);
    TextsAt(r.Model(), REQUEST, 6, "requestedIdentityContexts", r.requested.contexts);
    TextsAt(r.Model(), REQUEST, 7, "requestedScopes", r.requested.scopes);
  }

  lemma RequestSaysThird(r: Request)
    requires Legible(r.Model(), REQUEST)
    ensures EntryOf(r.Model(), REQUEST, "audience") == Some(Str(r.audience))
    ensures EntryOf(r.Model(), REQUEST, "origin") == Some(Str(r.origin))
    ensures EntryOf(r.Model(), REQUEST, "createdAt") == Some(Str(r.createdAt))
    ensures EntryOf(r.Model(), REQUEST, "expiresAt") == Some(Str(r.expiresAt))
  {
    hide Legible;
    hide EntryOf;
    hide ToWire;
    hide Fits;
    hide Binding.Model;
    hide Descriptor.Model;
    hide RequestProof.Model;
    hide OptText;
    hide OptBlob;
    TextAt(r.Model(), REQUEST, 8, "audience", r.audience);
    TextAt(r.Model(), REQUEST, 9, "origin", r.origin);
    TextAt(r.Model(), REQUEST, 10, "createdAt", r.createdAt);
    TextAt(r.Model(), REQUEST, 11, "expiresAt", r.expiresAt);
  }

  lemma RequestSaysFourth(r: Request)
    requires Legible(r.Model(), REQUEST)
    ensures EntryOf(r.Model(), REQUEST, "nonce") == Some(Str(Base64.Encode(r.nonce)))
    ensures EntryOf(r.Model(), REQUEST, "platform") == TextEntry(r.platform)
    ensures EntryOf(r.Model(), REQUEST, "deviceLabel") == TextEntry(r.deviceLabel)
    ensures EntryOf(r.Model(), REQUEST, "proof") == (if r.proof.Some? then AsEntry(ToWire(r.proof.value.Model(), REQUEST_PROOF)) else None)
  {
    hide Legible;
    hide EntryOf;
    hide ToWire;
    hide Fits;
    hide Binding.Model;
    hide Descriptor.Model;
    hide RequestProof.Model;
    hide OptText;
    hide OptBlob;
    BytesAt(r.Model(), REQUEST, 12, "nonce", r.nonce);
    OptTextAt(r.Model(), REQUEST, 13, "platform", r.platform);
    OptTextAt(r.Model(), REQUEST, 14, "deviceLabel", r.deviceLabel);
    PtrAt(r.Model(), REQUEST, 15, "proof", if r.proof.Some? then Some(r.proof.value.Model()) else None, REQUEST_PROOF);
  }

  lemma ApprovalSaysFirst(a: Approval)
    requires Legible(a.Model(), APPROVAL)
    ensures EntryOf(a.Model(), APPROVAL, "version") == Some(Int(a.version))
    ensures EntryOf(a.Model(), APPROVAL, "approvalID") == Some(Str(a.approvalID))
    ensures EntryOf(a.Model(), APPROVAL, "purpose") == Some(Str(a.purpose))
  {
    hide Legible;
    hide EntryOf;
    hide ToWire;
    hide Fits;
    hide ApprovalProof.Model;
    hide Binding.Model;
    hide Descriptor.Model;
    hide Evidence.Model;
    hide OptText;
    hide OptBlob;
    IntAt(a.Model(), APPROVAL, 0, "version", a.version);
    TextAt(a.Model(), APPROVAL, 1, "approvalID", a.approvalID);
    TextAt(a.Model(), APPROVAL, 2, "purpose", a.purpose);
  }

  lemma ApprovalSaysSecond(a: Approval)
    requires Legible(a.Model(), APPROVAL)
    ensures EntryOf(a.Model(), APPROVAL, "requestHash") == Some(Str(Base64.Encode(a.requestHash)))
    ensures EntryOf(a.Model(), APPROVAL, "entityBinding") == AsEntry(ToWire(a.binding.Model(), BINDING))
    ensures EntryOf(a.Model(), APPROVAL, "subjectIdentity") == AsEntry(ToWire(a.subject.Model(), DESCRIPTOR))
  {
    hide Legible;
    hide EntryOf;
    hide ToWire;
    hide Fits;
    hide ApprovalProof.Model;
    hide Binding.Model;
    hide Descriptor.Model;
    hide Evidence.Model;
    hide OptText;
    hide OptBlob;
    BytesAt(a.Model(), APPROVAL, 3, "requestHash", a.requestHash);
    StructAt(a.Model(), APPROVAL, 4, "entityBinding", a.binding.Model(), BINDING);
    StructAt(a.Model(), APPROVAL, 5, "subjectIdentity", a.subject.Model(), DESCRIPTOR);
  }

  lemma ApprovalSaysThird(a: Approval)
    requires Legible(a.Model(), APPROVAL)
    ensures EntryOf(a.Model(), APPROVAL, "approvedDomains") == Some(List(TextItems(a.approved.domains)))
    ensures EntryOf(a.Model(), APPROVAL, "approvedIdentityContexts") == Some(List(TextItems(a.approved.contexts)))
    ensures EntryOf(a.Model(), APPROVAL, "approvedScopes") == Some(List(TextItems(a.approved.scopes)))
  {
    hide Legible;
    hide EntryOf;
    hide ToWire;
    hide Fits;
    hide ApprovalProof.Model;
    hide Binding.Model;
    hide Descriptor.Model;
    hide Evidence.Model;
    hide OptText;
    hide OptBlob;
    TextsAt(a.Model(), APPROVAL, 6, "approvedDomains", a.approved.domains);
    TextsAt(a.Model(), APPROVAL, 7, "approvedIdentityContexts", a.approved.contexts);
    TextsAt(a.Model(), APPROVAL, 8, "approvedScopes", a.approved.scopes);
  }

  lemma ApprovalSaysFourth(a: Approval)
    requires Legible(a.Model(), APPROVAL)
    ensures EntryOf(a.Model(), APPROVAL, "issuerIdentityUUID") == Some(Str(a.issuerUUID))
    ensures EntryOf(a.Model(), APPROVAL, "issuerType") == Some(Str(a.issuerType))
    ensures EntryOf(a.Model(), APPROVAL, "audience") == Some(Str(a.audience))
  {
    hide Legible;
    hide EntryOf;
    hide ToWire;
    hide Fits;
    hide ApprovalProof.Model;
    hide Binding.Model;
    hide Descriptor.Model;
    hide Evidence.Model;
    hide OptText;
    hide OptBlob;
    TextAt(a.Model(), APPROVAL, 9, "issuerIdentityUUID", a.issuerUUID);
    TextAt(a.Model(), APPROVAL, 10, "issuerType", a.issuerType);
    TextAt(a.Model(), APPROVAL, 11, "audience", a.audience);
  }

  lemma ApprovalSaysFifth(a: Approval)
    requires Legible(a.Model(), APPROVAL)
    ensures EntryOf(a.Model(), APPROVAL, "origin") == Some(Str(a.origin))
    ensures EntryOf(a.Model(), APPROVAL, "createdAt") == Some(Str(a.createdAt))
    ensures EntryOf(a.Model(), APPROVAL, "expiresAt") == Some(Str(a.expiresAt))
  {
    hide Legible;
    hide EntryOf;
    hide ToWire;
    hide Fits;
    hide ApprovalProof.Model;
    hide Binding.Model;
    hide Descriptor.Model;
    hide Evidence.Model;
    hide OptText;
    hide OptBlob;
    TextAt(a.Model(), APPROVAL, 12, "origin", a.origin);
    TextAt(a.Model(), APPROVAL, 13, "createdAt", a.createdAt);
    TextAt(a.Model(), APPROVAL, 14, "expiresAt", a.expiresAt);
  }

  lemma ApprovalSaysSixth(a: Approval)
    requires Legible(a.Model(), APPROVAL)
    ensures EntryOf(a.Model(), APPROVAL, "jti") == Some(Str(a.jti))
    ensures EntryOf(a.Model(), APPROVAL, "freshAuthRequired") == Some(Bool(a.freshAuthRequired))
    ensures EntryOf(a.Model(), APPROVAL, "freshAuthMethod") == TextEntry(a.freshAuthMethod)
  {
    hide Legible;
    hide EntryOf;
    hide ToWire;
    hide Fits;
    hide ApprovalProof.Model;
    hide Binding.Model;
    hide Descriptor.Model;
    hide Evidence.Model;
    hide OptText;
    hide OptBlob;
    TextAt(a.Model(), APPROVAL, 15, "jti", a.jti);
    FlagAt(a.Model(), APPROVAL, 16, "freshAuthRequired", a.freshAuthRequired);
    OptTextAt(a.Model(), APPROVAL, 17, "freshAuthMethod", a.freshAuthMethod);
  }

  lemma ApprovalSaysLast(a: Approval)
    requires Legible(a.Model(), APPROVAL)
    ensures EntryOf(a.Model(), APPROVAL, "freshAuthPerformedAt") == TextEntry(a.freshAuthPerformedAt)
    ensures EntryOf(a.Model(), APPROVAL, "freshAuthEvidence") == (if a.freshAuthEvidence.Some? then AsEntry(ToWire(a.freshAuthEvidence.value.Model(), EVIDENCE)) else None)
    ensures EntryOf(a.Model(), APPROVAL, "proof") == (if a.proof.Some? then AsEntry(ToWire(a.proof.value.Model(), APPROVAL_PROOF)) else None)
  {
    hide Legible;
    hide EntryOf;
    hide ToWire;
    hide Fits;
    hide ApprovalProof.Model;
    hide Binding.Model;
    hide Descriptor.Model;
    hide Evidence.Model;
    hide OptText;
    hide OptBlob;
    OptTextAt(a.Model(), APPROVAL, 18, "freshAuthPerformedAt", a.freshAuthPerformedAt);
    PtrAt(a.Model(), APPROVAL, 19, "freshAuthEvidence", if a.freshAuthEvidence.Some? then Some(a.freshAuthEvidence.value.Model()) else None, EVIDENCE);
    PtrAt(a.Model(), APPROVAL, 20, "proof", if a.proof.Some? then Some(a.proof.value.Model()) else None, APPROVAL_PROOF);
  }

  lemma ClaimSaysFirst(c: Claim)
    requires Legible(c.Model(), CLAIM)
    ensures EntryOf(c.Model(), CLAIM, "@context") == TextsEntry(c.context)
    ensures EntryOf(c.Model(), CLAIM, "id") == Some(Str(c.id))
    ensures EntryOf(c.Model(), CLAIM, "type") == Some(List(TextItems(c.types)))
    ensures EntryOf(c.Model(), CLAIM, "issuer") == Some(c.issuer)
  {
    hide Legible;
    hide EntryOf;
    hide ToWire;
    hide Fits;
    hide VCProof.Model;
    hide OptText;
    hide OptBlob;
    OptTextsAt(c.Model(), CLAIM, 0, "@context", c.context);
    TextAt(c.Model(), CLAIM, 1, "id", c.id);
    TextsAt(c.Model(), CLAIM, 2, "type", c.types);
    AnyAt(c.Model(), CLAIM, 3, "issuer", c.issuer);
  }

  lemma ClaimSaysSecond(c: Claim)
    requires Legible(c.Model(), CLAIM)
    ensures EntryOf(c.Model(), CLAIM, "issuanceDate") == Some(Str(c.issuanceDate))
    ensures EntryOf(c.Model(), CLAIM, "credentialSubject") == Some(c.subject)
    ensures EntryOf(c.Model(), CLAIM, "proof") == AsEntry(ToWire(c.proof.Model(), VC_PROOF))
  {
    hide Legible;
    hide EntryOf;
    hide ToWire;
    hide Fits;
    hide VCProof.Model;
    hide OptText;
    hide OptBlob;
    TextAt(c.Model(), CLAIM, 4, "issuanceDate", c.issuanceDate);
    AnyAt(c.Model(), CLAIM, 5, "credentialSubject", c.subject);
    StructAt(c.Model(), CLAIM, 6, "proof", c.proof.Model(), VC_PROOF);
  }

  lemma PresentationSaysFirst(p: Presentation)
    requires Legible(p.Model(), PRESENTATION)
    ensures EntryOf(p.Model(), PRESENTATION, "@context") == TextsEntry(p.context)
    ensures EntryOf(p.Model(), PRESENTATION, "id") == Some(Str(p.id))
    ensures EntryOf(p.Model(), PRESENTATION, "type") == Some(List(TextItems(p.types)))
    ensures EntryOf(p.Model(), PRESENTATION, "holder") == Some(p.holder)
  {
    hide Legible;
    hide EntryOf;
    hide ToWire;
    hide Fits;
    hide Descriptor.Model;
    hide OptText;
    hide OptBlob;
    hide ClaimModels;
    OptTextsAt(p.Model(), PRESENTATION, 0, "@context", p.context);
    TextAt(p.Model(), PRESENTATION, 1, "id", p.id);
    TextsAt(p.Model(), PRESENTATION, 2, "type", p.types);
    AnyAt(p.Model(), PRESENTATION, 3, "holder", p.holder);
  }

  lemma PresentationSaysSecond(p: Presentation)
    requires Legible(p.Model(), PRESENTATION)
    ensures EntryOf(p.Model(), PRESENTATION, "challenge") == BytesEntry(p.challenge)
    ensures EntryOf(p.Model(), PRESENTATION, "domain") == TextEntry(p.domain)
    ensures EntryOf(p.Model(), PRESENTATION, "holderBinding") == (if p.binding.Some? then AsEntry(ToWire(p.binding.value.Model(), DESCRIPTOR)) else None)
  {
    hide Legible;
    hide EntryOf;
    hide ToWire;
    hide Fits;
    hide Descriptor.Model;
    hide OptText;
    hide OptBlob;
    hide ClaimModels;
    OptBytesAt(p.Model(), PRESENTATION, 4, "challenge", p.challenge);
    OptTextAt(p.Model(), PRESENTATION, 5, "domain", p.domain);
    PtrAt(p.Model(), PRESENTATION, 6, "holderBinding", if p.binding.Some? then Some(p.binding.value.Model()) else None, DESCRIPTOR);
  }

  lemma SubjectSaysFirst(s: Subject)
    requires Legible(s.Model(), SUBJECT)
    ensures EntryOf(s.Model(), SUBJECT, "id") == Some(Str(s.id))
    ensures EntryOf(s.Model(), SUBJECT, "linkType") == Some(Str(s.linkType))
    ensures EntryOf(s.Model(), SUBJECT, "entityBinding") == AsEntry(ToWire(s.binding.Model(), BINDING))
    ensures EntryOf(s.Model(), SUBJECT, "linkedIdentity") == AsEntry(ToWire(s.linked.Model(), DESCRIPTOR))
  {
    hide Legible;
    hide EntryOf;
    hide ToWire;
    hide Fits;
    hide Binding.Model;
    hide Descriptor.Model;
    hide OptText;
    hide OptBlob;
    TextAt(s.Model(), SUBJECT, 0, "id", s.id);
    TextAt(s.Model(), SUBJECT, 1, "linkType", s.linkType);
    StructAt(s.Model(), SUBJECT, 2, "entityBinding", s.binding.Model(), BINDING);
    StructAt(s.Model(), SUBJECT, 3, "linkedIdentity", s.linked.Model(), DESCRIPTOR);
  }

  lemma SubjectSaysSecond(s: Subject)
    requires Legible(s.Model(), SUBJECT)
    ensures EntryOf(s.Model(), SUBJECT, "approvedDomains") == Some(List(TextItems(s.approved.domains)))
    ensures EntryOf(s.Model(), SUBJECT, "approvedIdentityContexts") == Some(List(TextItems(s.approved.contexts)))
    ensures EntryOf(s.Model(), SUBJECT, "approvedScopes") == Some(List(TextItems(s.approved.scopes)))
    ensures EntryOf(s.Model(), SUBJECT, "enrollmentRequestHash") == Some(Str(Base64.Encode(s.requestHash)))
  {
    hide Legible;
    hide EntryOf;
    hide ToWire;
    hide Fits;
    hide Binding.Model;
    hide Descriptor.Model;
    hide OptText;
    hide OptBlob;
    TextsAt(s.Model(), SUBJECT, 4, "approvedDomains", s.approved.domains);
    TextsAt(s.Model(), SUBJECT, 5, "approvedIdentityContexts", s.approved.contexts);
    TextsAt(s.Model(), SUBJECT, 6, "approvedScopes", s.approved.scopes);
    BytesAt(s.Model(), SUBJECT, 7, "enrollmentRequestHash", s.requestHash);
  }

  lemma SubjectSaysThird(s: Subject)
    requires Legible(s.Model(), SUBJECT)
    ensures EntryOf(s.Model(), SUBJECT, "assuranceSource") == Some(Str(s.assuranceSource))
    ensures EntryOf(s.Model(), SUBJECT, "assuranceLevel") == Some(Str(s.assuranceLevel))
    ensures EntryOf(s.Model(), SUBJECT, "validUntil") == Some(Str(s.validUntil))
    ensures EntryOf(s.Model(), SUBJECT, "revocationReference") == TextEntry(s.revocationReference)
  {
    hide Legible;
    hide EntryOf;
    hide ToWire;
    hide Fits;
    hide Binding.Model;
    hide Descriptor.Model;
    hide OptText;
    hide OptBlob;
    TextAt(s.Model(), SUBJECT, 8, "assuranceSource", s.assuranceSource);
    TextAt(s.Model(), SUBJECT, 9, "assuranceLevel", s.assuranceLevel);
    TextAt(s.Model(), SUBJECT, 10, "validUntil", s.validUntil);
    OptTextAt(s.Model(), SUBJECT, 11, "revocationReference", s.revocationReference);
  }

  lemma RecordSaysFirst(r: Record)
    requires Legible(Anchor.RecordModel(r), Anchor.RECORD)
    ensures EntryOf(Anchor.RecordModel(r), Anchor.RECORD, "linkID") == Some(Str(r.linkID))
    ensures EntryOf(Anchor.RecordModel(r), Anchor.RECORD, "entityBinding") == AsEntry(ToWire(r.binding.Model(), BINDING))
    ensures EntryOf(Anchor.RecordModel(r), Anchor.RECORD, "linkedIdentity") == AsEntry(ToWire(r.linked.Model(), DESCRIPTOR))
    ensures EntryOf(Anchor.RecordModel(r), Anchor.RECORD, "approvedDomains") == Some(List(TextItems(r.approved.domains)))
  {
    hide Legible;
    hide EntryOf;
    hide ToWire;
    hide Fits;
    hide Binding.Model;
    hide Descriptor.Model;
    hide OptText;
    hide OptBlob;
    TextAt(Anchor.RecordModel(r), Anchor.RECORD, 0, "linkID", r.linkID);
    StructAt(Anchor.RecordModel(r), Anchor.RECORD, 1, "entityBinding", r.binding.Model(), BINDING);
    StructAt(Anchor.RecordModel(r), Anchor.RECORD, 2, "linkedIdentity", r.linked.Model(), DESCRIPTOR);
    TextsAt(Anchor.RecordModel(r), Anchor.RECORD, 3, "approvedDomains", r.approved.domains);
  }

  lemma RecordSaysSecond(r: Record)
    requires Legible(Anchor.RecordModel(r), Anchor.RECORD)
    ensures EntryOf(Anchor.RecordModel(r), Anchor.RECORD, "approvedIdentityContexts") == Some(List(TextItems(r.approved.contexts)))
    ensures EntryOf(Anchor.RecordModel(r), Anchor.RECORD, "approvedScopes") == Some(List(TextItems(r.approved.scopes)))
    ensures EntryOf(Anchor.RecordModel(r), Anchor.RECORD, "issuerIdentityUUID") == Some(Str(r.issuerUUID))
    ensures EntryOf(Anchor.RecordModel(r), Anchor.RECORD, "issuerType") == Some(Str(r.issuerType))
  {
    hide Legible;
    hide EntryOf;
    hide ToWire;
    hide Fits;
    hide Binding.Model;
    hide Descriptor.Model;
    hide OptText;
    hide OptBlob;
    TextsAt(Anchor.RecordModel(r), Anchor.RECORD, 4, "approvedIdentityContexts", r.approved.contexts);
    TextsAt(Anchor.RecordModel(r), Anchor.RECORD, 5, "approvedScopes", r.approved.scopes);
    TextAt(Anchor.RecordModel(r), Anchor.RECORD, 6, "issuerIdentityUUID", r.issuerUUID);
    TextAt(Anchor.RecordModel(r), Anchor.RECORD, 7, "issuerType", r.issuerType);
  }

  lemma RecordSaysThird(r: Record)
    requires Legible(Anchor.RecordModel(r), Anchor.RECORD)
    ensures EntryOf(Anchor.RecordModel(r), Anchor.RECORD, "status") == Some(Str(r.status))
    ensures EntryOf(Anchor.RecordModel(r), Anchor.RECORD, "linkedAt") == Some(Str(r.linkedAt))
    ensures EntryOf(Anchor.RecordModel(r), Anchor.RECORD, "lastUsedAt") == TextEntry(r.lastUsedAt)
    ensures EntryOf(Anchor.RecordModel(r), Anchor.RECORD, "revokedAt") == TextEntry(r.revokedAt)
  {
    hide Legible;
    hide EntryOf;
    hide ToWire;
    hide Fits;
    hide Binding.Model;
    hide Descriptor.Model;
    hide OptText;
    hide OptBlob;
    TextAt(Anchor.RecordModel(r), Anchor.RECORD, 8, "status", r.status);
    TextAt(Anchor.RecordModel(r), Anchor.RECORD, 9, "linkedAt", r.linkedAt);
    OptTextAt(Anchor.RecordModel(r), Anchor.RECORD, 10, "lastUsedAt", r.lastUsedAt);
    OptTextAt(Anchor.RecordModel(r), Anchor.RECORD, 11, "revokedAt", r.revokedAt);
  }

  lemma RecordSaysFourth(r: Record)
    requires Legible(Anchor.RecordModel(r), Anchor.RECORD)
    ensures EntryOf(Anchor.RecordModel(r), Anchor.RECORD, "revocationReference") == TextEntry(r.revocationReference)
  {
    hide Legible;
    hide EntryOf;
    hide ToWire;
    hide Fits;
    hide Binding.Model;
    hide Descriptor.Model;
    hide OptText;
    hide OptBlob;
    OptTextAt(Anchor.RecordModel(r), Anchor.RECORD, 12, "revocationReference", r.revocationReference);
  }

  // ---- All of them can be read off ----

  lemma CompleteLegible(m: Model, s: Schema)
    requires Fits(m, s) && WellMade(s) && NeverLacks(s)
    ensures Legible(m, s)
  {
    NothingLacking(m, s);
    RoundTripModel(m, s);
    hide NeverLacks;
    hide ToWire;
    hide Fits;
  }

  lemma PartsLegible(d: Descriptor, b: Binding)
    ensures Legible(d.Model(), DESCRIPTOR) && Legible(b.Model(), BINDING)
  {
    PartsWellMade();
    EnrollmentNeverLacks();
    hide WellMade;
    hide NeverLacks;
    hide Legible;
    CompleteLegible(d.Model(), DESCRIPTOR);
    CompleteLegible(b.Model(), BINDING);
  }

  lemma RequestProofWellMade()
    ensures WellMade(REQUEST_PROOF) && NeverLacks(REQUEST_PROOF)
  {
  }

  lemma RequestKeysDiffer()
    ensures KeysDiffer(REQUEST.fields) && |REQUEST.fields| == 16
  {
  }

  lemma RequestFieldsWellMade()
    ensures forall i :: 0 <= i < |REQUEST.fields| ==> RuleFits(REQUEST.fields[i]) && KindWellMade(REQUEST.fields[i].kind)
  {
    PartsWellMade();
    RequestProofWellMade();
    hide WellMade;
  }

  lemma RequestLegible(r: Request)
    ensures Legible(r.Model(), REQUEST)
  {
    RequestFits(r);
    RequestKeysDiffer();
    RequestFieldsWellMade();
    RequestNeverLacks();
    hide WellMade;
    hide NeverLacks;
    hide KeysDiffer;
    hide RuleFits;
    hide KindWellMade;
    hide Request.Model;
    hide Legible;
    WellMadeFrom(REQUEST);
    CompleteLegible(r.Model(), REQUEST);
  }

  lemma RequestNeverLacks()
    ensures NeverLacks(REQUEST)
  {
    EnrollmentNeverLacks();
    RequestProofWellMade();
    hide WellMade;
    assert NeverLacks(REQUEST);
  }

  lemma ApprovalLegible(a: Approval)
    ensures Legible(a.Model(), APPROVAL)
  {
    ApprovalFits(a);
    ApprovalWellMade();
    ApprovalNeverLacks();
    hide WellMade;
    hide NeverLacks;
    hide Approval.Model;
    hide Legible;
    CompleteLegible(a.Model(), APPROVAL);
  }

  lemma ClaimLegible(c: Claim)
    ensures Legible(c.Model(), CLAIM)
  {
    ClaimWritten(c);
    ClaimKeysDiffer();
    hide ToWire;
    hide KeysDiffer;
    hide Claim.Model;
    hide ClaimBytes;
  }

  lemma PresentationLegible(p: Presentation)
    ensures Legible(p.Model(), PRESENTATION)
  {
    PresentationFits(p);
    PresentationWritten(p);
    PresentationKeysDiffer();
    hide ToWire;
    hide KeysDiffer;
    hide Presentation.Model;
    hide Fits;
  }

  lemma RecordLegible(r: Record)
    ensures Legible(Anchor.RecordModel(r), Anchor.RECORD)
  {
    Anchor.RecordStores(r);
    Anchor.RecordKeysApart();
    Anchor.RecordLateKeysApart();
    hide ToWire;
    hide Anchor.RecordModel;
    hide Fits;
  }

  lemma SubjectLegible(s: Subject)
    ensures Legible(s.Model(), SUBJECT)
  {
    SubjectRead(s);
    SubjectKeysDiffer();
    hide ToWire;
    hide KeysDiffer;
    hide Subject.Model;
  }
}
