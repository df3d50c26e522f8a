/** What each end of the handshake goes on, field by field, and where it lets the other in. */
module Admitting {
  import opened Prelude
  import opened Text
  import opened JsonCodec
  import opened ChannelCodec
  import opened Channel
  import Base64

  // ---- Frames, as the bytes they are ----

  /** The one frame that carries this body under this name. */
  predicate Carried(frame: Bytes, name: string, body: map<string, Json>) {
    |frame| <= 16384 && frame == ChannelEnvelope(name, body)
  }

  lemma OpensTo(frame: Bytes, name: string, body: map<string, Json>)
    ensures OpenChannelEnvelope(frame) == Ok((name, body)) <==> Carried(frame, name, body) && IsAuthCommand(name)
  {
    hide OpenChannelEnvelope;
    hide ChannelEnvelope;
    OpenExact(frame, name, body);
  }

  /** An Ed25519 signature of this message under this identity's key. */
  predicate Signed(c: Crypto, signature: Bytes, message: Bytes, identity: PublicIdentity) {
    identity.algorithm == "EdDSA" && identity.curve == "Curve25519" && |identity.publicKey| == 32
    && |signature| == 64 && c.verify(identity.publicKey, message, signature)
  }

  // ---- The server ----

  /** A proof of challenge t in this session, by t's key, that passes the recheck in time. */
  predicate Proves(c: Crypto, s: Server, t: Transcript, body: map<string, Json>, i: ServerInputs) {
    && body.Keys == {"sessionID", "generation", "signature"}
    && TextOf(body["sessionID"]) == t.sessionID && TextOf(body["generation"]) == s.generation
    && body["signature"].Str? && Base64.Decode(body["signature"].s).Some?
    && Signed(c, Base64.Decode(body["signature"].s).value, s.data, t.identity)
    && i.recheckPasses
    && i.monoAfter < s.deadline
    && i.wall < t.issuedAt + 30_000 && i.wallAfter < t.expiresAt
  }

  ghost predicate ProofCarried(c: Crypto, s: Server, t: Transcript, frame: Bytes, i: ServerInputs) {
    exists body :: Carried(frame, "channelAuthProof", body) && Proves(c, s, t, body, i)
  }

  /** The server admits exactly on a proof of its one pending challenge, both times inside its deadline. */
  lemma AdmitsIff(c: Crypto, s: Server, frame: Bytes, i: ServerInputs)
    ensures ServerReceive(c, s, frame, i).0.phase == Authenticated <==>
              && s.phase == ChallengeIssued && i.mono < s.deadline && s.pending.Some?
              && ProofCarried(c, s, s.pending.value, frame, i)
  {
    hide OpenChannelEnvelope;
    hide Carried;
    hide ServerReceive;
    hide Proves;
    forall body
      ensures OpenChannelEnvelope(frame) == Ok((PROOF, body)) <==> Carried(frame, "channelAuthProof", body)
    {
      OpensTo(frame, PROOF, body);
    }
    match OpenChannelEnvelope(frame)
    case Ok((name, body)) => AdmitsOpened(c, s, frame, i, name, body);
    case Err(_) => NothingOpened(c, s, frame, i);
  }

  lemma NothingOpened(c: Crypto, s: Server, frame: Bytes, i: ServerInputs)
    requires OpenChannelEnvelope(frame).Err?
    ensures ServerReceive(c, s, frame, i).0.phase == Closed
  {
    hide OpenChannelEnvelope;
  }

  lemma AdmitsOpened(c: Crypto, s: Server, frame: Bytes, i: ServerInputs, name: string, body: map<string, Json>)
    requires OpenChannelEnvelope(frame) == Ok((name, body))
    ensures ServerReceive(c, s, frame, i).0.phase == Authenticated <==>
              && name == "channelAuthProof" && s.phase == ChallengeIssued && i.mono < s.deadline && s.pending.Some?
              && Proves(c, s, s.pending.value, body, i)
  {
    hide OpenChannelEnvelope;
    hide ChannelEnvelope;
    hide ChannelSigningData;
    hide ReadHello;
    hide Proves;
    if s.pending.Some? {
      VerdictIff(c, s, s.pending.value, body, i);
    }
    hide ProofVerdict;
  }

  lemma VerdictIff(c: Crypto, s: Server, t: Transcript, body: map<string, Json>, i: ServerInputs)
    ensures ProofVerdict(c, s, t, body, i) == "" <==> Proves(c, s, t, body, i)
  {
  }

  /** An admission is for the pending challenge's identity, endpoint, session, digest and expiry, and is acknowledged. */
  lemma AdmittedFor(c: Crypto, s: Server, frame: Bytes, i: ServerInputs)
    requires ServerReceive(c, s, frame, i).0.phase == Authenticated
    ensures s.pending.Some?
    ensures var t, (next, reply) := s.pending.value, ServerReceive(c, s, frame, i);
            && next.pending.None? && next.data == [] && next.admitted.Some?
            && var a := next.admitted.value;
               && a.identity == t.identity && a.endpoint == s.endpoint && a.sessionID == t.sessionID
               && a.generation == s.generation && a.expiresAt == t.expiresAt
               && a.digest == c.hash(ChannelEncode(t.ToJson()))
               && reply == Ok(ChannelEnvelope("channelAuthAccepted", map[
                    "sessionID" := Str(t.sessionID), "generation" := Str(t.generation), "transcriptDigest" := Str(a.digest)]))
  {
    hide OpenChannelEnvelope;
    hide ChannelEnvelope;
    hide ChannelSigningData;
    hide ReadHello;
    hide ProofVerdict;
    hide ChannelEncode;
    hide Transcript.ToJson;
  }

  /** A Base64 text and the octets it stands for. */
  predicate Octets(v: Json, d: Bytes) {
    v.Str? && Base64.Decode(v.s) == Some(d)
  }

  predicate IdentityGiven(v: Json, identity: PublicIdentity) {
    && v.Obj? && v.fields.Keys == {"uuid", "algorithm", "curve", "publicKey"}
    && v.fields["uuid"] == Str(identity.uuid) && v.fields["algorithm"] == Str(identity.algorithm)
    && v.fields["curve"] == Str(identity.curve) && Octets(v.fields["publicKey"], identity.publicKey)
  }

  predicate Usable(identity: PublicIdentity) {
    identity.uuid != "" && |Utf8(identity.uuid)| <= 512
    && identity.algorithm == "EdDSA" && identity.curve == "Curve25519" && |identity.publicKey| == 32
  }

  /** A hello of this identity with this nonce. */
  predicate Greets(body: map<string, Json>, identity: PublicIdentity, clientNonce: Bytes) {
    && body.Keys == {"profile", "identity", "clientNonce"} && body["profile"] == Str("org.haven.bridge-channel.v1")
    && IdentityGiven(body["identity"], identity) && Usable(identity)
    && Octets(body["clientNonce"], clientNonce) && |clientNonce| == 32
  }

  lemma IdentityRead(v: Json, identity: PublicIdentity)
    ensures IdentityFromJson(v) == Ok(identity) <==> IdentityGiven(v, identity) && Usable(identity)
  {
  }

  lemma HelloRead(body: map<string, Json>, identity: PublicIdentity, clientNonce: Bytes)
    ensures ReadHello(body) == Ok((identity, clientNonce)) <==> Greets(body, identity, clientNonce)
  {
    hide IdentityFromJson;
    hide IdentityGiven;
    hide Usable;
    if "identity" in body {
      IdentityRead(body["identity"], identity);
    }
  }

  /** The challenge a server makes out to a greeting: its own endpoint and generation, fresh nonce and session, for five minutes. */
  predicate MadeOut(t: Transcript, s: Server, identity: PublicIdentity, clientNonce: Bytes, i: ServerInputs) {
    && t.profile == "org.haven.bridge-channel.v1" && t.direction == "client-to-server"
    && t.endpoint == s.endpoint && t.generation == s.generation && t.identity == identity && t.clientNonce == clientNonce
    && t.serverNonce == i.serverNonce && t.sessionID == i.sessionID
    && t.issuedAt == i.wall && t.expiresAt == i.wall + 300_000
  }

  ghost predicate Challenges(s: Server, frame: Bytes, i: ServerInputs, t: Transcript) {
    exists body :: Carried(frame, "channelAuthHello", body) && Makes(s, body, i, t)
  }

  /** The first hello in time, and nothing else, is answered with a challenge, which is then the pending one. */
  lemma ChallengesIff(c: Crypto, s: Server, frame: Bytes, i: ServerInputs)
    ensures var (next, reply) := ServerReceive(c, s, frame, i);
            && (next.phase == ChallengeIssued <==>
                  && s.phase == Unauthenticated && i.mono < s.deadline
                  && exists t :: Challenges(s, frame, i, t) && ChannelSigningData(c, t).Ok?)
            && (next.phase == ChallengeIssued ==>
                  && next.pending.Some? && Challenges(s, frame, i, next.pending.value)
                  && ChannelSigningData(c, next.pending.value) == Ok(next.data) && next.admitted == s.admitted
                  && reply == Ok(ChannelEnvelope("channelAuthChallenge", map[
                       "transcript" := next.pending.value.ToJson(), "signingData" := Str(Base64.Encode(next.data))])))
  {
    hide OpenChannelEnvelope;
    hide Carried;
    hide ServerReceive;
    hide Makes;
    hide ChannelSigningData;
    forall body
      ensures OpenChannelEnvelope(frame) == Ok((HELLO, body)) <==> Carried(frame, "channelAuthHello", body)
    {
      OpensTo(frame, HELLO, body);
    }
    match OpenChannelEnvelope(frame)
    case Ok((name, body)) => ChallengesOpened(c, s, frame, i, name, body);
    case Err(_) => NothingOpened(c, s, frame, i);
  }

  ghost predicate Makes(s: Server, body: map<string, Json>, i: ServerInputs, t: Transcript) {
    exists identity, clientNonce :: Greets(body, identity, clientNonce) && MadeOut(t, s, identity, clientNonce, i)
  }

  lemma ChallengesOpened(c: Crypto, s: Server, frame: Bytes, i: ServerInputs, name: string, body: map<string, Json>)
    requires OpenChannelEnvelope(frame) == Ok((name, body))
    ensures var (next, reply) := ServerReceive(c, s, frame, i);
            && (next.phase == ChallengeIssued <==>
                  && s.phase == Unauthenticated && i.mono < s.deadline && name == "channelAuthHello"
                  && exists t :: Makes(s, body, i, t) && ChannelSigningData(c, t).Ok?)
            && (next.phase == ChallengeIssued ==>
                  && next.pending.Some? && Makes(s, body, i, next.pending.value)
                  && ChannelSigningData(c, next.pending.value) == Ok(next.data) && next.admitted == s.admitted
                  && reply == Ok(ChannelEnvelope("channelAuthChallenge", map[
                       "transcript" := next.pending.value.ToJson(), "signingData" := Str(Base64.Encode(next.data))])))
  {
    hide OpenChannelEnvelope;
    hide ChannelEnvelope;
    hide ChannelSigningData;
    hide ProofVerdict;
    hide OnHello;
    hide Makes;
    hide Transcript.ToJson;
    HelloMade(c, s, body, i);
  }

  lemma HelloMade(c: Crypto, s: Server, body: map<string, Json>, i: ServerInputs)
    ensures var (next, reply) := OnHello(c, s, body, i);
            && (next.phase == ChallengeIssued <==> exists t :: Makes(s, body, i, t) && ChannelSigningData(c, t).Ok?)
            && (next.phase == ChallengeIssued ==>
                  && next.pending.Some? && Makes(s, body, i, next.pending.value)
                  && ChannelSigningData(c, next.pending.value) == Ok(next.data) && next.admitted == s.admitted
                  && reply == Ok(ChannelEnvelope("channelAuthChallenge", map[
                       "transcript" := next.pending.value.ToJson(), "signingData" := Str(Base64.Encode(next.data))])))
  {
    hide ChannelEnvelope;
    hide ChannelSigningData;
    hide Transcript.ToJson;
    hide ReadHello;
    hide Greets;
    forall identity, clientNonce
      ensures ReadHello(body) == Ok((identity, clientNonce)) <==> Greets(body, identity, clientNonce)
    {
      HelloRead(body, identity, clientNonce);
    }
    forall t, identity, clientNonce | Greets(body, identity, clientNonce) && MadeOut(t, s, identity, clientNonce, i)
      ensures TranscriptFor(s, identity, clientNonce, i) == Some(t)
    {
    }
    match ReadHello(body)
    case Ok((identity, clientNonce)) =>
      if TranscriptFor(s, identity, clientNonce, i).Some? {
        assert MadeOut(TranscriptFor(s, identity, clientNonce, i).value, s, identity, clientNonce, i);
      }
    case Err(_) =>
  }

  // ---- The client ----

  predicate EndpointGiven(v: Json, e: Endpoint) {
    && v.Obj? && v.fields.Keys == {"origin", "route", "domain"}
    && v.fields["origin"] == Str(e.origin) && v.fields["route"] == Str(e.route) && v.fields["domain"] == Str(e.domain)
  }

  predicate TranscriptGiven(v: Json, t: Transcript) {
    && v.Obj?
    && v.fields.Keys == {"profile", "endpoint", "identity", "clientNonce", "serverNonce", "sessionID", "generation", "direction",
                         "issuedAtMilliseconds", "channelExpiresAtMilliseconds"}
    && var o := v.fields;
       && o["profile"] == Str(t.profile) && o["direction"] == Str(t.direction)
       && o["sessionID"] == Str(t.sessionID) && o["generation"] == Str(t.generation)
       && EndpointGiven(o["endpoint"], t.endpoint) && IdentityGiven(o["identity"], t.identity) && Usable(t.identity)
       && Octets(o["clientNonce"], t.clientNonce) && Octets(o["serverNonce"], t.serverNonce)
       && o["issuedAtMilliseconds"] == Int(t.issuedAt) && o["channelExpiresAtMilliseconds"] == Int(t.expiresAt)
  }

  lemma EndpointRead(v: Json, e: Endpoint)
    ensures EndpointFromJson(v) == Ok(e) <==> EndpointGiven(v, e)
  {
  }

  lemma TranscriptRead(v: Json, t: Transcript)
    ensures TranscriptFromJson(v) == Ok(t) <==> TranscriptGiven(v, t)
  {
    hide IdentityFromJson;
    hide EndpointFromJson;
    hide IdentityGiven;
    hide EndpointGiven;
    hide Usable;
    if v.Obj? && "identity" in v.fields && "endpoint" in v.fields {
      IdentityRead(v.fields["identity"], t.identity);
      EndpointRead(v.fields["endpoint"], t.endpoint);
    }
  }

  /** What a signing challenge must say for this identity to sign it now. */
  predicate Signable(ch: Challenge, identity: PublicIdentity, now: int) {
    && ch.typ == "org.haven.cellprotocol.identity-signing-challenge" && ch.version == 1 && ch.purpose == "identity-origin-proof"
    && ch.identityUUID == identity.uuid && ch.fingerprint.Some?
    && TrimSpace(ch.fingerprint.value) == identity.algorithm + ":" + identity.curve + ":" + Base64.Encode(identity.publicKey)
    && 32 <= |ch.nonce| <= 128
    && !IsBlank(ch.domain) && !IsBlank(ch.resource) && !IsBlank(ch.action) && !IsBlank(ch.audience)
    && |ch.domain| <= 512 && |ch.resource| <= 512 && |ch.action| <= 512 && |ch.audience| <= 512
    && ch.issuedAt <= ch.expiresAt <= ch.issuedAt + 60_000
    && ch.issuedAt <= now + 300_000 && now <= ch.expiresAt
  }

  /** The payload is taken exactly when it holds a challenge the identity may sign. */
  lemma SignableIff(data: Bytes, identity: PublicIdentity, now: int, ch: Challenge)
    ensures ValidateSigningChallenge(data, identity, now) == Ok(ch) <==>
              && |data| <= 8192 && DecodeJSON(data).Some? && ChallengeFromJson(DecodeJSON(data).value) == Some(ch)
              && Signable(ch, identity, now)
  {
    hide DecodeJSON;
    hide ChallengeFromJson;
    hide TrimSpace;
    var mark := identity.Fingerprint();
    assert mark != "";
    NoneTrims();
  }

  lemma NoneTrims()
    ensures TrimSpace("") == ""
  {
  }

  /** What the client is asked to sign for a transcript: its digest, for this endpoint, identity, nonce and half minute. */
  lemma AskedToSign(c: Crypto, t: Transcript)
    ensures ChannelSigningData(c, t).Ok? <==> t.issuedAt + 30_000 < INT64_LIMIT
    ensures ChannelSigningData(c, t).Ok? ==>
              ChannelSigningData(c, t) == Ok(CanonicalJSON(Challenge(
                "org.haven.cellprotocol.identity-signing-challenge", 1, "identity-origin-proof", t.identity.uuid,
                Some(t.identity.algorithm + ":" + t.identity.curve + ":" + Base64.Encode(t.identity.publicKey)),
                t.endpoint.domain, "org.haven.bridge-channel.v1:" + c.hash(ChannelEncode(t.ToJson())), "openBridgeChannel",
                t.endpoint.origin + t.endpoint.route, t.serverNonce, t.issuedAt, t.issuedAt + 30_000).ToJson(), ENCODER_STYLE))
  {
    hide CanonicalJSON;
    hide ChannelEncode;
    hide Transcript.ToJson;
    hide Challenge.ToJson;
    assert PROFILE + ":" == "org.haven.bridge-channel.v1:";
  }

  predicate Uuid(s: string) {
    && |s| == 36 && s[8] == '-' && s[13] == '-' && s[18] == '-' && s[23] == '-'
    && forall i :: 0 <= i < 36 && i != 8 && i != 13 && i != 18 && i != 23 ==> s[i] in "0123456789abcdefABCDEF"
  }

  lemma UuidIff(s: string)
    ensures IsUUID(s) <==> Uuid(s)
  {
    assert forall ch: char :: IsHexDigit(ch) <==> ch in "0123456789abcdefABCDEF";
  }

  /** The challenge is this client's own, made out within half a minute and good for five. */
  predicate Mine(k: Client, t: Transcript, now: int) {
    && t.profile == "org.haven.bridge-channel.v1" && t.direction == "client-to-server"
    && t.endpoint == k.endpoint && t.identity == k.identity && t.clientNonce == k.clientNonce
    && |t.serverNonce| == 32 && Uuid(t.sessionID) && Uuid(t.generation)
    && 0 < t.issuedAt < 9_000_000_000_000_000 && 0 < t.expiresAt < 9_000_000_000_000_000
    && t.issuedAt <= now + 5_000 && now < t.issuedAt + 30_000
    && now < t.expiresAt && t.expiresAt == t.issuedAt + 300_000
  }

  ghost predicate Offered(c: Crypto, k: Client, frame: Bytes, i: ClientInputs, t: Transcript, offered: Bytes) {
    && Mine(k, t, i.wall) && ChannelSigningData(c, t) == Ok(offered)
    && ValidateSigningChallenge(offered, k.identity, i.wall).Ok?
    && exists body :: Carried(frame, "channelAuthChallenge", body) && Holds(body, t, offered)
  }

  predicate Holds(body: map<string, Json>, t: Transcript, offered: Bytes) {
    body.Keys == {"transcript", "signingData"} && TranscriptGiven(body["transcript"], t) && Octets(body["signingData"], offered)
  }

  lemma ChallengeHeld(body: map<string, Json>, t: Transcript, offered: Bytes)
    ensures ReadChallenge(body) == Ok((t, offered)) <==> Holds(body, t, offered)
  {
    hide TranscriptFromJson;
    hide TranscriptGiven;
    if "transcript" in body {
      TranscriptRead(body["transcript"], t);
    }
  }

  /** The client offers for signing exactly the signing data of a challenge that is its own, once, in time. */
  lemma OffersIff(c: Crypto, k: Client, frame: Bytes, i: ClientInputs, t: Transcript, offered: Bytes)
    ensures var (next, r) := BeginChallenge(c, k, frame, i);
            && (r == Ok(offered) && next.transcript == Some(t) && next.phase == Signing <==>
                  k.phase == HelloSent && i.mono < k.deadline && Offered(c, k, frame, i, t, offered))
            && (r.Ok? ==> next == k.(phase := Signing, transcript := next.transcript, offered := Some(r.value)) && next.transcript.Some?)
  {
    hide OpenChannelEnvelope;
    hide Carried;
    hide BeginChallenge;
    hide Holds;
    hide Mine;
    hide ChannelSigningData;
    hide ValidateSigningChallenge;
    forall body
      ensures OpenChannelEnvelope(frame) == Ok((CHALLENGE, body)) <==> Carried(frame, "channelAuthChallenge", body)
    {
      OpensTo(frame, CHALLENGE, body);
    }
    OffersOpened(c, k, frame, i, t, offered);
  }

  lemma OffersOpened(c: Crypto, k: Client, frame: Bytes, i: ClientInputs, t: Transcript, offered: Bytes)
    ensures var (next, r) := BeginChallenge(c, k, frame, i);
            && (r == Ok(offered) && next.transcript == Some(t) && next.phase == Signing <==>
                  && k.phase == HelloSent && i.mono < k.deadline
                  && Mine(k, t, i.wall) && ChannelSigningData(c, t) == Ok(offered)
                  && ValidateSigningChallenge(offered, k.identity, i.wall).Ok?
                  && exists body :: OpenChannelEnvelope(frame) == Ok((CHALLENGE, body)) && Holds(body, t, offered))
            && (r.Ok? ==> next == k.(phase := Signing, transcript := next.transcript, offered := Some(r.value)) && next.transcript.Some?)
  {
    hide OpenChannelEnvelope;
    hide ChannelSigningData;
    hide ValidateSigningChallenge;
    hide ReadChallenge;
    hide Holds;
    hide IsUUID;
    hide Uuid;
    UuidIff(t.sessionID);
    UuidIff(t.generation);
    if OpenChannelEnvelope(frame).Ok? {
      ChallengeHeld(OpenChannelEnvelope(frame).value.1, t, offered);
    }
  }

  /** It sends its proof exactly once, for a signature of the data offered, checked again, in time. */
  lemma SendsIff(c: Crypto, k: Client, signature: Bytes, i: ClientInputs)
    ensures var (next, r) := FinishChallenge(c, k, signature, i);
            && (r.Ok? <==> k.phase == Signing && k.transcript.Some? && k.offered.Some? && i.mono < k.deadline
                           && Signed(c, signature, k.offered.value, k.identity)
                           && ValidateSigningChallenge(k.offered.value, k.identity, i.wall).Ok?)
            && (r.Ok? ==>
                  && next == k.(phase := ProofSent, offered := None)
                  && r.value == ChannelEnvelope("channelAuthProof", map[
                       "sessionID" := Str(k.transcript.value.sessionID), "generation" := Str(k.transcript.value.generation),
                       "signature" := Str(Base64.Encode(signature))]))
            && (r.Err? ==> next.phase == Closed && next.offered.None?)
  {
    hide ValidateSigningChallenge;
    hide ChannelEnvelope;
  }

  predicate Acknowledged(c: Crypto, t: Transcript, body: map<string, Json>) {
    && body.Keys == {"sessionID", "generation", "transcriptDigest"}
    && TextOf(body["sessionID"]) == t.sessionID && TextOf(body["generation"]) == t.generation
    && TextOf(body["transcriptDigest"]) == c.hash(ChannelEncode(t.ToJson()))
  }

  ghost predicate AcknowledgementCarried(c: Crypto, t: Transcript, frame: Bytes) {
    exists body :: Carried(frame, "channelAuthAccepted", body) && Acknowledged(c, t, body)
  }

  /** The client is admitted exactly by the acknowledgement of its own transcript, after its proof, before deadline and expiry. */
  lemma AcceptsIff(c: Crypto, k: Client, frame: Bytes, i: ClientInputs)
    ensures var (next, r) := ClientAccept(c, k, frame, i);
            && (r.Ok? <==> next.phase == Authenticated)
            && (next.phase == Authenticated <==>
                  && k.phase == ProofSent && i.mono < k.deadline && k.transcript.Some?
                  && AcknowledgementCarried(c, k.transcript.value, frame) && i.wall < k.transcript.value.expiresAt)
            && (next.phase == Authenticated ==>
                  var t := k.transcript.value;
                  next == k.(phase := Authenticated, admitted := Some(Admission(
                    t.identity, t.endpoint, t.sessionID, t.generation, c.hash(ChannelEncode(t.ToJson())), t.expiresAt))))
  {
    hide OpenChannelEnvelope;
    hide Carried;
    hide ChannelEncode;
    hide Transcript.ToJson;
    forall body
      ensures OpenChannelEnvelope(frame) == Ok((ACCEPTED, body)) <==> Carried(frame, "channelAuthAccepted", body)
    {
      OpensTo(frame, ACCEPTED, body);
    }
    if k.transcript.Some? && OpenChannelEnvelope(frame).Ok? {
      assert Acknowledges(c, k.transcript.value, OpenChannelEnvelope(frame).value.1)
        <==> Acknowledged(c, k.transcript.value, OpenChannelEnvelope(frame).value.1);
    }
  }
}
