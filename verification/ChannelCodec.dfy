/** Bytes of the bridge admission handshake: strict decoding, nested envelopes, transcripts. */
module ChannelCodec {
  import opened Prelude
  import opened Text
  import opened JsonCodec
  import KeyOrder
  import Base64

  const MAXIMUM_ENVELOPE := 16 * 1024

  const PROFILE := "org.haven.bridge-channel.v1"
  const ACTION := "openBridgeChannel"
  const DIRECTION := "client-to-server"
  const CHALLENGE_MILLISECONDS := 30_000
  const LIFETIME_MILLISECONDS := 300_000

  const HELLO := "channelAuthHello"
  const CHALLENGE := "channelAuthChallenge"
  const PROOF := "channelAuthProof"
  const ACCEPTED := "channelAuthAccepted"

  predicate IsAuthCommand(name: string) {
    name == HELLO || name == CHALLENGE || name == PROOF || name == ACCEPTED
  }

  // ---- Strict encoding ----

  function ChannelEncode(v: Json): Bytes {
    CanonicalJSON(v, CHANNEL_STYLE)
  }

  function ChannelDecode(data: Bytes): Result<map<string, Json>> {
    if |data| > MAXIMUM_ENVELOPE then Err("malformed")
    else
      match DecodeJSON(data)
      case Some(Obj(fields)) => if ChannelEncode(Obj(fields)) == data then Ok(fields) else Err("malformed")
      case _ => Err("malformed")
  }

  /** ChannelDecode accepts exactly the encodings of objects within the limit. */
  lemma ChannelDecodeExact(data: Bytes, fields: map<string, Json>)
    ensures ChannelDecode(data) == Ok(fields) <==> |data| <= MAXIMUM_ENVELOPE && data == ChannelEncode(Obj(fields))
  {
    DecodeEncoded(Obj(fields), CHANNEL_STYLE);
  }

  // ---- Envelopes ----

  function Command(name: string, text: string): Json {
    Obj(map["&string" := Str(text), "cid" := Int(0), "cmd" := Str(name)])
  }

  function ChannelEnvelope(name: string, body: map<string, Json>): Bytes {
    ChannelEncode(Command(name, Encode(Obj(body), CHANNEL_STYLE)))
  }

  predicate ExactKeys(fields: map<string, Json>, keys: set<string>) {
    fields.Keys == keys
  }

  function StringField(fields: map<string, Json>, key: string): Result<string> {
    if key in fields && fields[key].Str? then Ok(fields[key].s) else Err("malformed")
  }

  function OpenChannelEnvelope(data: Bytes): Result<(string, map<string, Json>)> {
    var command :- ChannelDecode(data);
    if !ExactKeys(command, {"&string", "cid", "cmd"}) then Err("malformed")
    else if command["cid"] != Int(0) || !command["cmd"].Str? || !IsAuthCommand(command["cmd"].s) then Err("malformed")
    else
      var payload :- StringField(command, "&string");
      var body :- ChannelDecode(Utf8(payload));
      Ok((command["cmd"].s, body))
  }

  /** Escaping never makes text shorter. */
  lemma {:induction false} EscapeSize(s: string, escapeSlashes: bool)
    ensures |Utf8(s)| <= |Utf8(Escape(s, escapeSlashes))|
  {
    if s != "" {
      EscapeSize(s[1..], escapeSlashes);
      var e := EscapeChar(s[0], escapeSlashes);
      Utf8Concat(e, Escape(s[1..], escapeSlashes));
      Utf8Length(e);
      assert |e| == 1 ==> e[0] == s[0] && Utf8(e) == EncodeChar(e[0]) + Utf8(e[1..]);
    }
  }

  lemma InfixSize(a: string, b: string, c: string)
    ensures |Utf8(b)| <= |Utf8(a + b + c)|
  {
    Utf8Concat(a + b, c);
    Utf8Concat(a, b);
  }

  lemma StringSize(s: string, style: Style)
    ensures |Utf8(s)| <= |Utf8(Encode(Str(s), style))|
  {
    EscapeSize(s, style.escapeSlashes);
    InfixSize("\"", Escape(s, style.escapeSlashes), "\"");
  }

  lemma {:induction false} MemberSize(v: Json, keys: seq<string>, key: string, style: Style)
    requires v.Obj? && (forall k :: k in keys ==> k in v.fields) && key in keys
    ensures |Utf8(Encode(v.fields[key], style))| <= |Utf8(EncodeMembers(v, keys, style))|
  {
    hide Encode;
    hide EncodeMember;
    var text := Encode(v.fields[keys[0]], style);
    var head := EncodeMember(keys[0], text, style);
    var tail := if |keys| == 1 then "" else "," + EncodeMembers(v, keys[1..], style);
    assert EncodeMembers(v, keys, style) == head + tail;
    Utf8Concat(head, tail);
    if key == keys[0] {
      MemberTextSize(key, text, style);
    } else {
      assert key in keys[1..];
      MemberSize(v, keys[1..], key, style);
      Utf8Concat(",", EncodeMembers(v, keys[1..], style));
    }
  }

  lemma MemberTextSize(key: string, text: string, style: Style)
    ensures |Utf8(text)| <= |Utf8(EncodeMember(key, text, style))|
  {
    var head := EncodeString(key, style.escapeSlashes) + ":";
    InfixSize(head, text, "");
    assert head + text + "" == EncodeMember(key, text, style);
  }

  /** A field's encoding is no longer than its object's. */
  lemma FieldSize(v: Json, key: string, style: Style)
    requires v.Obj? && key in v.fields
    ensures |Utf8(Encode(v.fields[key], style))| <= |Utf8(Encode(v, style))|
  {
    var keys := KeyOrder.SortedKeys(v.fields.Keys, style.order);
    MemberSize(v, keys, key, style);
    InfixSize("{", EncodeMembers(v, keys, style), "}");
  }

  lemma InnerFits(name: string, body: map<string, Json>)
    ensures |ChannelEncode(Obj(body))| <= |ChannelEnvelope(name, body)|
  {
    var text := Encode(Obj(body), CHANNEL_STYLE);
    FieldSize(Command(name, text), "&string", CHANNEL_STYLE);
    StringSize(text, CHANNEL_STYLE);
  }

  lemma CommandFields(name: string, text: string)
    ensures var o := Command(name, text).fields;
            Command(name, text).Obj? && o.Keys == {"&string", "cid", "cmd"} && o["&string"] == Str(text) && o["cid"] == Int(0) && o["cmd"] == Str(name)
  {
  }

  lemma OpenedIsEnvelope(data: Bytes, name: string, body: map<string, Json>)
    requires OpenChannelEnvelope(data) == Ok((name, body))
    ensures IsAuthCommand(name) && |data| <= MAXIMUM_ENVELOPE && data == ChannelEnvelope(name, body)
  {
    hide ChannelDecode;
    hide Command;
    hide Encode;
    var text := Encode(Obj(body), CHANNEL_STYLE);
    var command := ChannelDecode(data).value;
    ChannelDecodeExact(data, command);
    var payload := command["&string"].s;
    ChannelDecodeExact(Utf8(payload), body);
    DecodeUtf8Encoded(payload);
    DecodeUtf8Encoded(text);
    CommandFields(name, text);
    assert command == Command(name, text).fields;
  }

  lemma EnvelopeOpens(name: string, body: map<string, Json>)
    requires IsAuthCommand(name) && |ChannelEnvelope(name, body)| <= MAXIMUM_ENVELOPE
    ensures OpenChannelEnvelope(ChannelEnvelope(name, body)) == Ok((name, body))
  {
    hide ChannelDecode;
    hide Command;
    hide Encode;
    var text := Encode(Obj(body), CHANNEL_STYLE);
    CommandFields(name, text);
    ChannelDecodeExact(ChannelEnvelope(name, body), Command(name, text).fields);
    InnerFits(name, body);
    ChannelDecodeExact(Utf8(text), body);
  }

  /** Opening undoes wrapping through both encodings, and opens nothing else. */
  lemma OpenExact(data: Bytes, name: string, body: map<string, Json>)
    ensures OpenChannelEnvelope(data) == Ok((name, body)) <==>
            IsAuthCommand(name) && |data| <= MAXIMUM_ENVELOPE && data == ChannelEnvelope(name, body)
  {
    if OpenChannelEnvelope(data) == Ok((name, body)) {
      OpenedIsEnvelope(data, name, body);
    }
    if IsAuthCommand(name) && |data| <= MAXIMUM_ENVELOPE && data == ChannelEnvelope(name, body) {
      EnvelopeOpens(name, body);
    }
  }

  // ---- Identities, endpoints, transcripts ----

  datatype PublicIdentity = PublicIdentity(uuid: string, publicKey: Bytes, algorithm: string, curve: string) {
    predicate Valid() {
      uuid != "" && |Utf8(uuid)| <= 512 && algorithm == "EdDSA" && curve == "Curve25519" && |publicKey| == 32
    }

    function Fingerprint(): string {
      algorithm + ":" + curve + ":" + Base64.Encode(publicKey)
    }

    function ToJson(): Json {
      Obj(map["uuid" := Str(uuid), "algorithm" := Str(algorithm), "curve" := Str(curve),
              "publicKey" := Str(Base64.Encode(publicKey))])
    }
  }

  datatype Endpoint = Endpoint(origin: string, route: string, domain: string) {
    function Audience(): string {
      origin + route
    }

    function ToJson(): Json {
      Obj(map["origin" := Str(origin), "route" := Str(route), "domain" := Str(domain)])
    }
  }

  datatype Transcript = Transcript(
    profile: string, endpoint: Endpoint, identity: PublicIdentity, clientNonce: Bytes, serverNonce: Bytes,
    sessionID: string, generation: string, direction: string, issuedAt: int64, expiresAt: int64)
  {
    function ToJson(): Json {
      Obj(map["profile" := Str(profile), "endpoint" := endpoint.ToJson(), "identity" := identity.ToJson(),
              "clientNonce" := Str(Base64.Encode(clientNonce)), "serverNonce" := Str(Base64.Encode(serverNonce)),
              "sessionID" := Str(sessionID), "generation" := Str(generation), "direction" := Str(direction),
              "issuedAtMilliseconds" := Int(issuedAt), "channelExpiresAtMilliseconds" := Int(expiresAt)])
    }
  }

  function Field(fields: map<string, Json>, key: string): Json {
    if key in fields then fields[key] else Null
  }

  function Unbase64(v: Json): Result<Bytes> {
    if !v.Str? then Err("malformed")
    else
      match Base64.Decode(v.s)
      case Some(d) => Ok(d)
      case None => Err("malformed")
  }

  function IdentityFromJson(v: Json): Result<PublicIdentity> {
    if !v.Obj? || !ExactKeys(v.fields, {"uuid", "algorithm", "curve", "publicKey"}) then Err("malformed")
    else
      var uuid :- StringField(v.fields, "uuid");
      var algorithm :- StringField(v.fields, "algorithm");
      var curve :- StringField(v.fields, "curve");
      var publicKey :- Unbase64(v.fields["publicKey"]);
      var identity := PublicIdentity(uuid, publicKey, algorithm, curve);
      if identity.Valid() then Ok(identity) else Err("malformed")
  }

  function EndpointFromJson(v: Json): Result<Endpoint> {
    if !v.Obj? || !ExactKeys(v.fields, {"origin", "route", "domain"}) then Err("malformed")
    else
      var origin :- StringField(v.fields, "origin");
      var route :- StringField(v.fields, "route");
      var domain :- StringField(v.fields, "domain");
      Ok(Endpoint(origin, route, domain))
  }

  const TRANSCRIPT_KEYS := {
    "profile", "endpoint", "identity", "clientNonce", "serverNonce", "sessionID", "generation", "direction",
    "issuedAtMilliseconds", "channelExpiresAtMilliseconds"}

  function TranscriptFromJson(v: Json): Result<Transcript> {
    if !v.Obj? || !ExactKeys(v.fields, TRANSCRIPT_KEYS) then Err("malformed")
    else
      var profile :- StringField(v.fields, "profile");
      var sessionID :- StringField(v.fields, "sessionID");
      var generation :- StringField(v.fields, "generation");
      var direction :- StringField(v.fields, "direction");
      var endpoint :- EndpointFromJson(v.fields["endpoint"]);
      var identity :- IdentityFromJson(v.fields["identity"]);
      var clientNonce :- Unbase64(v.fields["clientNonce"]);
      var serverNonce :- Unbase64(v.fields["serverNonce"]);
      if !v.fields["issuedAtMilliseconds"].Int? || !v.fields["channelExpiresAtMilliseconds"].Int? then Err("malformed")
      else
        Ok(Transcript(profile, endpoint, identity, clientNonce, serverNonce, sessionID, generation, direction,
                      v.fields["issuedAtMilliseconds"].n, v.fields["channelExpiresAtMilliseconds"].n))
  }

  lemma IdentityFields(p: PublicIdentity)
    ensures var o := p.ToJson().fields;
            o.Keys == {"uuid", "algorithm", "curve", "publicKey"} && o["uuid"] == Str(p.uuid)
            && o["algorithm"] == Str(p.algorithm) && o["curve"] == Str(p.curve)
            && o["publicKey"] == Str(Base64.Encode(p.publicKey))
  {
  }

  lemma IdentityRead(p: PublicIdentity)
    requires p.Valid()
    ensures IdentityFromJson(p.ToJson()) == Ok(p)
  {
    IdentityFields(p);
    Base64.DecodeEncoded(p.publicKey);
  }

  lemma EndpointFields(e: Endpoint)
    ensures var o := e.ToJson().fields;
            o.Keys == {"origin", "route", "domain"} && o["origin"] == Str(e.origin) && o["route"] == Str(e.route)
            && o["domain"] == Str(e.domain)
  {
  }

  lemma TranscriptKeys(t: Transcript)
    ensures t.ToJson().fields.Keys == TRANSCRIPT_KEYS
  {
  }

  lemma TranscriptText(t: Transcript)
    ensures var o := t.ToJson().fields;
            o.Keys == TRANSCRIPT_KEYS && o["profile"] == Str(t.profile) && o["sessionID"] == Str(t.sessionID)
            && o["generation"] == Str(t.generation) && o["direction"] == Str(t.direction)
  {
    TranscriptKeys(t);
  }

  lemma TranscriptParts(t: Transcript)
    ensures var o := t.ToJson().fields;
            o.Keys == TRANSCRIPT_KEYS && o["endpoint"] == t.endpoint.ToJson() && o["identity"] == t.identity.ToJson()
            && o["clientNonce"] == Str(Base64.Encode(t.clientNonce))
            && o["serverNonce"] == Str(Base64.Encode(t.serverNonce))
  {
    TranscriptKeys(t);
  }

  lemma TranscriptTimes(t: Transcript)
    ensures var o := t.ToJson().fields;
            o.Keys == TRANSCRIPT_KEYS && o["issuedAtMilliseconds"] == Int(t.issuedAt)
            && o["channelExpiresAtMilliseconds"] == Int(t.expiresAt)
  {
    TranscriptKeys(t);
  }

  lemma TranscriptFields(t: Transcript)
    ensures var o := t.ToJson().fields;
            && t.ToJson().Obj? && o.Keys == TRANSCRIPT_KEYS
            && o["profile"] == Str(t.profile) && o["sessionID"] == Str(t.sessionID)
            && o["generation"] == Str(t.generation) && o["direction"] == Str(t.direction)
            && o["endpoint"] == t.endpoint.ToJson() && o["identity"] == t.identity.ToJson()
            && o["clientNonce"] == Str(Base64.Encode(t.clientNonce))
            && o["serverNonce"] == Str(Base64.Encode(t.serverNonce))
            && o["issuedAtMilliseconds"] == Int(t.issuedAt) && o["channelExpiresAtMilliseconds"] == Int(t.expiresAt)
  {
    assert t.ToJson().Obj?;
    hide Transcript.ToJson;
    TranscriptText(t);
    TranscriptParts(t);
    TranscriptTimes(t);
  }

  lemma TranscriptRead(t: Transcript)
    requires t.identity.Valid()
    ensures TranscriptFromJson(t.ToJson()) == Ok(t)
  {
    hide Transcript.ToJson;
    hide PublicIdentity.ToJson;
    hide IdentityFromJson;
    TranscriptFields(t);
    IdentityRead(t.identity);
    EndpointFields(t.endpoint);
    assert EndpointFromJson(t.endpoint.ToJson()) == Ok(t.endpoint);
    hide EndpointFromJson;
    Base64.DecodeEncoded(t.clientNonce);
    Base64.DecodeEncoded(t.serverNonce);
  }

  /** Two transcripts, with valid identities or not, never share an encoding. */
  lemma TranscriptBytesUnambiguous(t: Transcript, u: Transcript)
    requires ChannelEncode(t.ToJson()) == ChannelEncode(u.ToJson())
    ensures t == u
  {
    hide Transcript.ToJson;
    hide PublicIdentity.ToJson;
    hide Endpoint.ToJson;
    EncodingUnambiguous(t.ToJson(), u.ToJson(), CHANNEL_STYLE, CHANNEL_STYLE);
    TranscriptFields(t);
    TranscriptFields(u);
    EndpointFields(t.endpoint);
    EndpointFields(u.endpoint);
    IdentityFields(t.identity);
    IdentityFields(u.identity);
    Base64.DecodeEncoded(t.identity.publicKey);
    Base64.DecodeEncoded(u.identity.publicKey);
    Base64.DecodeEncoded(t.clientNonce);
    Base64.DecodeEncoded(u.clientNonce);
    Base64.DecodeEncoded(t.serverNonce);
    Base64.DecodeEncoded(u.serverNonce);
  }

  // ---- Ideal cryptography ----

  /** Signature checking over (public key, message, signature) and hex SHA-256. */
  datatype Crypto = Crypto(verify: (Bytes, Bytes, Bytes) -> bool, hash: Bytes -> string)

  ghost predicate CollisionFree(c: Crypto) {
    forall x, y :: c.hash(x) == c.hash(y) ==> x == y
  }

  predicate VerifySignature(c: Crypto, signature: Bytes, message: Bytes, identity: PublicIdentity) {
    identity.algorithm == "EdDSA" && identity.curve == "Curve25519" && |identity.publicKey| == 32
    && |signature| == 64 && c.verify(identity.publicKey, message, signature)
  }

  function Digest(c: Crypto, t: Transcript): string {
    c.hash(ChannelEncode(t.ToJson()))
  }

  // ---- What the client signs ----

  const SIGNING_TYPE := "org.haven.cellprotocol.identity-signing-challenge"
  const SIGNING_PURPOSE := "identity-origin-proof"

  /** An IdentitySigningChallenge with its times in milliseconds. */
  datatype Challenge = Challenge(
    typ: string, version: int64, purpose: string, identityUUID: string, fingerprint: Option<string>,
    domain: string, resource: string, action: string, audience: string, nonce: Bytes,
    issuedAt: int64, expiresAt: int64)
  {
    function ToJson(): Json {
      var required := map[
        "type" := Str(typ), "version" := Int(version), "purpose" := Str(purpose), "identityUUID" := Str(identityUUID),
        "domain" := Str(domain), "resource" := Str(resource), "action" := Str(action), "audience" := Str(audience),
        "nonce" := Str(Base64.Encode(nonce)), "issuedAt" := Int(issuedAt), "expiresAt" := Int(expiresAt)];
      Obj(if fingerprint.Some? then required["publicKeyFingerprint" := Str(fingerprint.value)] else required)
    }
  }

  function ChannelSigningChallenge(c: Crypto, t: Transcript): Result<Challenge> {
    if t.issuedAt + CHALLENGE_MILLISECONDS >= INT64_LIMIT then Err("malformed")
    else
      Ok(Challenge(SIGNING_TYPE, 1, SIGNING_PURPOSE, t.identity.uuid, Some(t.identity.Fingerprint()),
                   t.endpoint.domain, PROFILE + ":" + Digest(c, t), ACTION, t.endpoint.Audience(), t.serverNonce,
                   t.issuedAt, t.issuedAt + CHALLENGE_MILLISECONDS))
  }

  function ChannelSigningData(c: Crypto, t: Transcript): Result<Bytes> {
    var challenge :- ChannelSigningChallenge(c, t);
    Ok(CanonicalJSON(challenge.ToJson(), ENCODER_STYLE))
  }

  const CHALLENGE_KEYS := {
    "type", "version", "purpose", "identityUUID", "domain", "resource", "action", "audience", "nonce", "issuedAt",
    "expiresAt"}

  lemma ChallengeKeys(ch: Challenge)
    ensures ch.ToJson().fields.Keys == CHALLENGE_KEYS + (if ch.fingerprint.Some? then {"publicKeyFingerprint"} else {})
  {
  }

  lemma ChallengeHead(ch: Challenge)
    ensures var o := ch.ToJson().fields;
            CHALLENGE_KEYS <= o.Keys && o["type"] == Str(ch.typ) && o["version"] == Int(ch.version)
            && o["purpose"] == Str(ch.purpose) && o["identityUUID"] == Str(ch.identityUUID)
            && Field(o, "publicKeyFingerprint") == (if ch.fingerprint.Some? then Str(ch.fingerprint.value) else Null)
  {
    ChallengeKeys(ch);
  }

  lemma ChallengeScope(ch: Challenge)
    ensures var o := ch.ToJson().fields;
            CHALLENGE_KEYS <= o.Keys && o["domain"] == Str(ch.domain) && o["resource"] == Str(ch.resource)
            && o["action"] == Str(ch.action) && o["audience"] == Str(ch.audience)
  {
    ChallengeKeys(ch);
  }

  lemma ChallengeTail(ch: Challenge)
    ensures var o := ch.ToJson().fields;
            CHALLENGE_KEYS <= o.Keys && o["nonce"] == Str(Base64.Encode(ch.nonce))
            && o["issuedAt"] == Int(ch.issuedAt) && o["expiresAt"] == Int(ch.expiresAt)
  {
    ChallengeKeys(ch);
  }

  /** The signed bytes pin down the whole transcript. */
  lemma SigningDataBindsTranscript(c: Crypto, t: Transcript, u: Transcript)
    requires CollisionFree(c) && ChannelSigningData(c, t).Ok?
    requires ChannelSigningData(c, t) == ChannelSigningData(c, u)
    ensures t == u
  {
    hide Challenge.ToJson;
    var a, b := ChannelSigningChallenge(c, t).value, ChannelSigningChallenge(c, u).value;
    EncodingUnambiguous(a.ToJson(), b.ToJson(), ENCODER_STYLE, ENCODER_STYLE);
    ChallengeScope(a);
    ChallengeScope(b);
    var p := PROFILE + ":";
    assert a.resource[|p|..] == Digest(c, t) && b.resource[|p|..] == Digest(c, u);
    TranscriptBytesUnambiguous(t, u);
  }

  // ---- Reading a challenge back (ValidateSigningChallenge) ----

  const MAXIMUM_CHALLENGE := 8 * 1024

  function ChallengeFromJson(v: Json): Option<Challenge> {
    if !v.Obj? then None
    else
      var o := v.fields;
      var mark := Field(o, "publicKeyFingerprint");
      var nonce := Unbase64(Field(o, "nonce"));
      if !Field(o, "type").Str? || !Field(o, "version").Int? || !Field(o, "purpose").Str?
         || !Field(o, "identityUUID").Str? || !(mark.Str? || mark.Null?) || !Field(o, "domain").Str?
         || !Field(o, "resource").Str? || !Field(o, "action").Str? || !Field(o, "audience").Str?
         || nonce.Err? || !Field(o, "issuedAt").Int? || !Field(o, "expiresAt").Int? then None
      else
        Some(Challenge(o["type"].s, o["version"].n, o["purpose"].s, o["identityUUID"].s,
                       if mark.Str? then Some(mark.s) else None, o["domain"].s, o["resource"].s, o["action"].s,
                       o["audience"].s, nonce.value, o["issuedAt"].n, o["expiresAt"].n))
  }

  predicate ScopeMissing(ch: Challenge) {
    IsBlank(ch.domain) || IsBlank(ch.resource) || IsBlank(ch.action) || IsBlank(ch.audience)
  }

  predicate ScopeTooLarge(ch: Challenge) {
    |ch.domain| > 512 || |ch.resource| > 512 || |ch.action| > 512 || |ch.audience| > 512
  }

  /** The checks on a decoded challenge, in the source's order. */
  function CheckChallenge(ch: Challenge, identity: PublicIdentity, now: int): Result<Challenge> {
    var mark := TrimSpace(if ch.fingerprint.Some? then ch.fingerprint.value else "");
    if ch.typ != SIGNING_TYPE then Err("wrongType")
    else if ch.version != 1 then Err("unsupportedVersion")
    else if ch.purpose != SIGNING_PURPOSE then Err("wrongPurpose")
    else if ch.identityUUID != identity.uuid then Err("identityMismatch")
    else if mark == "" then Err("missingPublicKeyFingerprint")
    else if mark != identity.Fingerprint() then Err("publicKeyMismatch")
    else if |ch.nonce| < 32 then Err("missingNonce")
    else if |ch.nonce| > 128 then Err("payloadTooLarge")
    else if ScopeMissing(ch) then Err("missingChallengeScope")
    else if ScopeTooLarge(ch) then Err("payloadTooLarge")
    else if !(0 <= ch.expiresAt - ch.issuedAt <= 60_000) then Err("invalidValidity")
    else if ch.issuedAt > now + 300_000 then Err("issuedInFuture")
    else if ch.expiresAt < now then Err("expired")
    else Ok(ch)
  }

  function ValidateSigningChallenge(data: Bytes, identity: PublicIdentity, now: int): Result<Challenge> {
    if |data| > MAXIMUM_CHALLENGE then Err("payloadTooLarge")
    else
      match DecodeJSON(data)
      case None => Err("invalidPayload")
      case Some(v) =>
        match ChallengeFromJson(v)
        case None => Err("invalidPayload")
        case Some(ch) => CheckChallenge(ch, identity, now)
  }

  lemma ChallengeRead(ch: Challenge)
    ensures ChallengeFromJson(ch.ToJson()) == Some(ch)
  {
    assert ch.ToJson().Obj?;
    hide Challenge.ToJson;
    Base64.DecodeEncoded(ch.nonce);
    ChallengeHead(ch);
    ChallengeScope(ch);
    ChallengeTail(ch);
  }

  lemma NotBlank(s: string)
    requires s != "" && !IsUnicodeSpace(s[0])
    ensures !IsBlank(s)
  {
    assert TrimLeft(s) == s;
    TrimRightKeeps(s);
  }

  lemma {:induction false} TrimRightKeeps(s: string)
    requires s != "" && !IsUnicodeSpace(s[0])
    ensures TrimRight(s) != ""
  {
    if |s| > 1 && IsUnicodeSpace(s[|s| - 1]) {
      TrimRightKeeps(s[..|s| - 1]);
    }
  }

  lemma FingerprintTrimmed(p: PublicIdentity)
    requires p.Valid()
    ensures TrimSpace(p.Fingerprint()) == p.Fingerprint() && p.Fingerprint() != ""
  {
    var f, e := p.Fingerprint(), Base64.Encode(p.publicKey);
    Base64EndsVisible(p.publicKey);
    assert f[0] == 'E' && f[|f| - 1] == e[|e| - 1];
  }

  lemma {:induction false} Base64EndsVisible(d: Bytes)
    requires d != []
    ensures var e := Base64.Encode(d); e != "" && !IsUnicodeSpace(e[|e| - 1])
  {
    if |d| > 3 {
      Base64EndsVisible(d[3..]);
    }
  }

  /** When a channel's own challenge passes its reader. */
  predicate SigningFits(c: Crypto, t: Transcript) {
    && ChannelSigningData(c, t).Ok?
    && |ChannelSigningData(c, t).value| <= MAXIMUM_CHALLENGE
    && 32 <= |t.serverNonce| <= 128
    && !IsBlank(t.endpoint.domain) && |t.endpoint.domain| <= 512
    && !IsBlank(t.endpoint.Audience()) && |t.endpoint.Audience()| <= 512
    && |PROFILE + ":" + Digest(c, t)| <= 512
  }

  /** The reader accepts the signing data of a transcript exactly while its times allow. */
  lemma SigningDataValidated(c: Crypto, t: Transcript, now: int)
    requires t.identity.Valid() && SigningFits(c, t)
    ensures ValidateSigningChallenge(ChannelSigningData(c, t).value, t.identity, now).Ok? <==>
            t.issuedAt <= now + 300_000 && now <= t.issuedAt + CHALLENGE_MILLISECONDS
  {
    var ch := ChannelSigningChallenge(c, t).value;
    DecodeEncoded(ch.ToJson(), ENCODER_STYLE);
    ChallengeRead(ch);
    OwnChallengeChecked(c, t, now);
  }

  lemma OwnScope(c: Crypto, t: Transcript)
    requires SigningFits(c, t)
    ensures var ch := ChannelSigningChallenge(c, t).value; !ScopeMissing(ch) && !ScopeTooLarge(ch)
  {
    hide IsBlank;
    var ch := ChannelSigningChallenge(c, t).value;
    NotBlank(ch.resource);
    NotBlank(ch.action);
  }

  lemma OwnChallengeChecked(c: Crypto, t: Transcript, now: int)
    requires t.identity.Valid() && SigningFits(c, t)
    ensures CheckChallenge(ChannelSigningChallenge(c, t).value, t.identity, now).Ok? <==>
            t.issuedAt <= now + 300_000 && now <= t.issuedAt + CHALLENGE_MILLISECONDS
  {
    OwnScope(c, t);
    FingerprintTrimmed(t.identity);
    hide PublicIdentity.Fingerprint;
    hide ScopeMissing;
    hide ScopeTooLarge;
    hide TrimSpace;
    hide IsBlank;
  }
}
