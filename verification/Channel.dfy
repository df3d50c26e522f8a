/** The two ends of bridge admission: what each does with one frame, as values and as objects. */
module Channel {
  import opened Prelude
  import opened Text
  import opened JsonCodec
  import opened ChannelCodec
  import Base64

  const PRE_AUTH_DEADLINE := 10_000

  datatype Phase =
    | Unauthenticated | ChallengeIssued | Verifying
    | New | HelloSent | Signing | ProofSent
    | Authenticated | Closed

  /** A proven public key and the terms of its channel. */
  datatype Admission = Admission(
    identity: PublicIdentity, endpoint: Endpoint, sessionID: string, generation: string, digest: string, expiresAt: int)

  function AdmissionFor(c: Crypto, t: Transcript): Admission {
    Admission(t.identity, t.endpoint, t.sessionID, t.generation, Digest(c, t), t.expiresAt)
  }

  // ---- Bodies ----

  function HelloBody(identity: PublicIdentity, clientNonce: Bytes): map<string, Json> {
    map["profile" := Str(PROFILE), "identity" := identity.ToJson(), "clientNonce" := Str(Base64.Encode(clientNonce))]
  }

  function ChallengeBody(t: Transcript, signingData: Bytes): map<string, Json> {
    map["transcript" := t.ToJson(), "signingData" := Str(Base64.Encode(signingData))]
  }

  function ProofBody(sessionID: string, generation: string, signature: Bytes): map<string, Json> {
    map["sessionID" := Str(sessionID), "generation" := Str(generation), "signature" := Str(Base64.Encode(signature))]
  }

  function AcceptedBody(c: Crypto, t: Transcript): map<string, Json> {
    map["sessionID" := Str(t.sessionID), "generation" := Str(t.generation), "transcriptDigest" := Str(Digest(c, t))]
  }

  /** A string field, or "" when it is not one. */
  function TextOf(v: Json): string {
    if v.Str? then v.s else ""
  }

  // ---- Server ----

  datatype Server = Server(
    endpoint: Endpoint, generation: string, phase: Phase, admitted: Option<Admission>, deadline: int,
    pending: Option<Transcript>, data: Bytes)
  {
    function Close(code: string): (Server, Result<Bytes>) {
      (this.(phase := Closed, pending := None, data := []), Err(code))
    }
  }

  /** What one call reads from its surroundings: both clocks, each possibly twice, fresh values and the recheck. */
  datatype ServerInputs = ServerInputs(
    mono: int, monoAfter: int, wall: int, wallAfter: int, serverNonce: Bytes, sessionID: string, recheckPasses: bool)

  function NewServer(endpoint: Endpoint, generation: string, mono: int): Server {
    Server(endpoint, generation, Unauthenticated, None, mono + PRE_AUTH_DEADLINE, None, [])
  }

  function TranscriptFor(s: Server, identity: PublicIdentity, clientNonce: Bytes, i: ServerInputs): Option<Transcript> {
    if -INT64_LIMIT <= i.wall < INT64_LIMIT - LIFETIME_MILLISECONDS then
      Some(Transcript(PROFILE, s.endpoint, identity, clientNonce, i.serverNonce, i.sessionID, s.generation, DIRECTION,
                      i.wall, i.wall + LIFETIME_MILLISECONDS))
    else None
  }

  /** The identity and nonce a hello body carries. */
  function ReadHello(body: map<string, Json>): Result<(PublicIdentity, Bytes)> {
    if !ExactKeys(body, {"profile", "identity", "clientNonce"}) then Err("malformed")
    else if TextOf(body["profile"]) != PROFILE then Err("malformed")
    else
      var identity :- IdentityFromJson(body["identity"]);
      var clientNonce :- Unbase64(body["clientNonce"]);
      if |clientNonce| != 32 then Err("malformed") else Ok((identity, clientNonce))
  }

  function OnHello(c: Crypto, s: Server, body: map<string, Json>, i: ServerInputs): (Server, Result<Bytes>) {
    match ReadHello(body)
    case Err(code) => s.Close(code)
    case Ok((identity, clientNonce)) =>
      match TranscriptFor(s, identity, clientNonce, i)
      case None => s.Close("malformed")
      case Some(t) =>
        match ChannelSigningData(c, t)
        case Err(_) => s.Close("malformed")
        case Ok(data) =>
          (s.(pending := Some(t), data := data, phase := ChallengeIssued),
           Ok(ChannelEnvelope(CHALLENGE, ChallengeBody(t, data))))
  }

  /** The code a proof is refused with, or "" when it is accepted. */
  function ProofVerdict(c: Crypto, s: Server, t: Transcript, body: map<string, Json>, i: ServerInputs): string {
    if !ExactKeys(body, {"sessionID", "generation", "signature"}) then "malformed"
    else
      match Unbase64(body["signature"])
      case Err(code) => "malformed"
      case Ok(signature) =>
        if i.wall >= t.issuedAt + CHALLENGE_MILLISECONDS then "expired"
        else if TextOf(body["sessionID"]) != t.sessionID || TextOf(body["generation"]) != s.generation then
          "staleGeneration"
        else if |signature| > 256 || !VerifySignature(c, signature, s.data, t.identity) then "invalidProof"
        else if !i.recheckPasses then "revoked"
        else if i.monoAfter >= s.deadline || i.wallAfter >= t.expiresAt then "expired"
        else ""
  }

  function OnProof(c: Crypto, s: Server, body: map<string, Json>, i: ServerInputs): (Server, Result<Bytes>) {
    var consumed := s.(pending := None, data := [], phase := Verifying);
    match s.pending
    case None => consumed.Close("unexpectedMessage")
    case Some(t) =>
      var verdict := ProofVerdict(c, s, t, body, i);
      if verdict != "" then consumed.Close(verdict)
      else
        (consumed.(phase := Authenticated,
                   admitted := Some(Admission(t.identity, s.endpoint, t.sessionID, s.generation, Digest(c, t), t.expiresAt))),
         Ok(ChannelEnvelope(ACCEPTED, AcceptedBody(c, t))))
  }

  function ServerReceive(c: Crypto, s: Server, frame: Bytes, i: ServerInputs): (Server, Result<Bytes>) {
    if s.phase == Closed || s.phase == Authenticated then s.Close("unexpectedMessage")
    else
      match OpenChannelEnvelope(frame)
      case Err(code) => (s.(phase := Closed), Err(code))
      case Ok((name, body)) =>
        if i.mono >= s.deadline then s.Close("expired")
        else if name == HELLO && s.phase == Unauthenticated then OnHello(c, s, body, i)
        else if name == PROOF && s.phase == ChallengeIssued then OnProof(c, s, body, i)
        else s.Close("unexpectedMessage")
  }

  // ---- Client ----

  datatype Client = Client(
    identity: PublicIdentity, endpoint: Endpoint, clientNonce: Bytes, phase: Phase, admitted: Option<Admission>,
    deadline: int, transcript: Option<Transcript>, offered: Option<Bytes>)
  {
    function Close(code: string): (Client, Result<Bytes>) {
      (this.(phase := Closed, offered := None), Err(code))
    }
  }

  datatype ClientInputs = ClientInputs(mono: int, wall: int)

  function NewClient(identity: PublicIdentity, endpoint: Endpoint, clientNonce: Bytes, mono: int): Result<Client> {
    if identity.Valid() then
      Ok(Client(identity, endpoint, clientNonce, New, None, mono + PRE_AUTH_DEADLINE, None, None))
    else Err("malformed")
  }

  function ClientHello(k: Client): (Client, Result<Bytes>) {
    if k.phase != New then k.Close("unexpectedMessage")
    else (k.(phase := HelloSent), Ok(ChannelEnvelope(HELLO, HelloBody(k.identity, k.clientNonce))))
  }

  predicate IsHexDigit(ch: char) {
    '0' <= ch <= '9' || 'a' <= ch <= 'f' || 'A' <= ch <= 'F'
  }

  predicate IsUUID(s: string) {
    |s| == 36 && forall i :: 0 <= i < 36 ==> if i in {8, 13, 18, 23} then s[i] == '-' else IsHexDigit(s[i])
  }

  const FAR := 9_000_000_000_000_000

  /** The challenge describes this very connect, now. */
  predicate Matches(k: Client, t: Transcript, now: int) {
    && t.profile == PROFILE && t.direction == DIRECTION
    && t.endpoint == k.endpoint && t.identity == k.identity && t.clientNonce == k.clientNonce
    && |t.serverNonce| == 32 && IsUUID(t.sessionID) && IsUUID(t.generation)
    && 0 < t.issuedAt < FAR && 0 < t.expiresAt < FAR
    && now - 30_000 < t.issuedAt <= now + 5_000
    && now < t.expiresAt && t.expiresAt - t.issuedAt == LIFETIME_MILLISECONDS
  }

  function ReadChallenge(body: map<string, Json>): Result<(Transcript, Bytes)> {
    if !ExactKeys(body, {"transcript", "signingData"}) then Err("malformed")
    else
      var t :- TranscriptFromJson(body["transcript"]);
      var offered :- Unbase64(body["signingData"]);
      Ok((t, offered))
  }

  function BeginChallenge(c: Crypto, k: Client, frame: Bytes, i: ClientInputs): (Client, Result<Bytes>) {
    match OpenChannelEnvelope(frame)
    case Err(code) => (k.(phase := Closed), Err(code))
    case Ok((name, body)) =>
      if i.mono >= k.deadline then k.Close("expired")
      else if name != CHALLENGE || k.phase != HelloSent then k.Close("unexpectedMessage")
      else
        match ReadChallenge(body)
        case Err(code) => k.Close(code)
        case Ok((t, offered)) =>
          if ChannelSigningData(c, t) != Ok(offered) || !Matches(k, t, i.wall)
             || ValidateSigningChallenge(offered, k.identity, i.wall).Err? then k.Close("invalidProof")
          else (k.(phase := Signing, transcript := Some(t), offered := Some(offered)), Ok(offered))
  }

  function FinishChallenge(c: Crypto, k: Client, signature: Bytes, i: ClientInputs): (Client, Result<Bytes>) {
    if k.phase != Signing || k.transcript.None? || k.offered.None? then k.Close("unexpectedMessage")
    else
      var t, offered, taken := k.transcript.value, k.offered.value, k.(offered := None);
      if i.mono >= k.deadline || !VerifySignature(c, signature, offered, k.identity) then taken.Close("staleGeneration")
      else if ValidateSigningChallenge(offered, k.identity, i.wall).Err? then taken.Close("expired")
      else (taken.(phase := ProofSent), Ok(ChannelEnvelope(PROOF, ProofBody(t.sessionID, t.generation, signature))))
  }

  predicate Acknowledges(c: Crypto, t: Transcript, body: map<string, Json>) {
    body.Keys == {"sessionID", "generation", "transcriptDigest"}
    && TextOf(body["sessionID"]) == t.sessionID && TextOf(body["generation"]) == t.generation
    && TextOf(body["transcriptDigest"]) == Digest(c, t)
  }

  function ClientAccept(c: Crypto, k: Client, frame: Bytes, i: ClientInputs): (Client, Result<Bytes>) {
    match OpenChannelEnvelope(frame)
    case Err(code) => (k.(phase := Closed), Err(code))
    case Ok((name, body)) =>
      if i.mono >= k.deadline then k.Close("expired")
      else if name != ACCEPTED || k.phase != ProofSent then k.Close("unexpectedMessage")
      else if !ExactKeys(body, {"sessionID", "generation", "transcriptDigest"}) then k.Close("malformed")
      else if k.transcript.None? || !Acknowledges(c, k.transcript.value, body) then k.Close("invalidProof")
      else if i.wall >= k.transcript.value.expiresAt then k.Close("expired")
      else (k.(phase := Authenticated, admitted := Some(AdmissionFor(c, k.transcript.value))), Ok([]))
  }

  // ---- The objects ----

  class ChannelServer {
    const crypto: Crypto
    const endpoint: Endpoint
    const generation: string
    const deadline: int
    var phase: Phase
    var admitted: Option<Admission>
    var pending: Option<Transcript>
    var data: Bytes

    function View(): Server
      reads this
    {
      Server(endpoint, generation, phase, admitted, deadline, pending, data)
    }

    constructor (crypto: Crypto, endpoint: Endpoint, generation: string, mono: int)
      ensures View() == NewServer(endpoint, generation, mono) && this.crypto == crypto
    {
      this.crypto, this.endpoint, this.generation := crypto, endpoint, generation;
      deadline := mono + PRE_AUTH_DEADLINE;
      phase, admitted, pending, data := Unauthenticated, None, None, [];
    }

    method CloseWith(code: string) returns (r: Result<Bytes>)
      modifies this
      ensures (View(), r) == old(View()).Close(code)
    {
      phase := Closed;
      pending, data := None, [];
      r := Err(code);
    }

    method Receive(frame: Bytes, i: ServerInputs) returns (r: Result<Bytes>)
      modifies this
      ensures (View(), r) == ServerReceive(crypto, old(View()), frame, i)
    {
      if phase == Closed || phase == Authenticated {
        r := CloseWith("unexpectedMessage");
        return;
      }
      var unwrapped := OpenChannelEnvelope(frame);
      if unwrapped.Err? {
        phase := Closed;
        return Err(unwrapped.code);
      }
      var (name, body) := unwrapped.value;
      if i.mono >= deadline {
        r := CloseWith("expired");
      } else if name == HELLO && phase == Unauthenticated {
        r := ReceiveHello(body, i);
      } else if name == PROOF && phase == ChallengeIssued {
        r := ReceiveProof(body, i);
      } else {
        r := CloseWith("unexpectedMessage");
      }
    }

    method ReceiveHello(body: map<string, Json>, i: ServerInputs) returns (r: Result<Bytes>)
      modifies this
      ensures (View(), r) == OnHello(crypto, old(View()), body, i)
    {
      var hello := ReadHello(body);
      if hello.Err? {
        r := CloseWith(hello.code);
        return;
      }
      var (identity, clientNonce) := hello.value;
      var t := TranscriptFor(View(), identity, clientNonce, i);
      if t.None? {
        r := CloseWith("malformed");
        return;
      }
      var signing := ChannelSigningData(crypto, t.value);
      if signing.Err? {
        r := CloseWith("malformed");
        return;
      }
      pending, data := t, signing.value;
      phase := ChallengeIssued;
      r := Ok(ChannelEnvelope(CHALLENGE, ChallengeBody(t.value, data)));
    }

    /** The pending challenge is consumed before the proof is looked at. */
    method ReceiveProof(body: map<string, Json>, i: ServerInputs) returns (r: Result<Bytes>)
      modifies this
      ensures (View(), r) == OnProof(crypto, old(View()), body, i)
    {
      var t, before := pending, View();
      pending, data := None, [];
      phase := Verifying;
      if t.None? {
        r := CloseWith("unexpectedMessage");
        return;
      }
      var verdict := ProofVerdict(crypto, before, t.value, body, i);
      if verdict != "" {
        r := CloseWith(verdict);
        return;
      }
      admitted := Some(Admission(t.value.identity, endpoint, t.value.sessionID, generation, Digest(crypto, t.value),
                                 t.value.expiresAt));
      phase := Authenticated;
      r := Ok(ChannelEnvelope(ACCEPTED, AcceptedBody(crypto, t.value)));
    }
  }

  class ChannelClient {
    const crypto: Crypto
    const identity: PublicIdentity
    const endpoint: Endpoint
    const clientNonce: Bytes
    const deadline: int
    var phase: Phase
    var admitted: Option<Admission>
    var transcript: Option<Transcript>
    var offered: Option<Bytes>

    function View(): Client
      reads this
    {
      Client(identity, endpoint, clientNonce, phase, admitted, deadline, transcript, offered)
    }

    constructor (crypto: Crypto, identity: PublicIdentity, endpoint: Endpoint, clientNonce: Bytes, mono: int)
      requires identity.Valid()
      ensures Ok(View()) == NewClient(identity, endpoint, clientNonce, mono) && this.crypto == crypto
    {
      this.crypto, this.identity, this.endpoint, this.clientNonce := crypto, identity, endpoint, clientNonce;
      deadline := mono + PRE_AUTH_DEADLINE;
      phase, admitted, transcript, offered := New, None, None, None;
    }

    method CloseWith(code: string) returns (r: Result<Bytes>)
      modifies this
      ensures (View(), r) == old(View()).Close(code)
    {
      phase := Closed;
      offered := None;
      r := Err(code);
    }

    method Hello() returns (r: Result<Bytes>)
      modifies this
      ensures (View(), r) == ClientHello(old(View()))
    {
      if phase != New {
        r := CloseWith("unexpectedMessage");
        return;
      }
      phase := HelloSent;
      r := Ok(ChannelEnvelope(HELLO, HelloBody(identity, clientNonce)));
    }

    method Begin(frame: Bytes, i: ClientInputs) returns (r: Result<Bytes>)
      modifies this
      ensures (View(), r) == BeginChallenge(crypto, old(View()), frame, i)
    {
      var unwrapped := OpenChannelEnvelope(frame);
      if unwrapped.Err? {
        phase := Closed;
        return Err(unwrapped.code);
      }
      var (name, body) := unwrapped.value;
      if i.mono >= deadline {
        r := CloseWith("expired");
        return;
      }
      if name != CHALLENGE || phase != HelloSent {
        r := CloseWith("unexpectedMessage");
        return;
      }
      var before := View();
      phase := Signing;
      var read := ReadChallenge(body);
      if read.Err? {
        r := CloseWith(read.code);
        return;
      }
      var (t, data) := read.value;
      if ChannelSigningData(crypto, t) != Ok(data) || !Matches(before, t, i.wall)
         || ValidateSigningChallenge(data, identity, i.wall).Err? {
        r := CloseWith("invalidProof");
        return;
      }
      transcript, offered := Some(t), Some(data);
      r := Ok(data);
    }

    method Finish(signature: Bytes, i: ClientInputs) returns (r: Result<Bytes>)
      modifies this
      ensures (View(), r) == FinishChallenge(crypto, old(View()), signature, i)
    {
      var t, data := transcript, offered;
      if phase != Signing || t.None? || data.None? {
        r := CloseWith("unexpectedMessage");
        return;
      }
      offered := None;
      if i.mono >= deadline || !VerifySignature(crypto, signature, data.value, identity) {
        r := CloseWith("staleGeneration");
      } else if ValidateSigningChallenge(data.value, identity, i.wall).Err? {
        r := CloseWith("expired");
      } else {
        phase := ProofSent;
        r := Ok(ChannelEnvelope(PROOF, ProofBody(t.value.sessionID, t.value.generation, signature)));
      }
    }

    method Accept(frame: Bytes, i: ClientInputs) returns (r: Result<Bytes>)
      modifies this
      ensures (View(), r) == ClientAccept(crypto, old(View()), frame, i)
    {
      var unwrapped := OpenChannelEnvelope(frame);
      if unwrapped.Err? {
        phase := Closed;
        return Err(unwrapped.code);
      }
      var (name, body) := unwrapped.value;
      if i.mono >= deadline {
        r := CloseWith("expired");
      } else if name != ACCEPTED || phase != ProofSent {
        r := CloseWith("unexpectedMessage");
      } else if !ExactKeys(body, {"sessionID", "generation", "transcriptDigest"}) {
        r := CloseWith("malformed");
      } else if transcript.None? || !Acknowledges(crypto, transcript.value, body) {
        r := CloseWith("invalidProof");
      } else if i.wall >= transcript.value.expiresAt {
        r := CloseWith("expired");
      } else {
        admitted := Some(AdmissionFor(crypto, transcript.value));
        phase := Authenticated;
        r := Ok([]);
      }
    }
  }
}
