/** The four honest messages end with both sides admitted, so Agreement speaks of something. */
module HonestRun {
  import opened Prelude
  import opened Text
  import opened JsonCodec
  import opened ChannelCodec
  import opened Channel
  import opened Handshake
  import Base64

  // ---- Each body is read back ----

  lemma HelloRead(p: PublicIdentity, nonce: Bytes)
    requires p.Valid() && |nonce| == 32
    ensures ReadHello(HelloBody(p, nonce)) == Ok((p, nonce))
  {
    hide PublicIdentity.ToJson;
    IdentityRead(p);
    hide IdentityFromJson;
    Base64.DecodeEncoded(nonce);
    var o := HelloBody(p, nonce);
    assert o["identity"] == p.ToJson() && o["profile"] == Str(PROFILE) && o["clientNonce"] == Str(Base64.Encode(nonce));
    assert o.Keys == {"profile", "identity", "clientNonce"};
  }

  lemma ChallengeBodyRead(t: Transcript, data: Bytes)
    requires t.identity.Valid()
    ensures ReadChallenge(ChallengeBody(t, data)) == Ok((t, data))
  {
    hide Transcript.ToJson;
    hide TranscriptFromJson;
    TranscriptRead(t);
    Base64.DecodeEncoded(data);
    var o := ChallengeBody(t, data);
    assert o["transcript"] == t.ToJson() && o["signingData"] == Str(Base64.Encode(data));
    assert o.Keys == {"transcript", "signingData"};
  }

  lemma ProofRead(sessionID: string, generation: string, signature: Bytes)
    ensures var o := ProofBody(sessionID, generation, signature);
            ExactKeys(o, {"sessionID", "generation", "signature"}) && TextOf(o["sessionID"]) == sessionID
            && TextOf(o["generation"]) == generation && Unbase64(o["signature"]) == Ok(signature)
  {
    Base64.DecodeEncoded(signature);
    var o := ProofBody(sessionID, generation, signature);
    assert o.Keys == {"sessionID", "generation", "signature"};
    assert o["signature"] == Str(Base64.Encode(signature));
  }

  lemma AcceptedRead(c: Crypto, t: Transcript)
    ensures Acknowledges(c, t, AcceptedBody(c, t))
    ensures ExactKeys(AcceptedBody(c, t), {"sessionID", "generation", "transcriptDigest"})
  {
    hide Digest;
    var o := AcceptedBody(c, t);
    assert o.Keys == {"sessionID", "generation", "transcriptDigest"};
    assert o["sessionID"] == Str(t.sessionID) && o["generation"] == Str(t.generation);
  }

  // ---- The exchange ----

  /** One connect: who, where, the fresh values drawn, and what each side's clocks read. */
  datatype Setup = Setup(
    identity: PublicIdentity, endpoint: Endpoint, clientNonce: Bytes, generation: string, signature: Bytes,
    serverStart: int, clientStart: int,
    atHello: ServerInputs, atChallenge: ClientInputs, atSigned: ClientInputs, atProof: ServerInputs, atAccept: ClientInputs)
  {
    function Transcript(): Transcript
      requires 0 < atHello.wall < FAR - LIFETIME_MILLISECONDS
    {
      ChannelCodec.Transcript(PROFILE, endpoint, identity, clientNonce, atHello.serverNonce, atHello.sessionID, generation,
                              DIRECTION, atHello.wall, atHello.wall + LIFETIME_MILLISECONDS)
    }
  }

  ghost predicate WellDrawn(c: Crypto, u: Setup) {
    && u.identity.Valid() && |u.clientNonce| == 32 && |u.atHello.serverNonce| == 32 && |u.signature| == 64
    && IsUUID(u.generation) && IsUUID(u.atHello.sessionID)
    && 0 < u.atHello.wall < FAR - LIFETIME_MILLISECONDS
    && SigningFits(c, u.Transcript())
    && u.atHello.serverNonce != u.atProof.serverNonce
    // an ideal signature: it verifies for what was signed and nothing else
    && (forall key, message :: c.verify(key, message, u.signature) <==>
          key == u.identity.publicKey && message == ChannelSigningData(c, u.Transcript()).value)
  }

  predicate FramesFit(c: Crypto, u: Setup)
    requires 0 < u.atHello.wall < FAR - LIFETIME_MILLISECONDS && ChannelSigningData(c, u.Transcript()).Ok?
  {
    var t := u.Transcript();
    && |ChannelEnvelope(HELLO, HelloBody(u.identity, u.clientNonce))| <= MAXIMUM_ENVELOPE
    && |ChannelEnvelope(CHALLENGE, ChallengeBody(t, ChannelSigningData(c, t).value))| <= MAXIMUM_ENVELOPE
    && |ChannelEnvelope(PROOF, ProofBody(t.sessionID, t.generation, u.signature))| <= MAXIMUM_ENVELOPE
    && |ChannelEnvelope(ACCEPTED, AcceptedBody(c, t))| <= MAXIMUM_ENVELOPE
  }

  /** Within ten seconds on each side's own clock, and wall clocks that agree closely enough. */
  predicate Prompt(u: Setup) {
    var issued := u.atHello.wall;
    && u.atHello.mono < u.serverStart + PRE_AUTH_DEADLINE
    && u.atProof.mono < u.serverStart + PRE_AUTH_DEADLINE && u.atProof.monoAfter < u.serverStart + PRE_AUTH_DEADLINE
    && u.atChallenge.mono < u.clientStart + PRE_AUTH_DEADLINE && u.atSigned.mono < u.clientStart + PRE_AUTH_DEADLINE
    && u.atAccept.mono < u.clientStart + PRE_AUTH_DEADLINE
    && u.atChallenge.wall - 30_000 < issued <= u.atChallenge.wall + 5_000
    && issued - 300_000 <= u.atSigned.wall <= issued + CHALLENGE_MILLISECONDS
    && u.atProof.wall < issued + CHALLENGE_MILLISECONDS && u.atProof.wallAfter < issued + LIFETIME_MILLISECONDS
    && u.atAccept.wall < issued + LIFETIME_MILLISECONDS
    && u.atProof.recheckPasses
  }

  lemma ServerDispatch(c: Crypto, s: Server, frame: Bytes, name: string, body: map<string, Json>, i: ServerInputs)
    requires OpenChannelEnvelope(frame) == Ok((name, body)) && i.mono < s.deadline
    requires (name == HELLO && s.phase == Unauthenticated) || (name == PROOF && s.phase == ChallengeIssued)
    ensures ServerReceive(c, s, frame, i) == if name == HELLO then OnHello(c, s, body, i) else OnProof(c, s, body, i)
  {
    hide OpenChannelEnvelope;
    hide OnHello;
    hide OnProof;
  }

  lemma HelloHandled(c: Crypto, u: Setup)
    requires WellDrawn(c, u)
    ensures var t := u.Transcript();
            var data := ChannelSigningData(c, t).value;
            var s := NewServer(u.endpoint, u.generation, u.serverStart);
            OnHello(c, s, HelloBody(u.identity, u.clientNonce), u.atHello)
            == (s.(pending := Some(t), data := data, phase := ChallengeIssued),
                Ok(ChannelEnvelope(CHALLENGE, ChallengeBody(t, data))))
  {
    hide ChannelSigningData;
    hide ChannelEnvelope;
    hide ChallengeBody;
    hide IsUUID;
    HelloRead(u.identity, u.clientNonce);
    hide ReadHello;
    hide HelloBody;
  }

  lemma HelloAnswered(c: Crypto, u: Setup)
    requires WellDrawn(c, u) && FramesFit(c, u) && Prompt(u)
    ensures var t := u.Transcript();
            var data := ChannelSigningData(c, t).value;
            ServerReceive(c, NewServer(u.endpoint, u.generation, u.serverStart),
                          ChannelEnvelope(HELLO, HelloBody(u.identity, u.clientNonce)), u.atHello)
            == (NewServer(u.endpoint, u.generation, u.serverStart).(pending := Some(t), data := data, phase := ChallengeIssued),
                Ok(ChannelEnvelope(CHALLENGE, ChallengeBody(t, data))))
  {
    hide ChannelSigningData;
    hide SigningFits;
    hide OpenChannelEnvelope;
    hide ChannelEnvelope;
    hide HelloBody;
    hide OnHello;
    hide ServerReceive;
    hide IsUUID;
    var body := HelloBody(u.identity, u.clientNonce);
    EnvelopeOpens(HELLO, body);
    ServerDispatch(c, NewServer(u.endpoint, u.generation, u.serverStart), ChannelEnvelope(HELLO, body), HELLO, body, u.atHello);
    HelloHandled(c, u);
  }

  function Awaiting(u: Setup): Client {
    Client(u.identity, u.endpoint, u.clientNonce, HelloSent, None, u.clientStart + PRE_AUTH_DEADLINE, None, None)
  }

  lemma ClientBegins(c: Crypto, k: Client, frame: Bytes, body: map<string, Json>, t: Transcript, data: Bytes, i: ClientInputs)
    requires OpenChannelEnvelope(frame) == Ok((CHALLENGE, body)) && ReadChallenge(body) == Ok((t, data))
    requires i.mono < k.deadline && k.phase == HelloSent
    requires ChannelSigningData(c, t) == Ok(data) && Matches(k, t, i.wall)
    requires ValidateSigningChallenge(data, k.identity, i.wall).Ok?
    ensures BeginChallenge(c, k, frame, i) == (k.(phase := Signing, transcript := Some(t), offered := Some(data)), Ok(data))
  {
    hide OpenChannelEnvelope;
    hide ReadChallenge;
    hide ChannelSigningData;
    hide Matches;
    hide ValidateSigningChallenge;
  }

  lemma ChallengeMatches(c: Crypto, u: Setup)
    requires WellDrawn(c, u) && Prompt(u)
    ensures var t := u.Transcript();
            && ChannelSigningData(c, t).Ok? && Matches(Awaiting(u), t, u.atChallenge.wall)
            && ValidateSigningChallenge(ChannelSigningData(c, t).value, u.identity, u.atChallenge.wall).Ok?
  {
    hide ValidateSigningChallenge;
    hide IsUUID;
    SigningFitsData(c, u.Transcript());
    hide SigningFits;
    hide ChannelSigningData;
    SigningDataValidated(c, u.Transcript(), u.atChallenge.wall);
  }

  lemma ChallengeTaken(c: Crypto, u: Setup)
    requires WellDrawn(c, u) && FramesFit(c, u) && Prompt(u)
    ensures var t := u.Transcript();
            var data := ChannelSigningData(c, t).value;
            BeginChallenge(c, Awaiting(u), ChannelEnvelope(CHALLENGE, ChallengeBody(t, data)), u.atChallenge)
            == (Awaiting(u).(phase := Signing, transcript := Some(t), offered := Some(data)), Ok(data))
  {
    hide OpenChannelEnvelope;
    hide ChannelEnvelope;
    hide ReadChallenge;
    hide ChallengeBody;
    hide BeginChallenge;
    hide ValidateSigningChallenge;
    hide SigningFits;
    hide ChannelSigningData;
    hide IsUUID;
    ChallengeMatches(c, u);
    hide Matches;
    var t := u.Transcript();
    var data := ChannelSigningData(c, t).value;
    var body := ChallengeBody(t, data);
    EnvelopeOpens(CHALLENGE, body);
    ChallengeBodyRead(t, data);
    ClientBegins(c, Awaiting(u), ChannelEnvelope(CHALLENGE, body), body, t, data, u.atChallenge);
  }

  lemma SigningFitsData(c: Crypto, t: Transcript)
    requires SigningFits(c, t)
    ensures ChannelSigningData(c, t).Ok?
  {
  }

  lemma ChallengeSigned(c: Crypto, u: Setup)
    requires WellDrawn(c, u) && FramesFit(c, u) && Prompt(u)
    ensures var t := u.Transcript();
            var data := ChannelSigningData(c, t).value;
            FinishChallenge(c, Awaiting(u).(phase := Signing, transcript := Some(t), offered := Some(data)), u.signature, u.atSigned)
            == (Awaiting(u).(phase := ProofSent, transcript := Some(t)),
                Ok(ChannelEnvelope(PROOF, ProofBody(t.sessionID, t.generation, u.signature))))
  {
    SigningDataValidated(c, u.Transcript(), u.atSigned.wall);
    hide ValidateSigningChallenge;
    hide SigningFits;
    hide ChannelSigningData;
    hide ChannelEnvelope;
    hide IsUUID;
  }

  /** The server while it waits for the proof. */
  function Challenged(c: Crypto, u: Setup): Server
    requires 0 < u.atHello.wall < FAR - LIFETIME_MILLISECONDS && ChannelSigningData(c, u.Transcript()).Ok?
  {
    NewServer(u.endpoint, u.generation, u.serverStart)
      .(pending := Some(u.Transcript()), data := ChannelSigningData(c, u.Transcript()).value, phase := ChallengeIssued)
  }

  lemma ProofPasses(c: Crypto, u: Setup)
    requires WellDrawn(c, u) && Prompt(u)
    ensures var t := u.Transcript();
            && ChannelSigningData(c, t).Ok?
            && ProofVerdict(c, Challenged(c, u), t, ProofBody(t.sessionID, t.generation, u.signature), u.atProof) == ""
  {
    hide ChannelSigningData;
    hide IsUUID;
    var t := u.Transcript();
    SigningFitsData(c, t);
    hide SigningFits;
    ProofRead(t.sessionID, t.generation, u.signature);
    hide ProofBody;
    hide Unbase64;
    hide TextOf;
  }

  lemma ProofTaken(c: Crypto, s: Server, t: Transcript, body: map<string, Json>, i: ServerInputs)
    requires s.pending == Some(t) && t.endpoint == s.endpoint && t.generation == s.generation
    requires ProofVerdict(c, s, t, body, i) == ""
    ensures OnProof(c, s, body, i) ==
            (s.(pending := None, data := [], phase := Authenticated, admitted := Some(AdmissionFor(c, t))),
             Ok(ChannelEnvelope(ACCEPTED, AcceptedBody(c, t))))
  {
    hide ProofVerdict;
    hide Digest;
    hide ChannelEnvelope;
    hide AcceptedBody;
  }

  lemma ProofAdmitted(c: Crypto, u: Setup)
    requires WellDrawn(c, u) && FramesFit(c, u) && Prompt(u)
    ensures var t := u.Transcript();
            ServerReceive(c, Challenged(c, u), ChannelEnvelope(PROOF, ProofBody(t.sessionID, t.generation, u.signature)), u.atProof)
            == (Challenged(c, u).(pending := None, data := [], phase := Authenticated, admitted := Some(AdmissionFor(c, t))),
                Ok(ChannelEnvelope(ACCEPTED, AcceptedBody(c, t))))
  {
    hide SigningFits;
    hide ChannelSigningData;
    hide IsUUID;
    hide OnProof;
    hide ProofVerdict;
    hide ProofBody;
    hide OpenChannelEnvelope;
    hide ChannelEnvelope;
    hide ServerReceive;
    hide AcceptedBody;
    hide AdmissionFor;
    var t := u.Transcript();
    ProofPasses(c, u);
    var s := Challenged(c, u);
    var body := ProofBody(t.sessionID, t.generation, u.signature);
    EnvelopeOpens(PROOF, body);
    ServerDispatch(c, s, ChannelEnvelope(PROOF, body), PROOF, body, u.atProof);
    ProofTaken(c, s, t, body, u.atProof);
    assert PROOF != HELLO;
  }

  lemma AcceptanceTaken(c: Crypto, u: Setup)
    requires WellDrawn(c, u) && FramesFit(c, u) && Prompt(u)
    ensures var t := u.Transcript();
            var k := Awaiting(u).(phase := ProofSent, transcript := Some(t));
            ClientAccept(c, k, ChannelEnvelope(ACCEPTED, AcceptedBody(c, t)), u.atAccept)
            == (k.(phase := Authenticated, admitted := Some(AdmissionFor(c, t))), Ok([]))
  {
    hide SigningFits;
    hide ChannelSigningData;
    hide IsUUID;
    hide ClientAccept;
    hide OpenChannelEnvelope;
    hide ChannelEnvelope;
    hide Acknowledges;
    hide AcceptedBody;
    hide AdmissionFor;
    hide ExactKeys;
    var t := u.Transcript();
    EnvelopeOpens(ACCEPTED, AcceptedBody(c, t));
    AcceptedRead(c, t);
    ClientAdmits(c, Awaiting(u).(phase := ProofSent, transcript := Some(t)), ChannelEnvelope(ACCEPTED, AcceptedBody(c, t)), AcceptedBody(c, t), u.atAccept);
  }

  lemma ClientAdmits(c: Crypto, k: Client, frame: Bytes, body: map<string, Json>, i: ClientInputs)
    requires OpenChannelEnvelope(frame) == Ok((ACCEPTED, body)) && i.mono < k.deadline && k.phase == ProofSent
    requires k.transcript.Some? && i.wall < k.transcript.value.expiresAt
    requires ExactKeys(body, {"sessionID", "generation", "transcriptDigest"}) && Acknowledges(c, k.transcript.value, body)
    ensures ClientAccept(c, k, frame, i) == (k.(phase := Authenticated, admitted := Some(AdmissionFor(c, k.transcript.value))), Ok([]))
  {
    hide OpenChannelEnvelope;
    hide Acknowledges;
    hide AdmissionFor;
    hide ExactKeys;
  }

  // ---- As a schedule ----

  function Schedule(c: Crypto, u: Setup): seq<Event>
    requires 0 < u.atHello.wall < FAR - LIFETIME_MILLISECONDS && ChannelSigningData(c, u.Transcript()).Ok?
  {
    var t := u.Transcript();
    var data := ChannelSigningData(c, t).value;
    [OpenServer(0, u.endpoint, u.generation, u.serverStart),
     OpenClient(0, u.identity, u.endpoint, u.clientNonce, u.clientStart),
     SayHello(0),
     ToServer(0, ChannelEnvelope(HELLO, HelloBody(u.identity, u.clientNonce)), u.atHello),
     Offer(0, ChannelEnvelope(CHALLENGE, ChallengeBody(t, data)), u.atChallenge),
     Sign(0),
     Finish(0, u.signature, u.atSigned),
     ToServer(0, ChannelEnvelope(PROOF, ProofBody(t.sessionID, t.generation, u.signature)), u.atProof),
     Accept(0, ChannelEnvelope(ACCEPTED, AcceptedBody(c, t)), u.atAccept)]
  }

  lemma HelloUnforged(c: Crypto, honest: set<Bytes>, w: World, body: map<string, Json>)
    requires |ChannelEnvelope(HELLO, body)| <= MAXIMUM_ENVELOPE
    ensures Unforged(c, honest, w, ChannelEnvelope(HELLO, body))
  {
    EnvelopeOpens(HELLO, body);
    hide OpenChannelEnvelope;
    hide ChannelEnvelope;
    assert HELLO != PROOF;
  }

  lemma ProofUnforged(c: Crypto, honest: set<Bytes>, w: World, u: Setup)
    requires WellDrawn(c, u) && FramesFit(c, u)
    requires (u.identity.publicKey, ChannelSigningData(c, u.Transcript()).value) in w.signed
    ensures var t := u.Transcript();
            Unforged(c, honest, w, ChannelEnvelope(PROOF, ProofBody(t.sessionID, t.generation, u.signature)))
  {
    hide SigningFits;
    hide ChannelSigningData;
    hide IsUUID;
    var t := u.Transcript();
    EnvelopeOpens(PROOF, ProofBody(t.sessionID, t.generation, u.signature));
    hide OpenChannelEnvelope;
    hide ChannelEnvelope;
    ProofRead(t.sessionID, t.generation, u.signature);
    hide ProofBody;
    hide Unbase64;
  }

  lemma {:induction false} TraceRuns(c: Crypto, honest: set<Bytes>, ws: seq<World>, es: seq<Event>)
    requires |ws| == |es| + 1
    requires forall i :: 0 <= i < |es| ==> Enabled(c, honest, ws[i], es[i]) && ws[i + 1] == Next(c, ws[i], es[i])
    ensures Run(c, honest, ws[0], es, ws[|es|])
  {
    hide Enabled;
    hide Next;
    if es != [] {
      TraceRuns(c, honest, ws[1..], es[1..]);
    }
  }

  /** Both ends open and the hello on its way. */
  lemma Opening(c: Crypto, honest: set<Bytes>, u: Setup) returns (ws: seq<World>)
    requires WellDrawn(c, u) && ChannelSigningData(c, u.Transcript()).Ok?
    ensures |ws| == 4 && ws[0] == START
    ensures forall i :: 0 <= i < 3 ==> Enabled(c, honest, ws[i], Schedule(c, u)[i]) && ws[i + 1] == Next(c, ws[i], Schedule(c, u)[i])
    ensures Greeted(u, ws[3])
  {
    hide ChannelSigningData;
    hide SigningFits;
    hide IsUUID;
    hide ChannelEnvelope;
    hide HelloBody;
    hide ChallengeBody;
    hide ProofBody;
    hide AcceptedBody;
    var es := Schedule(c, u);
    var w1 := Next(c, START, es[0]);
    var w2 := Next(c, w1, es[1]);
    var w3 := Next(c, w2, es[2]);
    ws := [START, w1, w2, w3];
  }

  ghost predicate Greeted(u: Setup, w: World) {
    && w.servers == map[0 := NewServer(u.endpoint, u.generation, u.serverStart)]
    && w.clients == map[0 := Awaiting(u)] && w.signed == {} && w.serverNonces == {}
  }

  /** Up to the signature: the client holds the transcript and its key has signed it. */
  lemma FirstHalf(c: Crypto, honest: set<Bytes>, u: Setup, w3: World) returns (ws: seq<World>)
    requires WellDrawn(c, u) && FramesFit(c, u) && Prompt(u) && ChannelSigningData(c, u.Transcript()).Ok?
    requires Greeted(u, w3)
    ensures |ws| == 4 && ws[0] == w3
    ensures forall i :: 0 <= i < 3 ==> Enabled(c, honest, ws[i], Schedule(c, u)[3 + i]) && ws[i + 1] == Next(c, ws[i], Schedule(c, u)[3 + i])
    ensures var t, w := u.Transcript(), ws[3];
            && w.servers == map[0 := Challenged(c, u)] && w.serverNonces == {u.atHello.serverNonce}
            && w.clients == map[0 := Awaiting(u).(phase := Signing, transcript := Some(t), offered := Some(ChannelSigningData(c, t).value))]
            && w.signed == {(u.identity.publicKey, ChannelSigningData(c, t).value)}
  {
    hide SigningFits;
    hide ChannelSigningData;
    hide IsUUID;
    hide ServerReceive;
    hide BeginChallenge;
    hide FinishChallenge;
    hide ClientAccept;
    hide ChannelEnvelope;
    hide HelloBody;
    hide ChallengeBody;
    hide ProofBody;
    hide AcceptedBody;
    hide AdmissionFor;
    hide Unforged;
    HelloAnswered(c, u);
    ChallengeTaken(c, u);
    HelloUnforged(c, honest, w3, HelloBody(u.identity, u.clientNonce));
    var es := Schedule(c, u);
    var w4 := Next(c, w3, es[3]);
    var w5 := Next(c, w4, es[4]);
    var w6 := Next(c, w5, es[5]);
    ws := [w3, w4, w5, w6];
  }

  lemma SecondHalf(c: Crypto, honest: set<Bytes>, u: Setup, w6: World) returns (ws: seq<World>)
    requires WellDrawn(c, u) && FramesFit(c, u) && Prompt(u) && ChannelSigningData(c, u.Transcript()).Ok?
    requires var t := u.Transcript();
             && w6.servers == map[0 := Challenged(c, u)] && w6.serverNonces == {u.atHello.serverNonce}
             && w6.clients == map[0 := Awaiting(u).(phase := Signing, transcript := Some(t), offered := Some(ChannelSigningData(c, t).value))]
             && w6.signed == {(u.identity.publicKey, ChannelSigningData(c, t).value)}
    ensures |ws| == 4 && ws[0] == w6
    ensures forall i :: 0 <= i < 3 ==> Enabled(c, honest, ws[i], Schedule(c, u)[6 + i]) && ws[i + 1] == Next(c, ws[i], Schedule(c, u)[6 + i])
    ensures var w := ws[3];
            && 0 in w.servers && 0 in w.clients
            && w.servers[0].phase == Authenticated && w.clients[0].phase == Authenticated
            && w.servers[0].admitted == w.clients[0].admitted == Some(AdmissionFor(c, u.Transcript()))
  {
    hide SigningFits;
    hide ChannelSigningData;
    hide IsUUID;
    hide ServerReceive;
    hide BeginChallenge;
    hide FinishChallenge;
    hide ClientAccept;
    hide ChannelEnvelope;
    hide HelloBody;
    hide ChallengeBody;
    hide ProofBody;
    hide AcceptedBody;
    hide AdmissionFor;
    hide Unforged;
    ChallengeSigned(c, u);
    ProofAdmitted(c, u);
    AcceptanceTaken(c, u);
    var es := Schedule(c, u);
    var w7 := Next(c, w6, es[6]);
    ProofUnforged(c, honest, w7, u);
    var w8 := Next(c, w7, es[7]);
    var w9 := Next(c, w8, es[8]);
    ws := [w6, w7, w8, w9];
  }

  /** Three stretches of three steps, end to end. */
  lemma Spliced(c: Crypto, honest: set<Bytes>, es: seq<Event>, a: seq<World>, b: seq<World>, d: seq<World>) returns (ws: seq<World>)
    requires |es| == 9 && |a| == |b| == |d| == 4 && a[3] == b[0] && b[3] == d[0]
    requires forall i :: 0 <= i < 3 ==> Enabled(c, honest, a[i], es[i]) && a[i + 1] == Next(c, a[i], es[i])
    requires forall i :: 0 <= i < 3 ==> Enabled(c, honest, b[i], es[3 + i]) && b[i + 1] == Next(c, b[i], es[3 + i])
    requires forall i :: 0 <= i < 3 ==> Enabled(c, honest, d[i], es[6 + i]) && d[i + 1] == Next(c, d[i], es[6 + i])
    ensures |ws| == 10 && ws[0] == a[0] && ws[9] == d[3]
    ensures forall i :: 0 <= i < 9 ==> Enabled(c, honest, ws[i], es[i]) && ws[i + 1] == Next(c, ws[i], es[i])
  {
    hide Enabled;
    hide Next;
    ws := [a[0], a[1], a[2], b[0], b[1], b[2], d[0], d[1], d[2], d[3]];
  }

  /** The schedule is one the network allows, and it ends with both sides holding the same admission. */
  lemma HonestRunAdmits(c: Crypto, honest: set<Bytes>, u: Setup) returns (w: World)
    requires WellDrawn(c, u) && FramesFit(c, u) && Prompt(u)
    ensures ChannelSigningData(c, u.Transcript()).Ok? && Run(c, honest, START, Schedule(c, u), w)
    ensures 0 in w.servers && 0 in w.clients
    ensures w.servers[0].phase == Authenticated && w.clients[0].phase == Authenticated
    ensures w.servers[0].admitted == w.clients[0].admitted == Some(AdmissionFor(c, u.Transcript()))
  {
    SigningFitsData(c, u.Transcript());
    hide Enabled;
    hide Next;
    hide ChannelSigningData;
    hide SigningFits;
    hide IsUUID;
    hide AdmissionFor;
    hide FramesFit;
    hide Prompt;
    hide ChannelEnvelope;
    hide HelloBody;
    hide ChallengeBody;
    hide ProofBody;
    hide AcceptedBody;
    hide Greeted;
    var opening := Opening(c, honest, u);
    var first := FirstHalf(c, honest, u, opening[3]);
    var second := SecondHalf(c, honest, u, first[3]);
    hide WellDrawn;
    var es := Schedule(c, u);
    var ws := Spliced(c, honest, es, opening, first, second);
    TraceRuns(c, honest, ws, es);
    w := ws[9];
  }
}
