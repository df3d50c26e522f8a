/** Every run of many servers and clients over a network that delivers whatever bytes it likes. */
module Handshake {
  import opened Prelude
  import opened JsonCodec
  import opened ChannelCodec
  import opened Channel
  import opened Text

  /** All connections so far. `issued` remembers each server's challenge, `signed` what honest keys signed. */
  datatype World = World(
    servers: map<nat, Server>, clients: map<nat, Client>, issued: map<nat, Transcript>,
    signed: set<(Bytes, Bytes)>, serverNonces: set<Bytes>, clientNonces: set<Bytes>)

  const START := World(map[], map[], map[], {}, {}, {})

  datatype Event =
    | OpenServer(sid: nat, endpoint: Endpoint, generation: string, mono: int)
    | OpenClient(cid: nat, identity: PublicIdentity, chosen: Endpoint, nonce: Bytes, mono: int)
    | SayHello(cid: nat)
    | ToServer(sid: nat, frame: Bytes, server: ServerInputs)
    | Offer(cid: nat, frame: Bytes, client: ClientInputs)
    | Sign(cid: nat)
    | Finish(cid: nat, signature: Bytes, client: ClientInputs)
    | Accept(cid: nat, frame: Bytes, client: ClientInputs)

  /** The signature a proof frame carries. */
  function CarriedSignature(frame: Bytes): Option<Bytes> {
    match OpenChannelEnvelope(frame)
    case Err(_) => None
    case Ok((name, body)) =>
      if name == PROOF && "signature" in body && Unbase64(body["signature"]).Ok? then
        Some(Unbase64(body["signature"]).value)
      else None
  }

  /** No frame carries an honest key's signature of a message that key has not signed. */
  ghost predicate Unforged(c: Crypto, honest: set<Bytes>, w: World, frame: Bytes) {
    forall p: PublicIdentity, message ::
      (CarriedSignature(frame).Some? && p.publicKey in honest
       && VerifySignature(c, CarriedSignature(frame).value, message, p)) ==> (p.publicKey, message) in w.signed
  }

  /** What may happen next: identifiers and nonces are new, honest signatures come only from Sign. */
  ghost predicate Enabled(c: Crypto, honest: set<Bytes>, w: World, e: Event) {
    match e
    case OpenServer(sid, _, _, _) => sid !in w.servers
    case OpenClient(cid, identity, _, nonce, _) => cid !in w.clients && identity.Valid() && nonce !in w.clientNonces
    case SayHello(cid) => cid in w.clients
    case ToServer(sid, frame, i) => sid in w.servers && Unforged(c, honest, w, frame) && i.serverNonce !in w.serverNonces
    case Offer(cid, _, _) => cid in w.clients
    case Sign(cid) => cid in w.clients && w.clients[cid].phase == Signing && w.clients[cid].offered.Some?
    case Finish(cid, _, _) => cid in w.clients
    case Accept(cid, _, _) => cid in w.clients
  }

  predicate IsClientEvent(e: Event) {
    e.SayHello? || e.Offer? || e.Finish? || e.Accept?
  }

  function StepClient(c: Crypto, k: Client, e: Event): Client
    requires IsClientEvent(e)
  {
    match e
    case SayHello(_) => ClientHello(k).0
    case Offer(_, frame, i) => BeginChallenge(c, k, frame, i).0
    case Finish(_, signature, i) => FinishChallenge(c, k, signature, i).0
    case Accept(_, frame, i) => ClientAccept(c, k, frame, i).0
  }

  function Next(c: Crypto, w: World, e: Event): World {
    match e
    case OpenServer(sid, endpoint, generation, mono) =>
      w.(servers := w.servers[sid := NewServer(endpoint, generation, mono)])
    case OpenClient(cid, identity, chosen, nonce, mono) =>
      var k := NewClient(identity, chosen, nonce, mono);
      if k.Err? then w
      else w.(clients := w.clients[cid := k.value], clientNonces := w.clientNonces + {nonce})
    case ToServer(sid, frame, i) =>
      if sid !in w.servers then w
      else
        var s := ServerReceive(c, w.servers[sid], frame, i).0;
        w.(servers := w.servers[sid := s], serverNonces := w.serverNonces + {i.serverNonce},
           issued := if s.pending.Some? then w.issued[sid := s.pending.value] else w.issued)
    case Sign(cid) =>
      if cid !in w.clients || w.clients[cid].offered.None? then w
      else w.(signed := w.signed + {(w.clients[cid].identity.publicKey, w.clients[cid].offered.value)})
    case _ =>
      if e.cid !in w.clients then w
      else w.(clients := w.clients[e.cid := StepClient(c, w.clients[e.cid], e)])
  }

  ghost predicate Run(c: Crypto, honest: set<Bytes>, from: World, events: seq<Event>, to: World)
    decreases |events|
  {
    if events == [] then from == to
    else Enabled(c, honest, from, events[0]) && Run(c, honest, Next(c, from, events[0]), events[1..], to)
  }

  // ---- What every run keeps ----

  /** The client took exactly this challenge, for its own identity, endpoint and nonce. */
  ghost predicate TookChallenge(c: Crypto, k: Client, t: Transcript) {
    && t.identity == k.identity && t.endpoint == k.endpoint && t.clientNonce == k.clientNonce
    && ChannelSigningData(c, t).Ok?
  }

  ghost predicate ClientsSound(c: Crypto, w: World) {
    forall cid :: cid in w.clients ==>
      var k := w.clients[cid];
      && k.clientNonce in w.clientNonces
      && (k.phase == New || k.phase == HelloSent ==> k.transcript.None?)
      && (k.transcript.Some? ==> TookChallenge(c, k, k.transcript.value))
      && (k.offered.Some? ==> k.transcript.Some? && ChannelSigningData(c, k.transcript.value) == Ok(k.offered.value))
  }

  ghost predicate NoncesDistinct(w: World) {
    forall i, j :: i in w.clients && j in w.clients && i != j ==> w.clients[i].clientNonce != w.clients[j].clientNonce
  }

  ghost predicate SignedByClient(c: Crypto, w: World, key: Bytes, message: Bytes, cid: nat) {
    && cid in w.clients && w.clients[cid].transcript.Some? && w.clients[cid].identity.publicKey == key
    && ChannelSigningData(c, w.clients[cid].transcript.value) == Ok(message)
  }

  ghost predicate SignaturesSound(c: Crypto, w: World) {
    forall key, message :: (key, message) in w.signed ==> exists cid :: SignedByClient(c, w, key, message, cid)
  }

  /** How a server stands to the one challenge it may have issued. */
  ghost predicate ServerSound(c: Crypto, w: World, honest: set<Bytes>, sid: nat)
    requires sid in w.servers
  {
    var s := w.servers[sid];
    && (s.phase == Unauthenticated ==> sid !in w.issued && s.pending.None?)
    && (s.admitted.Some? ==> s.phase == Authenticated || s.phase == Closed)
    && (sid in w.issued ==>
          && w.issued[sid].serverNonce in w.serverNonces
          && w.issued[sid].endpoint == s.endpoint && w.issued[sid].generation == s.generation)
    && (s.pending.Some? ==> sid in w.issued && s.pending.value == w.issued[sid]
                            && ChannelSigningData(c, w.issued[sid]) == Ok(s.data))
    && (s.admitted.Some? ==>
          && sid in w.issued && s.admitted == Some(AdmissionFor(c, w.issued[sid]))
          && ChannelSigningData(c, w.issued[sid]).Ok?
          && (w.issued[sid].identity.publicKey in honest ==>
                (w.issued[sid].identity.publicKey, ChannelSigningData(c, w.issued[sid]).value) in w.signed))
  }

  ghost predicate ServersSound(c: Crypto, honest: set<Bytes>, w: World) {
    && w.issued.Keys <= w.servers.Keys
    && (forall sid :: sid in w.servers ==> ServerSound(c, w, honest, sid))
    && (forall i, j :: i in w.issued && j in w.issued && i != j ==> w.issued[i].serverNonce != w.issued[j].serverNonce)
  }

  ghost predicate Sound(c: Crypto, honest: set<Bytes>, w: World) {
    ClientsSound(c, w) && NoncesDistinct(w) && SignaturesSound(c, w) && ServersSound(c, honest, w)
  }

  // ---- One step ----

  lemma ServerStep(c: Crypto, s: Server, frame: Bytes, i: ServerInputs)
    ensures var s' := ServerReceive(c, s, frame, i).0;
      && s'.endpoint == s.endpoint && s'.generation == s.generation && s'.phase != Unauthenticated
      && (s'.pending.Some? ==>
            || (s'.pending == s.pending && s'.data == s.data)
            || (s.phase == Unauthenticated && s'.pending.value.serverNonce == i.serverNonce
                && s'.pending.value.endpoint == s.endpoint && s'.pending.value.generation == s.generation
                && ChannelSigningData(c, s'.pending.value) == Ok(s'.data)))
      && (s'.phase == Authenticated ==>
            && s'.pending.None? && s.pending.Some?
            && var t := s.pending.value;
               && s'.admitted == Some(Admission(t.identity, s.endpoint, t.sessionID, s.generation, Digest(c, t), t.expiresAt))
               && CarriedSignature(frame).Some?
               && VerifySignature(c, CarriedSignature(frame).value, s.data, t.identity))
      && (s'.phase != Authenticated ==>
            && s'.admitted == s.admitted
            && (s'.phase == Closed || (s'.phase == ChallengeIssued && s.phase == Unauthenticated)))
  {
    hide OpenChannelEnvelope;
    hide ChannelSigningData;
    hide ReadHello;
    hide ChannelEnvelope;
    hide Digest;
  }

  ghost predicate ClientMoves(c: Crypto, k: Client, k': Client) {
    && k'.identity == k.identity && k'.endpoint == k.endpoint && k'.clientNonce == k.clientNonce
    && (k'.transcript != k.transcript ==>
          && k.phase == HelloSent && k'.phase == Signing && k'.transcript.Some? && k'.offered.Some?
          && TookChallenge(c, k', k'.transcript.value)
          && ChannelSigningData(c, k'.transcript.value) == Ok(k'.offered.value))
    && (k'.offered.Some? ==> k'.offered == k.offered || k'.transcript != k.transcript)
    && (k'.phase == New || k'.phase == HelloSent ==> k.phase == New && k'.transcript == k.transcript)
  }

  lemma ClientStep(c: Crypto, k: Client, e: Event)
    requires IsClientEvent(e)
    requires k.phase == New || k.phase == HelloSent ==> k.transcript.None? && k.offered.None?
    ensures ClientMoves(c, k, StepClient(c, k, e))
  {
    hide ClientHello;
    hide BeginChallenge;
    hide FinishChallenge;
    hide ClientAccept;
    hide ClientMoves;
    match e
    case SayHello(_) => HelloMoves(c, k);
    case Offer(_, frame, i) => ChallengeMoves(c, k, frame, i);
    case Finish(_, signature, i) => FinishMoves(c, k, signature, i);
    case Accept(_, frame, i) => AcceptMoves(c, k, frame, i);
  }

  lemma HelloMoves(c: Crypto, k: Client)
    ensures ClientMoves(c, k, ClientHello(k).0)
  {
    hide ChannelSigningData;
    hide ChannelEnvelope;
  }

  lemma ChallengeMoves(c: Crypto, k: Client, frame: Bytes, i: ClientInputs)
    requires k.phase == New || k.phase == HelloSent ==> k.transcript.None? && k.offered.None?
    ensures ClientMoves(c, k, BeginChallenge(c, k, frame, i).0)
  {
    hide OpenChannelEnvelope;
    hide ChannelSigningData;
    hide ReadChallenge;
    hide ValidateSigningChallenge;
    hide IsUUID;
  }

  lemma FinishMoves(c: Crypto, k: Client, signature: Bytes, i: ClientInputs)
    ensures ClientMoves(c, k, FinishChallenge(c, k, signature, i).0)
  {
    hide ChannelSigningData;
    hide ChannelEnvelope;
    hide ValidateSigningChallenge;
  }

  lemma AcceptMoves(c: Crypto, k: Client, frame: Bytes, i: ClientInputs)
    ensures ClientMoves(c, k, ClientAccept(c, k, frame, i).0)
  {
    hide OpenChannelEnvelope;
    hide ChannelSigningData;
    hide Acknowledges;
  }

  lemma SignaturesKept(c: Crypto, w: World, w': World)
    requires SignaturesSound(c, w) && w'.signed == w.signed && w.clients.Keys <= w'.clients.Keys
    requires forall cid :: cid in w.clients && w.clients[cid].transcript.Some? ==>
               w'.clients[cid].transcript == w.clients[cid].transcript && w'.clients[cid].identity == w.clients[cid].identity
    ensures SignaturesSound(c, w')
  {
    forall key, message | (key, message) in w'.signed
      ensures exists cid :: SignedByClient(c, w', key, message, cid)
    {
      var cid :| SignedByClient(c, w, key, message, cid);
      assert SignedByClient(c, w', key, message, cid);
    }
  }

  lemma ServersKept(c: Crypto, honest: set<Bytes>, w: World, w': World)
    requires ServersSound(c, honest, w) && w'.servers == w.servers && w'.issued == w.issued
    requires w'.serverNonces == w.serverNonces && w.signed <= w'.signed
    ensures ServersSound(c, honest, w')
  {
    hide ChannelSigningData;
    assert forall sid :: sid in w.servers ==> ServerSound(c, w, honest, sid) ==> ServerSound(c, w', honest, sid);
  }

  lemma ClientsKept(c: Crypto, w: World, cid: nat, k: Client)
    requires ClientsSound(c, w) && NoncesDistinct(w) && cid in w.clients && ClientMoves(c, w.clients[cid], k)
    ensures ClientsSound(c, w.(clients := w.clients[cid := k])) && NoncesDistinct(w.(clients := w.clients[cid := k]))
  {
    hide ChannelSigningData;
  }

  lemma ClientEventKeeps(c: Crypto, honest: set<Bytes>, w: World, e: Event)
    requires Sound(c, honest, w) && Enabled(c, honest, w, e) && IsClientEvent(e)
    ensures Sound(c, honest, Next(c, w, e))
  {
    ClientMoved(c, honest, w, e);
    hide ChannelSigningData;
    hide Next;
    hide Enabled;
    hide StepClient;
    hide ServersSound;
    hide ClientsSound;
    hide NoncesDistinct;
    hide SignaturesSound;
    hide ClientMoves;
    var k, w' := StepClient(c, w.clients[e.cid], e), Next(c, w, e);
    ClientsKept(c, w, e.cid, k);
    TranscriptKept(c, w, e.cid, k);
    SignaturesKept(c, w, w');
    ServersKept(c, honest, w, w');
  }

  lemma ClientMoved(c: Crypto, honest: set<Bytes>, w: World, e: Event)
    requires ClientsSound(c, w) && Enabled(c, honest, w, e) && IsClientEvent(e)
    ensures e.cid in w.clients && ClientMoves(c, w.clients[e.cid], StepClient(c, w.clients[e.cid], e))
    ensures Next(c, w, e) == w.(clients := w.clients[e.cid := StepClient(c, w.clients[e.cid], e)])
  {
    hide ChannelSigningData;
    hide TookChallenge;
    ClientStep(c, w.clients[e.cid], e);
    hide StepClient;
    hide ClientMoves;
  }

  /** A transcript once taken stands. */
  lemma TranscriptKept(c: Crypto, w: World, cid: nat, k: Client)
    requires ClientsSound(c, w) && cid in w.clients && ClientMoves(c, w.clients[cid], k)
    ensures w.clients[cid].transcript.Some? ==> k.transcript == w.clients[cid].transcript
    ensures k.identity == w.clients[cid].identity
  {
    hide ChannelSigningData;
    hide TookChallenge;
  }

  lemma OpenClientKeeps(c: Crypto, honest: set<Bytes>, w: World, e: Event)
    requires Sound(c, honest, w) && Enabled(c, honest, w, e) && e.OpenClient?
    ensures Sound(c, honest, Next(c, w, e))
  {
    hide ChannelSigningData;
    hide ServersSound;
    var w' := Next(c, w, e);
    SignaturesKept(c, w, w');
    ServersKept(c, honest, w, w');
  }

  lemma OpenServerKeeps(c: Crypto, honest: set<Bytes>, w: World, e: Event)
    requires Sound(c, honest, w) && Enabled(c, honest, w, e) && e.OpenServer?
    ensures Sound(c, honest, Next(c, w, e))
  {
    hide ChannelSigningData;
    hide ServersSound;
    SignaturesKept(c, w, Next(c, w, e));
    OpenedServers(c, honest, w, e);
  }

  lemma OpenedServers(c: Crypto, honest: set<Bytes>, w: World, e: Event)
    requires ServersSound(c, honest, w) && e.OpenServer? && e.sid !in w.servers
    ensures ServersSound(c, honest, Next(c, w, e))
  {
    hide ChannelSigningData;
    hide CarriedSignature;
    hide VerifySignature;
    hide Digest;
    var w' := Next(c, w, e);
    forall sid | sid in w'.servers
      ensures ServerSound(c, w', honest, sid)
    {
      assert sid in w.servers ==> ServerSound(c, w, honest, sid);
    }
  }

  lemma SignKeeps(c: Crypto, honest: set<Bytes>, w: World, e: Event)
    requires Sound(c, honest, w) && Enabled(c, honest, w, e) && e.Sign?
    ensures Sound(c, honest, Next(c, w, e))
  {
    hide ChannelSigningData;
    var w' := Next(c, w, e);
    var key, message := w.clients[e.cid].identity.publicKey, w.clients[e.cid].offered.value;
    assert SignedByClient(c, w', key, message, e.cid);
    SignaturesKept(c, w, w'.(signed := w.signed));
    forall k, m | (k, m) in w'.signed
      ensures exists cid :: SignedByClient(c, w', k, m, cid)
    {
      if (k, m) in w.signed {
        var cid :| SignedByClient(c, w, k, m, cid);
        assert SignedByClient(c, w', k, m, cid);
      }
    }
    ServersKept(c, honest, w, w');
  }

  lemma ServerEventKeeps(c: Crypto, honest: set<Bytes>, w: World, e: Event)
    requires Sound(c, honest, w) && Enabled(c, honest, w, e) && e.ToServer?
    ensures Sound(c, honest, Next(c, w, e))
  {
    hide ChannelSigningData;
    hide Unforged;
    hide ServerSound;
    hide ServerReceive;
    ServerMoved(c, honest, w, e);
    OthersStand(c, honest, w, e);
    SignaturesKept(c, w, Next(c, w, e));
    NoncesUsed(c, honest, w);
  }

  lemma NoncesUsed(c: Crypto, honest: set<Bytes>, w: World)
    requires ServersSound(c, honest, w)
    ensures forall sid :: sid in w.issued ==> w.issued[sid].serverNonce in w.serverNonces
  {
    hide ChannelSigningData;
    forall sid | sid in w.issued
      ensures w.issued[sid].serverNonce in w.serverNonces
    {
      assert ServerSound(c, w, honest, sid);
    }
  }

  /** The server the frame goes to is sound afterwards, and a challenge it issues carries the nonce just drawn. */
  lemma ServerMoved(c: Crypto, honest: set<Bytes>, w: World, e: Event)
    requires ServersSound(c, honest, w) && Enabled(c, honest, w, e) && e.ToServer?
    ensures var w' := Next(c, w, e);
            && w'.servers.Keys == w.servers.Keys && ServerSound(c, w', honest, e.sid)
            && (w'.issued == w.issued
                || (w'.issued == w.issued[e.sid := w'.issued[e.sid]] && w'.issued[e.sid].serverNonce == e.server.serverNonce))
  {
    hide ChannelSigningData;
    hide CarriedSignature;
    hide VerifySignature;
    hide Digest;
    hide ServerReceive;
    assert ServerSound(c, w, honest, e.sid);
    ServerStep(c, w.servers[e.sid], e.frame, e.server);
  }

  lemma OthersStand(c: Crypto, honest: set<Bytes>, w: World, e: Event)
    requires ServersSound(c, honest, w) && e.ToServer? && e.sid in w.servers
    ensures forall sid :: sid in w.servers && sid != e.sid ==> ServerSound(c, Next(c, w, e), honest, sid)
  {
    hide ChannelSigningData;
    hide ServerReceive;
    forall sid | sid in w.servers && sid != e.sid
      ensures ServerSound(c, Next(c, w, e), honest, sid)
    {
      assert ServerSound(c, w, honest, sid);
    }
  }

  lemma StepKeeps(c: Crypto, honest: set<Bytes>, w: World, e: Event)
    requires Sound(c, honest, w) && Enabled(c, honest, w, e)
    ensures Sound(c, honest, Next(c, w, e))
  {
    match e
    case OpenServer(_, _, _, _) => OpenServerKeeps(c, honest, w, e);
    case OpenClient(_, _, _, _, _) => OpenClientKeeps(c, honest, w, e);
    case ToServer(_, _, _) => ServerEventKeeps(c, honest, w, e);
    case Sign(_) => SignKeeps(c, honest, w, e);
    case _ => ClientEventKeeps(c, honest, w, e);
  }

  lemma {:induction false} RunKeeps(c: Crypto, honest: set<Bytes>, from: World, events: seq<Event>, to: World)
    requires Sound(c, honest, from) && Run(c, honest, from, events, to)
    ensures Sound(c, honest, to)
    decreases |events|
  {
    if events != [] {
      StepKeeps(c, honest, from, events[0]);
      RunKeeps(c, honest, Next(c, from, events[0]), events[1..], to);
    }
  }

  // ---- Agreement ----

  /** Client run cid took, and its key signed, the very challenge server sid issued. */
  ghost predicate Agree(c: Crypto, w: World, sid: nat, cid: nat) {
    && sid in w.servers && w.servers[sid].admitted.Some? && sid in w.issued && cid in w.clients
    && var t := w.issued[sid];
       && w.servers[sid].admitted.value == AdmissionFor(c, t)
       && w.clients[cid].transcript == Some(t)
       && t.identity == w.clients[cid].identity && t.endpoint == w.clients[cid].endpoint == w.servers[sid].endpoint
       && t.clientNonce == w.clients[cid].clientNonce && t.generation == w.servers[sid].generation
       && ChannelSigningData(c, t).Ok? && (t.identity.publicKey, ChannelSigningData(c, t).value) in w.signed
  }

  /**
   * On every schedule: a server that has admitted an honest key agrees with exactly one client run on
   * endpoint, both nonces, session, generation and expiry, and no two servers agree with the same run.
   */
  lemma Agreement(c: Crypto, honest: set<Bytes>, events: seq<Event>, w: World, sid: nat) returns (cid: nat)
    requires CollisionFree(c) && Run(c, honest, START, events, w)
    requires sid in w.servers && w.servers[sid].admitted.Some?
    requires w.servers[sid].admitted.value.identity.publicKey in honest
    ensures Agree(c, w, sid, cid)
    ensures forall other :: Agree(c, w, sid, other) ==> other == cid
    ensures forall other :: Agree(c, w, other, cid) ==> other == sid
  {
    hide ChannelSigningData;
    RunKeeps(c, honest, START, events, w);
    assert ServerSound(c, w, honest, sid);
    var t := w.issued[sid];
    var key, message := t.identity.publicKey, ChannelSigningData(c, t).value;
    cid :| SignedByClient(c, w, key, message, cid);
    SigningDataBindsTranscript(c, t, w.clients[cid].transcript.value);
  }

  // ---- One challenge per server, one admission ----

  /** A server's challenge, its admission and its closing are each final. */
  ghost predicate Settled(w: World, w': World, sid: nat)
    requires sid in w.issued && sid in w.servers
  {
    && sid in w'.issued && sid in w'.servers && w'.issued[sid] == w.issued[sid]
    && (w.servers[sid].admitted.Some? ==> w'.servers[sid].admitted == w.servers[sid].admitted)
    && (w.servers[sid].phase == Closed ==> w'.servers[sid].phase == Closed)
  }

  lemma StepSettles(c: Crypto, honest: set<Bytes>, w: World, e: Event, sid: nat)
    requires ServersSound(c, honest, w) && Enabled(c, honest, w, e) && sid in w.issued
    ensures Settled(w, Next(c, w, e), sid)
  {
    hide ChannelSigningData;
    hide StepClient;
    hide Unforged;
    hide CarriedSignature;
    hide VerifySignature;
    hide Digest;
    assert ServerSound(c, w, honest, sid);
    if e.ToServer? && e.sid == sid {
      ServerStep(c, w.servers[sid], e.frame, e.server);
      ClosedStays(c, w.servers[sid], e.frame, e.server);
    }
    hide ServerReceive;
  }

  lemma ClosedStays(c: Crypto, s: Server, frame: Bytes, i: ServerInputs)
    ensures s.phase == Closed || s.phase == Authenticated ==>
              ServerReceive(c, s, frame, i).0.phase == Closed && ServerReceive(c, s, frame, i).0.admitted == s.admitted
  {
  }

  lemma {:induction false} IssuedOnce(c: Crypto, honest: set<Bytes>, from: World, events: seq<Event>, to: World, sid: nat)
    requires Sound(c, honest, from) && Run(c, honest, from, events, to) && sid in from.issued
    ensures Settled(from, to, sid)
    decreases |events|
  {
    hide ServerSound;
    hide Enabled;
    if events != [] {
      StepKeeps(c, honest, from, events[0]);
      StepSettles(c, honest, from, events[0], sid);
      hide Next;
      IssuedOnce(c, honest, Next(c, from, events[0]), events[1..], to, sid);
    }
  }
}
