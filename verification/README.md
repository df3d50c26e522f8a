# A verified model of the cell protocol

This project models the signed codec, the bridge admission handshake, the contract engine and the stateful
stores of the Go cell protocol library, and proves what each of them is for. Everything is Dafny 4.11;
`dafny verify dfyconfig.toml` checks it all.

How the modules fit together:

- **Bytes.** `Text` is UTF-8 and the orders strings are compared by. `KeyOrder` is Foundation's numeric,
  case-folding key order, which `KeyPieces` tells of the keys themselves. `JsonCodec` is the canonical encoder,
  with the loops that fill its buffer, and the decoder; `JsonText` is the text it writes, from RFC 8259's own
  pieces. `Base64`, `Base64Url` and `Base58` are the text forms of bytes; `Base58` also holds `did:key`.
- **Handshake.** `ChannelCodec` is the auth envelopes, the transcript and the signing challenge. `Channel` is
  the two state machines, as functions on values and as classes proved equal to them. `Handshake` lets any
  number of servers and clients run over a network that delivers whatever bytes it likes. `HonestRun` shows
  the four honest messages ending in admission on both sides. `Admitting` says field by field what each end
  goes on.
- **Wire models.** `Wire` replaces reflection by a datatype of schemas. `Tickets` is the invitation ticket and
  its token. `EnrollmentModels` and `Enrollment` are the four-piece extension of an entity with a new key;
  `WireForms` is their records as JSON, key by key, and `Completing` what completing one rests on. `KeyPath` and
  `KeyStore` are the textual and the storage half of key paths, and `Writing` what a write leaves. `Anchor` is
  the entity anchor's link actions on top of them, and `Anchoring` what they store.
- **Authority.** `Agreements` is permission bits and conditions, `Contracts` the contract engine of a general
  cell and `Authorizing` what signing and access take. `Chat` is the invitation book of a chat cell, `Booking`
  what each command does to it, `ChatAccess` who may use the chat and `Entering` which of its keys.
- **Mailbox and transport.** `Landing` and `RateLimiter` are the invitation landing, `Mailing` what each request
  to it takes, `Replay` the store of consumed signing challenges, `WebSocket` the frame codec.

Results that came out otherwise than one might expect, each with its exact condition:

- The Foundation key order is a strict total order exactly when folding sends no other character into `1`
  to `9`; otherwise three keys form a cycle (`KeyOrder.FoundationOrderIff`, `KeyOrder.FoldedLetterMakesCycle`).
- Set-then-get and the frame law of key paths fail for some match selectors. Writing may rename the matched
  field, the reader then goes on to the next item that fits, and naming an item by a field makes it, so the
  field then reads where nothing did (`KeyStore.SetThenGet` and `KeyStore.FrameExact` with their conditions on
  the object before the write, `KeyStore.NoRewriteIff` with the part a caller can check on path and value alone;
  concrete inputs in `KeyStore.RenamedItemIsLost` and `KeyStore.MadeItemIsRead`).
- An approval's JTI is forgotten by the anchor exactly when another JTI with the same safe key completes after
  it, and just then the approval completes a second time: `a.b` after `a_b` (`Anchor.RememberedExactly`,
  `Anchor.CompletesAgainIff`, `Anchor.CollidingCompletesAgain`).
- A ticket's token reads back exactly when the ticket's version is 1, though every ticket has a token
  (`Tickets.TokenReadBack`).
- With a negative message limit, and only then, storing a chat message panics after it has been appended
  (`Chat.WindowPanicsIff`).
- The rate limiter keeps its bound exactly when it blocks for a second or more: a shorter block answers 0,
  which callers read as let through (`RateLimiter.BoundIffBlockSeconds`).
- Counting only what was let through does not say whether the limiter lets the next attempt through: one refused
  for bringing on a block still counts after the block (`RateLimiter.LetThroughIff` is the exact condition,
  `RateLimiter.AcceptedNotEnough` the input).
- Two signing challenges of different scopes can share a replay key when a text holds the separator, U+001F;
  without it a key stands for one challenge (`Replay.KeyIff`, `Replay.SeparatorShares`).
- A signing challenge is consumed a second time exactly when the second call runs after its expiry
  (`Replay.ConsumedAgainIff`).
- A reply the landing took is taken a second time exactly when a collect with its ticket's own key, or the
  purge of its ticket, went through in between (`Landing.TakenAgainIff`; `Landing.CollectedTakenAgain` is one
  such run).
- A model with a required `any` field left null encodes to bytes that do not decode (`Wire.DecodesIffComplete`).
- The frame reader panics exactly on a frame whose 64-bit length is 2^63 or more and whose mask key, if it
  promises one, is there: the length turns negative and passes any read limit (`WebSocket.PanicIff`).

Signatures, hashes, dates, fresh values and clock readings are parameters. Where a theorem needs them ideal it
says so in a `requires`: signatures verify for what was signed and nothing else, hashes do not collide, drawn
identifiers and nonces are new, the clock does not go back. The date formatter needs no law.

## Model

| member | source | states |
|---|---|---|
| `KeyOrder.Tokenize` | interop/canonical.go:47-64 | the loop splits a key into digit runs and single characters, as the recursive reading does |
| `KeyOrder.CompareDigitsIsNumeric` | interop/canonical.go:66-76 | comparing digit runs of any length agrees with comparing the numbers they spell |
| `KeyOrder.FoundationOrderLaws` | interop/canonical.go:86-121 | the key comparison is antisymmetric, total and transitive when folding keeps letters out of 1 to 9 |
| `KeyOrder.FoldedLetterMakesCycle` | interop/canonical.go:78-121 | a character folding to 1..9 gives three keys each below the next in a circle |
| `KeyOrder.FoundationOrderIff` | interop/canonical.go:78-121 | it is a strict total order if and only if folding sends no other character into 1 to 9 |
| `KeyOrder.SortKeys` | interop/canonical.go:124-132 | insertion sort returns the keys in their one sorted order |
| `KeyOrder.SortedUnique` | interop/canonical.go:124-132 | two sorted lists of the same keys are the same list |
| `KeyOrder.SortedKeysUnique` | interop/canonical.go:215-231 | any sorted listing of an object's keys is the one the encoder writes, so bytes do not depend on map order |
| `KeyPieces.PiecesCut` | interop/canonical.go:47-64 | a key is cut into its runs of digits and single other characters, in the one way there is |
| `KeyPieces.PiecesThere` | interop/canonical.go:47-64 | every key is such pieces put together |
| `KeyPieces.ComparedByPieces` | interop/canonical.go:66-121 | keys are compared at the first pieces that differ in number or folded letter, then by how many there are, then by code point |
| `KeyPieces.PartThere` | interop/canonical.go:90-121 | and any two keys part at some piece or at an end |
| `JsonCodec.WriteString` | interop/canonical.go:134-167 | the growing buffer gains exactly the escaped string, whose characters are spelled as in JsonText.EscapeIsForm |
| `JsonText.EscapeIsForm` | interop/canonical.go:136-165 | each character is written as section 7 of RFC 8259 has it: the seven short forms, \u00 and two small hex digits below the space, "/" as \/ just when slashes are escaped, all else as itself |
| `JsonText.ValueText` | interop/canonical.go:187-253 | null, booleans, strings and lists as literal text, strings put together character by character |
| `JsonText.NumberText` | interop/canonical.go:187-253 | a number is a sign where it is negative and its decimal digits without a leading zero |
| `JsonText.ObjectText` | interop/canonical.go:215-231 | an object is its members in key order between braces, however its keys were listed |
| `JsonText.SlashModes` | interop/canonical.go:255-272 | the two slash modes give the same text but that every "/" of one is \/ in the other |
| `JsonText.SlashedFollows` | interop/canonical.go:142-147 | with slashes escaped every "/" follows the backslash written for it |
| `JsonText.PlainStands` | interop/canonical.go:134-167 | with slashes left alone a text of plain characters stands for itself |
| `JsonText.StylesUsed` | interop/wire.go:266-297 | signed bytes order keys as Foundation does and encoded models by code point, both with slashes escaped; the channel style leaves them |
| `JsonCodec.WriteValue` | interop/canonical.go:187-253 | the growing buffer gains exactly the value's encoding |
| `JsonCodec.WriteMembers` | interop/canonical.go:215-231 | the loop over sorted keys writes each member once, with commas between |
| `JsonCodec.KeysInOrder` | interop/canonical.go:215-231 | collecting keys in any order and sorting them gives the writing order |
| `JsonCodec.ValueParsed` | interop/canonical.go:187-253 | a parser started at an encoding stops exactly at its end with the value encoded, in both slash modes |
| `JsonCodec.DecodeEncoded` | interop/canonical.go:256-299 | decoding undoes encoding for null, bools, 64-bit integers, strings, lists and objects |
| `JsonCodec.EncodingUnambiguous` | interop/canonical.go:187-272 | equal bytes mean equal values, across key orders and slash modes |
| `Base64.DecodeEncoded` | interop/channel.go:93-105 | strict decoding undoes standard encoding for every byte string |
| `Base64.SymbolTable` | interop/channel.go:93-93 | the alphabet of table 1 of RFC 4648 |
| `Base64.GroupIs` | interop/channel.go:93-93 | three octets are the four symbols of the same 24 bits |
| `Base64.OneIs` | interop/channel.go:93-93 | one octet left over is two symbols and two "=" |
| `Base64.TwoAre` | interop/channel.go:93-93 | two left over are three symbols and one "=" |
| `Base64.EncodeParts` | interop/channel.go:93-93 | octets are taken three at a time |
| `Text.EncodeDecodedUtf8` | interop/canonical.go:134-167 | a byte string is the UTF-8 of at most one text |
| `Text.Rfc3629` | interop/canonical.go:134-167 | a scalar takes the octets section 3 of RFC 3629 gives it |
| `Text.Utf8KeepsOrder` | interop/canonical.go:103-132 | comparing UTF-8 bytes is comparing code points |
| `Text.Trimmed` | interop/identity_link.go:479-481 | trimming leaves what stands between the first and the last character that is no space, and a blank text is one of spaces |
| `ChannelCodec.ChannelDecodeExact` | interop/channel.go:65-86 | ChannelDecode succeeds on exactly the encodings of objects within 16 KiB |
| `ChannelCodec.OpenExact` | interop/channel.go:434-466 | opening succeeds with a name and body on exactly the envelope of that name and body within 16 KiB |
| `ChannelCodec.EnvelopeOpens` | interop/channel.go:434-466 | an auth envelope that fits opens to its name and body through the nested encoding |
| `ChannelCodec.TranscriptRead` | interop/channel.go:322-407 | a transcript's JSON reads back as that transcript |
| `ChannelCodec.TranscriptBytesUnambiguous` | interop/channel.go:322-338 | two transcripts with the same bytes agree in every field |
| `ChannelCodec.SigningDataBindsTranscript` | interop/channel.go:409-432 | equal signing data means the same endpoint, nonces, session, generation, identity and expiry |
| `ChannelCodec.SigningDataValidated` | interop/channel.go:409-432 | a transcript's own signing challenge passes the client's validation while it is fresh |
| `Channel.ChannelServer.Receive` | interop/channel.go:627-647 | phases, deadline and dispatch: the new state and the answer are those of the protocol step |
| `Channel.ChannelServer.ReceiveHello` | interop/channel.go:651-690 | a hello is answered with one challenge that is then pending, or the server closes |
| `Channel.ChannelServer.ReceiveProof` | interop/channel.go:692-737 | a proof is judged once: admission for the pending transcript, or the server closes |
| `Channel.ChannelClient.Begin` | interop/channel.go:789-841 | a challenge is taken only for the client's own identity, endpoint and nonce, and offered for signing |
| `Channel.ChannelClient.Finish` | interop/channel.go:844-858 | the offered data is checked again at signing and the proof sent once |
| `Channel.ChannelClient.Accept` | interop/channel.go:861-893 | the client admits itself only on the digest of its own transcript |
| `Admitting.ChallengesIff` | interop/channel.go:651-690 | a hello is answered with a challenge if and only if it is the first, in time, whole, from a usable Ed25519 identity with a nonce of 32 octets; the challenge is for that hello, fresh and the pending one |
| `Admitting.AdmitsIff` | interop/channel.go:627-737 | the server admits if and only if the frame is a proof of its one pending challenge: three keys, session, generation, a 64-octet signature over the pending data under the challenged key, the recheck passed, and all four clock readings in time |
| `Admitting.AdmittedFor` | interop/channel.go:692-737 | an admission is for the pending identity, endpoint, session, digest and expiry, and is acknowledged |
| `Admitting.AskedToSign` | interop/channel.go:409-432 | the data to sign names digest, domain, action, audience, identity, nonce and the half minute it is good for |
| `Admitting.SignableIff` | interop/verify.go:463-521 | signing data is taken if and only if it decodes to a challenge this identity may sign now, check by check |
| `Admitting.OffersIff` | interop/channel.go:789-841 | the client offers data for signing if and only if it is awaiting a challenge, in time, and the challenge is its own in every field and signable |
| `Admitting.SendsIff` | interop/channel.go:844-858 | the proof is sent if and only if data is on offer, the signature over it is the client's own, and it is still signable |
| `Admitting.AcceptsIff` | interop/channel.go:861-893 | the client is admitted if and only if its own session, generation and digest are acknowledged after its proof, before deadline and expiry |
| `Handshake.StepKeeps` | interop/channel.go:627-893 | every event of any server, client or the network keeps the protocol invariant |
| `Handshake.RunKeeps` | interop/channel.go:627-893 | every schedule keeps it |
| `Handshake.Agreement` | interop/channel.go:409-858 | a server that admits an honest key agrees with exactly one client run of it on endpoint, both nonces, session, generation and expiry, and no two servers share a run |
| `Handshake.IssuedOnce` | interop/channel.go:651-737 | a server's challenge, its admission and its closing are each final over every run |
| `HonestRun.HonestRunAdmits` | interop/channel.go:627-893 | the four prompt honest messages are a schedule the network allows and end with both sides holding the same admission |
| `HonestRun.ProofAdmitted` | interop/channel.go:692-737 | the honest proof of the pending challenge is admitted |
| `Base58.ConvertBack` | interop/identity_link.go:55-88 | changing base and back keeps every digit string, leading zeros included |
| `Base58.DecodeEncoded` | interop/identity_link.go:55-88 | Base58Decode undoes Base58Encode for every byte string |
| `Base58.EncodeDecoded` | interop/identity_link.go:55-88 | every text over the alphabet is the encoding of what it decodes to |
| `Base58.DecodeFails` | interop/identity_link.go:76-88 | decoding fails on exactly the texts with a character outside the alphabet |
| `Base58.Reverse` | interop/identity_link.go:70-72 | the in-place swap loop reverses the array |
| `Base58.EncodeText` | interop/identity_link.go:55-74 | the division loop, the leading ones and the reversal compute the encoding |
| `Base58.DecodeText` | interop/identity_link.go:76-88 | the multiply-and-add loop and the leading zeros compute the decoding |
| `Base58.KeyFromDID` | interop/identity_link.go:90-114 | PublicKeyFromDIDKey undoes DIDKey for all three curves, in whatever order the prefix table is walked |
| `Base58.DIDFromKey` | interop/identity_link.go:90-114 | a did:key that reads is the one did:key of the curve and key it names |
| `Base58.AlphabetTable` | interop/identity_link.go:47-47 | the 58 symbols, in order |
| `Base58.EncodedValue` | interop/identity_link.go:55-74 | the text is the same number in base 58, most significant digit first, with a 1 for each leading zero octet |
| `Base58.DIDKeyIs` | interop/identity_link.go:49-97 | the did:key of each curve with its two prefix octets |
| `Wire.EncodeStruct` | interop/wire.go:52-89 | the loop over fields and the encode hook give the wire object, or the first field's error |
| `Wire.DecodeStruct` | interop/wire.go:136-172 | the decode hook and the loop over fields give the model, or the first field's error |
| `Wire.RoundTripModel` | interop/wire.go:52-264 | what a complete model encodes to decodes to its normal form, which encodes the same |
| `Wire.WireFixpoint` | interop/wire.go:266-297 | encoded bytes of a complete model decode, and re-encoding gives the same wire bytes and the same signed bytes |
| `Wire.DecodesIffComplete` | interop/wire.go:71-83 | encoded bytes decode if and only if nothing required is missing at any depth |
| `Wire.SignedBytesBind` | interop/wire.go:276-288 | equal signed bytes mean equal wire objects but for the excluded keys |
| `Wire.ExcludedFieldFree` | interop/wire.go:276-288 | setting an excluded field leaves the signed bytes alone |
| `WireForms.DescriptorSaysFirst` | interop/models.go:18-24 | a descriptor is written with its own uuid, displayName, publicKey, algorithm under those keys |
| `WireForms.DescriptorSaysSecond` | interop/models.go:18-24 | a descriptor is written with its own curveType under those keys |
| `WireForms.BindingSays` | interop/models.go:58-63 | a binding is written with its own mode, entityAnchorReference, bindingID, audience under those keys |
| `WireForms.RequestSaysFirst` | interop/models.go:65-82 | a request is written with its own version, requestID, purpose, entityBinding under those keys |
| `WireForms.RequestSaysSecond` | interop/models.go:65-82 | a request is written with its own newIdentity, requestedDomains, requestedIdentityContexts, requestedScopes under those keys |
| `WireForms.RequestSaysThird` | interop/models.go:65-82 | a request is written with its own audience, origin, createdAt, expiresAt under those keys |
| `WireForms.RequestSaysFourth` | interop/models.go:65-82 | a request is written with its own nonce, platform, deviceLabel, proof under those keys |
| `WireForms.ApprovalSaysFirst` | interop/models.go:105-127 | a approval is written with its own version, approvalID, purpose under those keys |
| `WireForms.ApprovalSaysSecond` | interop/models.go:105-127 | a approval is written with its own requestHash, entityBinding, subjectIdentity under those keys |
| `WireForms.ApprovalSaysThird` | interop/models.go:105-127 | a approval is written with its own approvedDomains, approvedIdentityContexts, approvedScopes under those keys |
| `WireForms.ApprovalSaysFourth` | interop/models.go:105-127 | a approval is written with its own issuerIdentityUUID, issuerType, audience under those keys |
| `WireForms.ApprovalSaysFifth` | interop/models.go:105-127 | a approval is written with its own origin, createdAt, expiresAt under those keys |
| `WireForms.ApprovalSaysSixth` | interop/models.go:105-127 | a approval is written with its own jti, freshAuthRequired, freshAuthMethod under those keys |
| `WireForms.ApprovalSaysLast` | interop/models.go:105-127 | a approval is written with its own freshAuthPerformedAt, freshAuthEvidence, proof under those keys |
| `WireForms.ClaimSaysFirst` | interop/identity_link.go:175-183 | a credential is written with its own @context, id, type, issuer under those keys |
| `WireForms.ClaimSaysSecond` | interop/identity_link.go:175-183 | a credential is written with its own issuanceDate, credentialSubject, proof under those keys |
| `WireForms.PresentationSaysFirst` | interop/identity_link.go:261-271 | a presentation is written with its own @context, id, type, holder under those keys |
| `WireForms.PresentationSaysSecond` | interop/identity_link.go:261-271 | a presentation is written with its own challenge, domain, holderBinding under those keys |
| `WireForms.SubjectSaysFirst` | interop/identity_link.go:348-361 | a credential subject is written with its own id, linkType, entityBinding, linkedIdentity under those keys |
| `WireForms.SubjectSaysSecond` | interop/identity_link.go:348-361 | a credential subject is written with its own approvedDomains, approvedIdentityContexts, approvedScopes, enrollmentRequestHash under those keys |
| `WireForms.SubjectSaysThird` | interop/identity_link.go:348-361 | a credential subject is written with its own assuranceSource, assuranceLevel, validUntil, revocationReference under those keys |
| `WireForms.RecordSaysFirst` | interop/identity_link.go:363-377 | a link record is written with its own linkID, entityBinding, linkedIdentity, approvedDomains under those keys |
| `WireForms.RecordSaysSecond` | interop/identity_link.go:363-377 | a link record is written with its own approvedIdentityContexts, approvedScopes, issuerIdentityUUID, issuerType under those keys |
| `WireForms.RecordSaysThird` | interop/identity_link.go:363-377 | a link record is written with its own status, linkedAt, lastUsedAt, revokedAt under those keys |
| `WireForms.RecordSaysFourth` | interop/identity_link.go:363-377 | a link record is written with its own revocationReference under those keys |
| `WireForms.PartsLegible` | interop/models.go:18-63 | every descriptor and binding can be written so |
| `WireForms.RequestLegible` | interop/models.go:65-82 | every request can be written so |
| `WireForms.ApprovalLegible` | interop/models.go:105-127 | every approval can be written so |
| `WireForms.ClaimLegible` | interop/identity_link.go:175-183 | every credential can be written so |
| `WireForms.PresentationLegible` | interop/identity_link.go:261-271 | every presentation can be written so |
| `WireForms.SubjectLegible` | interop/identity_link.go:348-361 | every credential subject can be written so |
| `WireForms.RecordLegible` | interop/identity_link.go:363-377 | every link record can be written so |
| `Base64Url.DecodeEncoded` | interop/invite.go:60-65 | unpadded base64url, read leniently, gives back every byte string |
| `Base64Url.UrlForm` | interop/invite.go:61-61 | the text is that of base64 with - and _ for + and / and without padding |
| `Tickets.TicketFixpoint` | interop/models.go:181-221 | the encoded JSON of every ticket decodes to the ticket but for a nil issuer key, an empty basis or nonce and nil capabilities, and re-encodes to the same wire and signed bytes |
| `Tickets.TokenReadBack` | interop/models.go:230-254 | every ticket has a token, which reads back if and only if the version is 1, and then as that settled ticket, whose token is the same |
| `Enrollment.ApprovalProofFree` | interop/identity_link.go:715-737 | an approval's proof is not among the bytes it signs |
| `Enrollment.SubjectRead` | interop/identity_link.go:591-594 | the credential subject decodes to the very subject the issuer wrote |
| `Enrollment.IssuedClaimVerifies` | interop/identity_link.go:204-259 | a credential as issued verifies if and only if the issuer's key is one verification supports |
| `Enrollment.SignedPresentationProves` | interop/identity_link.go:296-346 | a presentation as signed proves its holder if and only if challenge and domain are the expected ones |
| `Enrollment.RequestLater` | interop/identity_link.go:470-503 | a request valid once is valid later exactly until it expires, with the same hash |
| `Enrollment.ApprovesIff` | interop/identity_link.go:676-760 | an approval package is made if and only if the request validates, both given dates parse, the issuer's key has a proof type and the signer answers for the approval and then for the credential |
| `Enrollment.PresentsIff` | interop/identity_link.go:316-346 | a presentation is made if and only if the holder's key has a proof type and its signer answers |
| `Enrollment.BothMade` | interop/identity_link.go:676-760 | with signers that always answer, exactly the approvable requests are approved, and the new key can then present |
| `Completing.ApprovalIs` | interop/identity_link.go:676-760 | the approval made has the request's own fields, the lists granted, the order's fresh authentication, dates and identifiers, and the issuer's proof |
| `Completing.SubjectIs` | interop/identity_link.go:738-757 | the credential's subject repeats the approval, with assurance as freshly authenticated or as mere possession |
| `Completing.ClaimIs` | interop/identity_link.go:223-259 | a credential issued has these contexts, types, identifier, dates, parties and proof |
| `Completing.PresentationIs` | interop/identity_link.go:316-346 | and a presentation these |
| `Enrollment.EnrollmentCompletes` | interop/identity_link.go:639-762 | a package from ApproveEnrollment presented by the new key completes if and only if the listed conditions hold, and the record carries exactly the granted lists |
| `Enrollment.AcceptedWasApproved` | interop/identity_link.go:508-573 | an accepted approval says on the wire what one of the issuer's own approvals said, within what was requested |
| `Completing.CompletionIff` | interop/identity_link.go:470-672 | an envelope completes if and only if every listed comparison holds and all four signatures, of request, approval, credential and presentation, verify under the new key or the issuer's; and this is what is recorded |
| `Completing.AcceptedWasPresented` | interop/identity_link.go:616-637 | an accepted presentation says on the wire what one of the new key's own presentations said |
| `Completing.AcceptedWasIssued` | interop/identity_link.go:575-614 | an accepted credential says on the wire what one of the issuer's own said |
| `Completing.AcceptedWasAsked` | interop/identity_link.go:470-503 | an accepted request says on the wire what one of the new key's own requests said |
| `KeyPath.SplitKeyPath` | keypath.go:181-204 | the depth counter and builder cut the path at the dots outside brackets |
| `KeyPath.ParseKeyPath` | keypath.go:145-179 | the loop over parts gives the tokens, or the first part's error |
| `KeyPath.RenderedParses` | keypath.go:145-204 | tokens with bracket-free keys and texts are what their own rendering parses to |
| `KeyPath.ParsedRenders` | keypath.go:145-204 | a parsed path without index selectors is the rendering of its tokens |
| `KeyStore.GetKeyPath` | keypath.go:29-76 | the loop over tokens reads the value, or the first failing token's error |
| `KeyStore.SetSteps` | keypath.go:87-142 | the descent and the way back up compute the object after the write, partial writes included, which Writing.LeavesIff describes |
| `Writing.LeavesIff` | keypath.go:89-142 | at every depth a write leaves other keys alone and, under the step's key, replaces the field, appends one item after all there were, or changes just the item at the index or with the matching field, made first where it is missing; nothing else is left |
| `Writing.AppendKeepsItems` | keypath.go:106-108 | appending keeps every item, in place, and adds one made of an empty object |
| `Writing.ReachesIff` | keypath.go:29-76 | reading finds exactly what the path leads to, and fails where it leads nowhere |
| `Writing.Worded` | keypath.go:114-119 | the text a field is compared by |
| `KeyStore.Store.Set` | keypath.go:78-143 | the root becomes the object after the write and nothing else changes |
| `KeyStore.PutFails` | keypath.go:105-128 | a write goes through if and only if no index is negative |
| `KeyStore.SetThenGet` | keypath.go:29-143 | after a write on an append-free path that goes through, a read gives the value if and only if each match selector still finds, in the item written or the next one that fits, what was put |
| `KeyStore.OnlyFitsReadBack` | keypath.go:29-143 | where each match selector fits one item at most, the value is read back if and only if the write leaves every item fitting |
| `KeyStore.NoRewriteUndisturbed` | keypath.go:114-125 | a path that does not write into a field its own selectors look at leaves every item matching |
| `KeyStore.NoRewriteIff` | keypath.go:114-125 | for ordinary match texts a check of path and value alone says whether a write leaves every item matching |
| `KeyStore.FrameExact` | keypath.go:29-143 | a path that takes another key reads the same value, or still none, if and only if the write neither changes which item its selectors find into a different reading nor makes an item whose matched field it reads |
| `KeyStore.PlainFrame` | keypath.go:89-101 | without match selectors on the common way the frame law always holds |
| `KeyStore.MadeItemIsRead` | keypath.go:121-125 | a concrete write that makes an item and so makes another path readable |
| `KeyStore.RenamedItemIsLost` | keypath.go:114-125 | a concrete write whose own path no longer reads |
| `Anchor.EntityAnchor.Seal` | entity_anchor.go:262-318 | genesis stores seal, record and proof, or refuses and stores nothing |
| `Anchor.EntityAnchor.ApproveLink` | entity_anchor.go:322-344 | an approval package is stored under its safe key |
| `Anchor.EntityAnchor.CompleteLink` | entity_anchor.go:361-390 | a verified completion stores record, proof and the used JTI |
| `Anchor.EntityAnchor.RevokeLink` | entity_anchor.go:392-424 | an existing record is stored again as revoked; genesis links are refused |
| `Anchor.GenesisSeals` | entity_anchor.go:288-318 | a genesis that goes through finds no seal and leaves its own in place |
| `Anchor.SealStays` | entity_anchor.go:262-424 | once sealed, no sequence of actions changes the seal, and every further genesis is refused |
| `Anchor.SealedOnce` | entity_anchor.go:262-424 | in any sequence of actions at most one genesis goes through |
| `Anchor.RememberedExactly` | entity_anchor.go:346-386 | after any run a JTI is refused as used exactly when it is the last completed among those sharing its safe key |
| `Anchor.CompletedOnce` | entity_anchor.go:361-390 | a completed approval does not complete again unless another JTI with its safe key completed since |
| `Anchor.CompletesAgainIff` | entity_anchor.go:361-390 | a completed approval that still verifies completes again, after any actions, if and only if the last completion under its safe key was another JTI's |
| `Anchor.CollidingJTIForgotten` | interop/identity_link.go:798-800 | completing a_b makes the anchor forget a.b |
| `Anchor.CollidingCompletesAgain` | entity_anchor.go:361-390 | the completion of a.b goes through again right after that of a_b |
| `Anchor.NewIsUnsealed` | entity_anchor.go:29-46 | a new anchor has no seal and no used approval |
| `Anchoring.GenesisStores` | entity_anchor.go:262-318 | genesis goes through if and only if owned, unsealed and signed, and then seal, first record and both as proof are there to read |
| `Anchoring.ApprovalStores` | entity_anchor.go:322-344 | an approval package made is there to read under its identifier |
| `Anchoring.CompletionStores` | entity_anchor.go:361-390 | after a completion record, proof entry and used JTI are there to read |
| `Anchoring.RevokedStores` | entity_anchor.go:392-424 | a link is revoked if and only if it is not the genesis one and its record decodes; status and time of revocation change and no other key |
| `Agreements.CoversBitByBit` | agreements.go:134-199 | covering exactly is holding every wanted bit, with at least one group bit wanted |
| `Agreements.PermissionRead` | agreements.go:134-236 | a permission written out from its bits reads back as those bits |
| `Authorizing.CoversByLetters` | agreements.go:134-403 | a grant covers a request of its path if and only if it gives every letter asked for, to the group and to others, and some letter is asked of the group |
| `Agreements.CoversTransitive` | agreements.go:392-403 | covering exactly, bit by bit, is transitive |
| `Agreements.ConditionsMatchIff` | agreements.go:371-390 | sorted policies agree if and only if the conditions are the same multiset of supported ones |
| `Agreements.MatchConditions` | agreements.go:371-390 | the array-filling, sorting and scanning loops compute that |
| `Agreements.SortedText` | agreements.go:382-383 | the sort keeps every text as often as it stood and puts them in order |
| `Contracts.GeneralCell.AddAgreementAuthorizedBy` | general_cell.go:500-564 | the contract list gains one contract, issued after the subject's cutoff, exactly when the request is admissible |
| `Contracts.GeneralCell.RemoveMember` | general_cell.go:639-651 | the subject's contracts go, the others stay in order, the cutoff is now |
| `Contracts.GeneralCell.Allows` | general_cell.go:580-595 | the loop over contracts decides access by contract |
| `Contracts.GeneralCell.AllGranted` | general_cell.go:521-525 | every grant is covered by the template |
| `Contracts.HandlerKey` | general_cell.go:830-843 | the handler is the one of the longest key that is the path or a dotted prefix of it |
| `Contracts.ConditionsIgnoreContracts` | agreements.go:358-369 | a plain cell's conditions answer the same whatever contracts, revocations, policy and clock, and whatever template unless a condition reads the cell's description |
| `Contracts.EvaluatingAccess` | general_cell.go:776-806 | inside an evaluation only a proven owner passes a cell's access check |
| `Contracts.AllowedByTemplate` | general_cell.go:577-637 | access is carried by a stored current contract whose conditions hold, and then the template in force covers the request |
| `Contracts.CarriedConditions` | general_cell.go:610-637 | the carrying contract's conditions are the template's, so those hold too |
| `Contracts.RunKeepsUnrevoked` | general_cell.go:549-562 | for any interleaving and any clock every stored contract is issued strictly after its subject's cutoff |
| `Contracts.Authority` | general_cell.go:500-651 | in every reachable state access means a stored contract of the requester's key, issued after its cutoff, begun and not run out, no longer than the present template allows, inside that template, with its conditions holding |
| `Authorizing.AccessIff` | general_cell.go:577-637 | access by contract is there if and only if such a contract grants exactly this and every condition of the template is met |
| `Authorizing.AuthorityIff` | general_cell.go:500-651 | so in every state a run reaches |
| `Authorizing.AccessEnds` | general_cell.go:622-624 | once all of the requester's contracts have run out access by contract is over |
| `Authorizing.ValidateIff` | general_cell.go:776-806 | access is the owner's by a fresh signature for the very path and operation, and anyone else's by contract |
| `Authorizing.ReadIff` | general_cell.go:206-230 | a reader with access gets what the longest handler for the path says, or what storage holds |
| `Authorizing.MetIff` | agreements.go:330-360 | a condition is met if and only if what it names in the target reads as what it expects |
| `Authorizing.ReplacedThere` | agreements.go:334-334 | $identity stands for the requester's UUID |
| `Authorizing.ReplacedElsewhere` | agreements.go:334-334 | and everything else for itself |
| `Authorizing.SignedIff` | general_cell.go:500-564 | a contract is signed if and only if owner, state, duration, grants, conditions, authority or policy and every condition allow it, and it is issued now or just after the cutoff |
| `Authorizing.RemovedIs` | general_cell.go:639-651 | a removal takes the subject's contracts one by one, keeps the others in order and sets the cutoff |
| `Contracts.RevokedUntilSigned` | general_cell.go:639-651 | after a revocation the identity has no access by contract until the cell signs a new one for it |
| `Chat.ChatBook.InviteEach` | chat.go:725-742 | each named person with a key gets a pending record, an accepted one stays accepted without its acceptance |
| `Chat.ChatBook.IssueArtifacts` | chat.go:773-826 | each eligible target keeps its standing artifact or gets a new one, its prior's row going with it |
| `Chat.ChatBook.TakeArtifact` | chat.go:843-908 | the proofs are taken, and one row consumed, or refused without effect |
| `Chat.ChatBook.ChangeStatuses` | chat.go:910-925 | all known targets get the status, or none |
| `Chat.ChatBook.Store` | chat.go:633-636 | the window keeps the last messages, or with a negative limit the message is appended and the cut panics |
| `Chat.WindowPanicsIff` | chat.go:633-636 | cutting the window panics if and only if the message limit is negative |
| `Chat.ReissueKeeps` | chat.go:811-823 | a new artifact keeps consumed rows distinct and every accepted record backed |
| `Chat.AcceptKeeps` | chat.go:870-903 | taking proofs keeps them too |
| `Booking.AcceptedIff` | chat.go:843-908 | proofs are taken if and only if artifact and acceptance verify, for this cell and owner, the artifact is the one that stands, the record is neither revoked nor declined, and neither was used otherwise; and this is what changes |
| `Booking.PeopleNamed` | chat.go:705-721 | who is meant by a list of names |
| `Booking.InvitedEach` | chat.go:723-742 | record by record, who is invited now and who stays as before |
| `Booking.IssuedOne` | chat.go:795-823 | one record's turn: a standing artifact stays, another is built and the old one's row goes |
| `Booking.IssuedToTargets` | chat.go:773-826 | every target who may have an artifact has its turn, and nobody else's record changes |
| `Booking.IssueRefused` | chat.go:773-792 | nothing is issued for an invalid or ineligible target or without a signing key |
| `Booking.StatusIff` | chat.go:910-925 | statuses change for all those named, known ones every one, or for nobody |
| `Chat.RunKeeps` | chat.go:725-925 | over every run consumed acceptances stay distinct and each record with an acceptance has the row it consumed |
| `Chat.MessagesAreLast` | chat.go:613-636 | over every run the chat holds exactly the last messages said, in order, within its limit, or everything said where the limit is negative |
| `ChatAccess.ChatConditionsIgnoreContracts` | chat.go:246-379 | what a chat's conditions answer, through its redirected reader and back, is the same whatever contracts, revocations and policy it holds and whatever the engine's clock reads |
| `ChatAccess.AdmissionIff` | chat.go:308-330 | invitationAccepted holds for exactly the accepted, matching, unexpired invitee with an acceptance |
| `ChatAccess.AdmissionMet` | chat.go:371-379 | an admission condition is met exactly when the book admits the requester |
| `ChatAccess.BarredRefused` | chat.go:260-280 | a revoked invitee is let through on the open keys and on nothing else |
| `ChatAccess.RevokedStaysOut` | chat.go:246-330 | no sequence of a revoked invitee's own commands makes any other key usable or any contract held |
| `ChatAccess.BarredAskRejected` | general_cell.go:546-548 | a revoked invitee's request is rejected whoever authorizes it |
| `ChatAccess.AdmittedGetsIn` | chat.go:246-330 | an admitted invitee's fitting request is signed and opens the keys it was granted |
| `Entering.AdmissionMeans` | chat.go:308-330 | both admission names, for any book: an accepted matching invitee, and for the one a consumed acceptance of a valid artifact |
| `Entering.MayUseIff` | chat.go:260-280 | but for the owner a key is usable if and only if it is open to all, or a contract grants it, or contracts grant its first part and the chat |
| `Entering.RootIs` | chat.go:273 | the first part of a key is what stands before its first dot |
| `Entering.OwnerAsAnywhere` | chat.go:260-264 | the owner is judged as at any cell |
| `Entering.ReadIff` | chat.go:282-293 | reading takes access, and the admission keys answer from the book |
| `Landing.InviteLanding.PublishTicket` | invite_landing.go:211-255 | a verified publication adds one entry with a cap of 1 to 20, and never replaces one |
| `Landing.InviteLanding.RevokeTicket` | invite_landing.go:258-285 | a verified notice marks the entry revoked |
| `Landing.InviteLanding.TakeReply` | invite_landing.go:424-480 | a verified reply within the cap is stored once |
| `Landing.InviteLanding.CollectRows` | invite_landing.go:337-358 | the holder of the status key takes out exactly the ticket's rows |
| `Landing.InviteLanding.Purge` | invite_landing.go:187-208 | tickets past a day of grace go, with their rows |
| `Landing.InviteLanding.Visit` | invite_landing.go:361-421 | a link or code is answered from its ticket's signature, lifetime and revocation |
| `Landing.StepKeeps` | invite_landing.go:187-480 | request identifiers and codes stay distinct, rows have their ticket, each ticket stays within its cap |
| `Landing.StartsSound` | invite_landing.go:124-135 | a new landing has everything a run keeps |
| `Landing.RunConserves` | invite_landing.go:187-480 | over every run each accepted reply is in the mailbox once or left by one collect or one purge |
| `Landing.LandingConserves` | invite_landing.go:124-480 | so has every landing, after any run of requests |
| `Landing.TakenAgainIff` | invite_landing.go:187-480 | over every run a stored reply is stored again if and only if a collect with its ticket's key or its ticket's purge went through since, and until then is remembered |
| `Landing.CollectedTakenAgain` | invite_landing.go:462-466 | for one, right after its collect |
| `Landing.RevokedNeverValid` | invite_landing.go:258-421 | with a clock that never goes back, a revoked ticket is never again answered as valid, though purge forgets it |
| `Mailing.StoredIff` | invite_landing.go:424-480 | a reply is stored if and only if its ticket is open to it, it is for this contact, from someone else, in time, its proof holds, and it was not received before; and this is what changes |
| `Mailing.PublishedIff` | invite_landing.go:211-255 | a ticket is entered if and only if publication and ticket match, both proofs hold, it lasts and is not for more than 90 days, and identifier and code are free |
| `Mailing.RevokedIff` | invite_landing.go:258-285 | an entry is marked revoked if and only if the notice is of the published ticket, from its issuer, with a proof that holds |
| `Mailing.CollectedIff` | invite_landing.go:337-358 | row by row, what the holder of the status key takes and what stays |
| `Mailing.PurgedIs` | invite_landing.go:187-208 | ticket by ticket and row by row, what goes a day after its end |
| `Mailing.ShownIff` | invite_landing.go:361-421 | a visitor is shown a ticket as valid if and only if the link or code leads to one that is signed, not too long, unrevoked and unexpired; only such a visit is counted |
| `RateLimiter.InviteRateLimiter.Record` | invite_landing.go:93-110 | one attempt moves its own key on and no other |
| `RateLimiter.RecentCounts` | invite_landing.go:97-104 | pruning never loses an attempt that still counts |
| `RateLimiter.WindowBound` | invite_landing.go:93-110 | no half-open interval one window long holds more than max accepted attempts |
| `RateLimiter.BoundIffBlockSeconds` | invite_landing.go:105-108 | with a clock that never goes back that bound holds if and only if the block is a second or more |
| `RateLimiter.BlockLasts` | invite_landing.go:94-107 | once over the limit nothing is let through until the block has run out |
| `RateLimiter.LetThroughIff` | invite_landing.go:93-110 | an attempt is let through if and only if no block runs and fewer than max attempts were noted in the window before it, or the block it would bring is under a second |
| `RateLimiter.AcceptedNotEnough` | invite_landing.go:97-108 | an attempt refused for bringing on a block still counts after it: fewer than max let through is not enough |
| `Replay.ReplayStore.Take` | identity_signing_challenge.go:229-250 | the loop prunes the expired keys, then refuses a known one or a full store, or adds the key |
| `Replay.PruningUnseen` | identity_signing_challenge.go:229-250 | with a clock that never goes back the pruned store answers every call as one that forgets nothing |
| `Replay.StoreBounded` | identity_signing_challenge.go:245-247 | the store never holds more than 4096 keys |
| `Replay.KeyIff` | identity_signing_challenge.go:252-262 | where no text holds the separator two challenges share a key if and only if identity, fingerprint, scope and nonce are the same |
| `Replay.SeparatorShares` | identity_signing_challenge.go:252-262 | a separator inside a text lets two scopes share a key |
| `Replay.ConsumedOnce` | identity_signing_challenge.go:229-263 | a consumed challenge is refused every later time it is presented before its expiry |
| `Replay.ConsumedAgainIff` | bridge.go:244-251 | presented again it is let through if and only if the second call runs after its expiry |
| `WebSocket.Unmask` | websocket.go:322-326 | the in-place loop masks every octet with its key octet |
| `WebSocket.XorAt` | websocket.go:322-326 | masking is exclusive or, bit by bit |
| `WebSocket.Write` | websocket.go:330-371 | the frame is built with the shortest length form |
| `WebSocket.FrameOctets` | websocket.go:330-371 | the octets of a frame: final bit and opcode, mask bit and shortest length form, length, key, and the payload masked octet by octet |
| `WebSocket.Read` | websocket.go:283-328 | the stream is read to a frame and the rest, or to the reason it cannot be |
| `WebSocket.FrameRead` | websocket.go:283-371 | a written frame followed by anything reads back with exactly that left, and is too large exactly over the limit |
| `WebSocket.AllRead` | websocket.go:283-371 | frames written back to back are read back unchanged |
| `WebSocket.CutFrameShort` | websocket.go:283-321 | a frame cut off anywhere is not read |
| `WebSocket.PanicIff` | websocket.go:283-321 | reading panics if and only if the frame says a 64-bit length of 2^63 or more and, if masked, carries its mask key |
| `WebSocket.HugeLengthPanics` | websocket.go:303-319 | so a written header with such a length panics under every limit |

## Left out

- Floating-point numbers and number fractions and exponents in canonical JSON: the model's numbers are 64-bit integers and its decoder refuses the rest.
- Challenge times are whole milliseconds where the code writes fractional seconds, and other clock readings are integers.
- The library decoder's nesting limit of 10000 and its replacement of invalid UTF-8; texts are sequences of Unicode scalars.
- Real Ed25519, SHA-256, random bytes, UUIDs, dates and case tables: parameters, with the ideal law a theorem needs as its precondition.
- ChannelEndpointFromURL, `CheckIdentity` and the admitted channel's later checks: URL parsing and comparisons of stored fields.
- Sockets, HTTP, goroutines, locks, time-outs, flow events and subscriptions: every method runs to its end before the next begins.
- In-place change of nested maps and lists in a cell's storage: the tree is a value, rebuilt along the path that was walked, so aliasing between a stored value and one handed out is not captured.
- `NormalizeJSON` on Go types other than decoded JSON: every stored value is JSON already.
- KeyStore.Sprint: prints numbers in decimal, as the code does Go integers; one kept as a float64 prints with an exponent from a million up, so a match selector on such a number is not modelled.
- Wire models with float64 fields: no signed model but the bridge's signing challenge has one, and that is in `ChannelCodec`.
- General owner writes to the anchor through `setEntity` and `entity.batchPersist`, which may replace a whole root, the seal with it: the seal and JTI results are for the link actions.
- Decoding the payloads of the anchor's and the chat's actions from JSON: the actions take the decoded records.
- Handlers registered on a general cell are functions of the path and the requester: one that itself asks the contract engine is not modelled.
- json.Marshal as used to compare condition policies and condition values is modelled by the canonical encoder and by equality of values, on which it agrees.
- Chat artifacts, acceptances and invitation proofs are verified by parameters, in the order artifact, cell, inviter, acceptance; which of several refusals is named first within one proof is not modelled.
- The chat's participants, drafts, audience mode, recipients and the rows it presents: they decide no access.
- ChatAccess is modelled on values, the book's class being `Chat.ChatBook`: it does not capture the lock order between chat and cell.
- The landing's pages, Norwegian texts, status reports and status codes; the limiter's refusal comes before anything else and changes nothing.
- RateLimiter.InviteRateLimiter.Record: seconds are exact where the code goes through a float, which agrees for any wait under a month.
- 64-bit overflow of ticket lifetimes, contract ends and WebSocket payload lengths beyond what a Go slice can hold.
- Fragmented WebSocket messages, control-frame handling and the upgrade handshake: the code refuses the first, the others are transport.
- VaultCell, GraphIndexCell, the resolver, configuration and commands: easy members or wrappers.
