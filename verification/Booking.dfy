/** What the chat's book of invitations does with each command, record by record. */
module Booking {
  import opened Prelude
  import opened Contracts
  import opened Chat
  import KeyOrder

  // ---- Accepting ----

  /** Proofs that hold, for this cell and owner, of the artifact that still stands for an invitee who may still accept, and used for nothing else. */
  predicate Acceptable(p: Proofs, b: Book, owner: Option<Person>, cellUUID: string, a: Artifact, c: Acceptance, now: int) {
    && p.invitation(a, now) == "" && p.acceptance(c, a, now) == ""
    && a.chatCellUUID == cellUUID && (owner.Some? ==> a.inviterUUID == owner.value.uuid)
    && a.invited.uuid in b.invitations
    && var record := b.invitations[a.invited.uuid];
       && record.artifact.Some? && record.artifact.value.invitationID == a.invitationID && p.hash(record.artifact.value) == p.hash(a)
       && record.status != "revoked" && record.status != "declined"
       && if a.invitationID in b.consumed then b.consumed[a.invitationID].acceptanceID == c.acceptanceID
          else forall id :: id in b.consumed ==> b.consumed[id].acceptanceID != c.acceptanceID
  }

  /** Proofs are taken exactly then; the invitee's record and the artifact's row say so, and nothing else changes. */
  lemma AcceptedIff(p: Proofs, b: Book, owner: Option<Person>, cellUUID: string, a: Artifact, c: Acceptance, at: Moment)
    ensures var (next, answer) := AcceptArtifact(p, b, owner, cellUUID, a, c, at);
            && (answer == "" <==> Acceptable(p, b, owner, cellUUID, a, c, at.now))
            && (answer != "" ==> next == b)
            && (answer == "" ==>
                  var id := a.invited.uuid;
                  && id in b.invitations && var record := b.invitations[id];
                     next == Book(
                       b.invitations[id := Invitation(record.person, "accepted", "artifactAccepted", record.createdAt, at.text, Some(a), Some(c))],
                       b.consumed[a.invitationID := Row(a.invitationID, c.acceptanceID, id, at.text)], b.messages))
  {
  }

  // ---- Inviting ----

  /** Names are taken one by one: a description as it is, a UUID for the person it is known as, and one unknown for nobody. */
  lemma PeopleNamed(b: Book, names: seq<Named>, n: Named)
    ensures PeopleFrom(b, names + [n]) == PeopleFrom(b, names) +
              match n
              case Described(person) => [person]
              case Known(uuid) => if uuid in b.invitations then [b.invitations[uuid].person] else []
  {
    assert (names + [n])[..|names|] == names;
  }

  /** Whom an invitation is for: anyone with a key but the owner. */
  predicate Invitable(owner: Option<Person>, person: Person) {
    person.publicKey.Some? && (owner.Some? ==> person.uuid != owner.value.uuid)
  }

  /** The last place in the list where this UUID is invited. */
  predicate LastOf(owner: Option<Person>, people: seq<Person>, uuid: string, i: nat) {
    && i < |people| && people[i].uuid == uuid && Invitable(owner, people[i])
    && forall j :: i < j < |people| ==> !(people[j].uuid == uuid && Invitable(owner, people[j]))
  }

  /** The record of someone invited now: pending, or still accepted, and without its acceptance. */
  predicate InvitedNow(before: map<string, Invitation>, person: Person, now: string, record: Invitation) {
    && record.person == person && record.source == "inviteIdentities" && record.updatedAt == now && record.acceptance == None
    && if person.uuid in before then
         && record.status == (if before[person.uuid].status == "accepted" then "accepted" else "pending")
         && record.artifact == before[person.uuid].artifact && record.createdAt == before[person.uuid].createdAt
       else record.status == "pending" && record.artifact == None && record.createdAt == now
  }

  /** Record by record: someone named as invitable is invited now, as last named, and anyone else's record stays as it was. */
  lemma {:induction false} InvitedEach(b: Book, owner: Option<Person>, people: seq<Person>, now: string, uuid: string)
    ensures var next := InviteAll(b, owner, people, now);
            && next.consumed == b.consumed && next.messages == b.messages
            && (forall i: nat :: LastOf(owner, people, uuid, i) ==>
                  uuid in next.invitations && InvitedNow(b.invitations, people[i], now, next.invitations[uuid]))
            && ((forall i: nat :: !LastOf(owner, people, uuid, i)) ==> RecordOf(next, uuid) == RecordOf(b, uuid))
    decreases |people|
  {
    if people != [] {
      var init, last := people[..|people| - 1], people[|people| - 1];
      assert people == init + [last];
      var before := InviteAll(b, owner, init, now);
      assert InviteAll(b, owner, people, now) == InviteOne(before, owner, last, now);
      hide InviteAll;
      hide InviteOne;
      hide LastOf;
      hide InvitedNow;
      InvitedEach(b, owner, init, now, uuid);
      LastMoves(owner, init, last, uuid);
      OneInvited(before, owner, last, now, uuid);
      if last.uuid == uuid && Invitable(owner, last) {
        assert LastOf(owner, people, uuid, |init|);
        StillAccepted(b, before, owner, init, now, uuid);
        InvitedAgain(b, before, last, now, InviteOne(before, owner, last, now).invitations[uuid]);
      }
    }
  }

  lemma OneInvited(b: Book, owner: Option<Person>, person: Person, now: string, uuid: string)
    ensures var next := InviteOne(b, owner, person, now);
            && next.consumed == b.consumed && next.messages == b.messages
            && if person.uuid == uuid && Invitable(owner, person) then
                 uuid in next.invitations && InvitedNow(b.invitations, person, now, next.invitations[uuid])
               else RecordOf(next, uuid) == RecordOf(b, uuid)
  {
  }

  lemma InvitedAgain(b: Book, before: Book, person: Person, now: string, record: Invitation)
    requires InvitedNow(before.invitations, person, now, record)
    requires person.uuid in before.invitations ==> Started(b, before.invitations[person.uuid], person.uuid, now)
    requires person.uuid in b.invitations ==> person.uuid in before.invitations
    ensures InvitedNow(b.invitations, person, now, record)
  {
  }

  /** A record as an earlier invitation of the same call leaves it. */
  predicate Started(b: Book, record: Invitation, uuid: string, now: string) {
    if uuid in b.invitations then
      && (record.status == "accepted" <==> b.invitations[uuid].status == "accepted")
      && record.artifact == b.invitations[uuid].artifact && record.createdAt == b.invitations[uuid].createdAt
    else record.status == "pending" && record.artifact == None && record.createdAt == now
  }

  function RecordOf(b: Book, uuid: string): Option<Invitation> {
    if uuid in b.invitations then Some(b.invitations[uuid]) else None
  }

  lemma LastMoves(owner: Option<Person>, init: seq<Person>, last: Person, uuid: string)
    ensures if last.uuid == uuid && Invitable(owner, last) then
              forall i: nat :: LastOf(owner, init + [last], uuid, i) <==> i == |init|
            else forall i: nat :: LastOf(owner, init + [last], uuid, i) <==> LastOf(owner, init, uuid, i)
  {
    var people := init + [last];
    hide Invitable;
    forall i: nat
      ensures LastOf(owner, people, uuid, i) <==>
              if last.uuid == uuid && Invitable(owner, last) then i == |init| else LastOf(owner, init, uuid, i)
    {
      if i < |init| {
        assert people[i] == init[i] && people[|init|] == last;
        assert forall j :: i < j < |init| ==> people[j] == init[j];
      }
    }
  }

  /** A record invited again keeps what the first invitation of the call left it. */
  lemma StillAccepted(b: Book, before: Book, owner: Option<Person>, init: seq<Person>, now: string, uuid: string)
    requires forall i: nat :: LastOf(owner, init, uuid, i) ==>
               uuid in before.invitations && InvitedNow(b.invitations, init[i], now, before.invitations[uuid])
    requires (forall i: nat :: !LastOf(owner, init, uuid, i)) ==> RecordOf(before, uuid) == RecordOf(b, uuid)
    ensures uuid in before.invitations ==> Started(b, before.invitations[uuid], uuid, now)
    ensures uuid in b.invitations ==> uuid in before.invitations
  {
    if i: nat :| LastOf(owner, init, uuid, i) {
      assert InvitedNow(b.invitations, init[i], now, before.invitations[uuid]);
      assert init[i].uuid == uuid;
    }
  }

  // ---- Issuing and revoking ----

  function EntryOf(consumed: map<string, Row>, id: string): Option<Row> {
    if id in consumed then Some(consumed[id]) else None
  }

  /** The artifact stands: issued to someone neither revoked nor declined, not consumed, and still valid. */
  predicate Stands(p: Proofs, record: Invitation, now: int) {
    && record.artifact.Some? && record.acceptance.None? && record.status != "revoked" && record.status != "declined"
    && p.invitation(record.artifact.value, now) == ""
  }

  /** One record's turn: a standing artifact stays; otherwise a new one is built, and the old one's row goes with it. */
  lemma IssuedOne(p: Proofs, b: Book, id: string, draw: string -> string, at: Moment)
    requires id in b.invitations
    ensures var (next, ok) := GenerateOne(p, b, id, draw, at);
            var record := b.invitations[id];
            var status := if record.status == "declined" then "pending" else record.status;
            && (Stands(p, record, at.now) ==> next == b && ok)
            && (!Stands(p, record, at.now) ==>
                  var built := p.build(draw(id), record.person, at.now);
                  && (ok <==> built.Ok?)
                  && (built.Err? ==> next == b.(invitations := b.invitations[id := record.(status := status)]))
                  && (built.Ok? ==>
                        && next.invitations == b.invitations[id := record.(
                             status := status, artifact := Some(built.value), acceptance := None, updatedAt := at.text)]
                        && next.messages == b.messages
                        && forall row :: EntryOf(next.consumed, row) ==
                             if record.artifact.Some? && row == record.artifact.value.invitationID then None else EntryOf(b.consumed, row)))
  {
  }

  /** What one record becomes: itself while its artifact stands, and otherwise the holder of the one just built. */
  predicate IssuedNow(p: Proofs, before: Invitation, drawn: string, at: Moment, after: Invitation) {
    if Stands(p, before, at.now) then after == before
    else
      && p.build(drawn, before.person, at.now).Ok?
      && after == before.(status := if before.status == "declined" then "pending" else before.status,
                          artifact := Some(p.build(drawn, before.person, at.now).value), acceptance := None, updatedAt := at.text)
  }

  predicate Distinct(ids: seq<string>) {
    forall i, j :: 0 <= i < j < |ids| ==> ids[i] != ids[j]
  }

  /** All of those listed have their turn, and nobody else's record changes. */
  lemma {:induction false} IssuedEach(p: Proofs, b: Book, ids: seq<string>, draw: string -> string, at: Moment)
    requires (forall id :: id in ids ==> id in b.invitations) && Distinct(ids)
    requires GenerateAll(p, b, ids, draw, at).1
    ensures var next := GenerateAll(p, b, ids, draw, at).0;
            && next.invitations.Keys == b.invitations.Keys && next.messages == b.messages
            && (forall id :: id in ids ==> IssuedNow(p, b.invitations[id], draw(id), at, next.invitations[id]))
            && (forall id :: id in b.invitations && id !in ids ==> next.invitations[id] == b.invitations[id])
    decreases |ids|
  {
    if ids != [] {
      var first, rest := ids[0], ids[1..];
      assert ids == [first] + rest;
      var one := GenerateOne(p, b, first, draw, at).0;
      IssuedOne(p, b, first, draw, at);
      hide GenerateOne;
      hide Stands;
      IssuedEach(p, one, rest, draw, at);
      hide GenerateAll;
      assert first !in rest;
    }
  }

  /** The sorted ids name each target who may have an artifact once. */
  lemma IssuedToTargets(p: Proofs, b: Book, canSign: bool, t: Targets, draw: string -> string, at: Moment)
    requires GenerateArtifacts(p, b, canSign, t, draw, at).1 == ""
    ensures canSign && !t.Invalid?
    ensures var next := GenerateArtifacts(p, b, canSign, t, draw, at).0;
            forall id :: id in b.invitations ==>
              && id in next.invitations
              && if b.invitations[id].status != "revoked" && (t.Everyone? || (t.Listed? && id in t.ids)) then
                   IssuedNow(p, b.invitations[id], draw(id), at, next.invitations[id])
                 else next.invitations[id] == b.invitations[id]
  {
    hide GenerateAll;
    hide IssuedNow;
    hide Stands;
    var keys := TargetIDs(b, t) * Eligible(b);
    var ids := KeyOrder.SortedKeys(keys, KeyOrder.CodePoint);
    KeysOnce(keys);
    hide KeyOrder.SortedKeys;
    assert forall id :: id in keys ==> id in b.invitations && b.invitations[id].status != "revoked";
    IssuedEach(p, b, ids, draw, at);
  }

  lemma {:induction false} KeysOnce(keys: set<string>)
    ensures Distinct(KeyOrder.SortedKeys(keys, KeyOrder.CodePoint))
    decreases |keys|
  {
    if keys != {} {
      KeyOrder.SortedKeysStep(keys, KeyOrder.CodePoint);
      var k := KeyOrder.SortedKeys(keys, KeyOrder.CodePoint)[0];
      KeysOnce(keys - {k});
      assert k !in KeyOrder.SortedKeys(keys - {k}, KeyOrder.CodePoint);
      hide KeyOrder.SortedKeys;
      hide KeyOrder.IsLeast;
    }
  }

  /** Statuses change for all those named, known ones every one, or for nobody. */
  lemma StatusIff(b: Book, t: Targets, status: string, now: string)
    ensures var (next, answer) := UpdateStatuses(b, t, status, now);
            var named := if t.Everyone? then b.invitations.Keys else if t.Listed? then t.ids else {};
            && (answer == "" <==> !t.Invalid? && named <= b.invitations.Keys)
            && (answer != "" ==> next == b)
            && next.invitations.Keys == b.invitations.Keys && next.consumed == b.consumed && next.messages == b.messages
            && forall id :: id in b.invitations ==>
                 next.invitations[id] ==
                 if answer == "" && id in named then b.invitations[id].(status := status, updatedAt := now) else b.invitations[id]
  {
  }

  /** Artifacts are issued to everyone not revoked, or to those listed if all of them may have one and the owner can sign. */
  lemma IssueRefused(p: Proofs, b: Book, canSign: bool, t: Targets, draw: string -> string, at: Moment)
    requires t.Invalid? || !canSign || (t.Listed? && exists id :: id in t.ids && (id !in b.invitations || b.invitations[id].status == "revoked"))
    ensures GenerateArtifacts(p, b, canSign, t, draw, at).0 == b && GenerateArtifacts(p, b, canSign, t, draw, at).1 != ""
  {
    hide GenerateAll;
    hide KeyOrder.SortedKeys;
  }
}
