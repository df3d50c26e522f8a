/** Who may use which of the chat's keys, and what its admission conditions look at, field by field. */
module Entering {
  import opened Prelude
  import opened JsonCodec
  import opened KeyPath
  import opened Agreements
  import opened Contracts
  import opened Chat
  import opened ChatAccess

  /** The requester is this person, by UUID and key. */
  predicate Is(person: Person, requester: Identity) {
    person.uuid == requester.uuid && person.publicKey.Some? && person.publicKey == requester.publicKey
  }

  predicate Accepted(b: Book, requester: Identity) {
    && requester.uuid in b.invitations
    && b.invitations[requester.uuid].status == "accepted" && Is(b.invitations[requester.uuid].person, requester)
  }

  /** An acceptance of an artifact that is still valid, and it is the one its artifact was consumed by. */
  predicate Consumed(s: Setting, b: Book, record: Invitation, clock: int) {
    && record.artifact.Some? && record.acceptance.Some? && s.proofs.invitation(record.artifact.value, clock) == ""
    && record.artifact.value.invitationID in b.consumed
    && b.consumed[record.artifact.value.invitationID].acceptanceID == record.acceptance.value.acceptanceID
  }

  /** Both admission names, for any book at all. */
  lemma AdmissionMeans(s: Setting, b: Book, name: string, requester: Identity, clock: int)
    ensures AdmissionHolds(s, b, name, Some(requester), clock) <==>
              && Accepted(b, requester)
              && (name == "member" || (name == "invitationAccepted" && Consumed(s, b, b.invitations[requester.uuid], clock)))
    ensures !AdmissionHolds(s, b, name, None, clock)
  {
  }

  /** Before any contract: asking for admission, and presenting an artifact or looking at one. */
  predicate OpenToAll(operation: string, keypath: string) {
    if operation == "read" || operation == "flow.read" then
      keypath == "audience.admission.invitationAccepted" || keypath == "audience.admission.member"
    else keypath == "audience.acceptInvitationArtifact" || keypath == "audience.inspectInvitationArtifact"
  }

  /** Whether one of the requester's contracts grants this permission at exactly this key. */
  predicate Granted(c: ChatCell, operation: string, keypath: string, requester: Option<Identity>, now: int, clock: int) {
    ContractAllows(General(c, now, clock), false, if operation == "read" || operation == "flow.read" then "r---" else "-w--", keypath, requester, now)
  }

  /** The key before its first dot. */
  predicate IsRoot(keypath: string, root: string) {
    && root <= keypath && (forall i :: 0 <= i < |root| ==> keypath[i] != '.')
    && (|root| < |keypath| ==> keypath[|root|] == '.')
  }

  lemma RootIs(keypath: string, root: string)
    ensures root == Root(keypath) <==> IsRoot(keypath, root)
  {
    RootFound(keypath, IndexOf(keypath, '.'));
    assert root <= keypath ==> root == keypath[..|root|];
    assert forall i :: 0 <= i < |Root(keypath)| ==> Root(keypath)[i] == keypath[i];
  }

  lemma {:induction false} RootFound(keypath: string, n: nat)
    requires n == IndexOf(keypath, '.')
    ensures n <= |keypath| && (forall i :: 0 <= i < n ==> keypath[i] != '.') && (n < |keypath| ==> keypath[n] == '.')
    decreases |keypath|
  {
    if keypath != "" && keypath[0] != '.' {
      RootFound(keypath[1..], n - 1);
      assert forall i :: 1 <= i < n ==> keypath[i] == keypath[1..][i - 1];
    }
  }

  /**
   * Besides the owner: the open keys are anyone's, changing the admission conditions is nobody else's, and any other
   * key needs a contract for the key itself, or one for its first part together with one for the chat.
   */
  lemma MayUseIff(c: ChatCell, operation: string, keypath: string, requester: Identity, now: int, clock: int)
    requires c.cell.owner.Some? && requester.uuid != c.cell.owner.value.uuid
    ensures Validate(c, false, operation, keypath, Some(requester), now, clock).Ok? <==>
              || OpenToAll(operation, keypath)
              || (&& !(keypath == "audience.admissionConditions" && operation != "read" && operation != "flow.read")
                  && (|| Granted(c, operation, keypath, Some(requester), now, clock)
                      || (&& Granted(c, operation, Root(keypath), Some(requester), now, clock)
                          && Granted(c, operation, "chat", Some(requester), now, clock))))
  {
    hide General;
    hide ContractAllows;
    hide Root;
    OpenIff(operation, keypath);
    hide Open;
    hide OpenToAll;
  }

  lemma OpenIff(operation: string, keypath: string)
    ensures Open(keypath, Permission(operation)) <==> OpenToAll(operation, keypath)
  {
  }

  /** The owner, or anyone at a chat without one, is the general cell's to judge. */
  lemma OwnerAsAnywhere(c: ChatCell, operation: string, keypath: string, requester: Option<Identity>, now: int, clock: int)
    requires c.cell.owner.None? || (requester.Some? && requester.value.uuid == c.cell.owner.value.uuid)
    ensures Validate(c, false, operation, keypath, requester, now, clock)
            == ValidateAccess(General(c, now, clock), false, operation, keypath, requester, now)
  {
    hide General;
    hide ValidateAccess;
  }

  /** Reading a chat key takes access to it; the admission keys answer from the book, the list of conditions to who may read the audience. */
  lemma ReadIff(c: ChatCell, evaluating: bool, keypath: string, requester: Option<Identity>, now: int, clock: int)
    requires keypath != "description" && keypath != "keys"
    ensures var access := Validate(c, evaluating, "read", keypath, requester, now, clock);
            && (access.Err? ==> ChatAccess.Get(c, evaluating, keypath, requester, now, clock) == Err(access.code))
            && (access.Ok? ==>
                  match HandlerKey(keypath, c.cell.handlers.Keys + ADMISSION_KEYS, |keypath|)
                  case None => ChatAccess.Get(c, evaluating, keypath, requester, now, clock) == Ok(Null)
                  case Some(key) =>
                    if key !in ADMISSION_KEYS then ChatAccess.Get(c, evaluating, keypath, requester, now, clock) == c.values(c.book, clock, keypath, requester)
                    else ChatAccess.Get(c, evaluating, keypath, requester, now, clock) == AdmissionRead(c, evaluating, keypath, requester, now, clock))
  {
    hide Validate;
    hide HandlerKey;
    hide AdmissionRead;
    hide ADMISSION_KEYS;
  }
}
