/** The contract engine: signed contracts, re-checked at every access, depending on conditions read back from the cell. */
module Contracts {
  import opened Prelude
  import opened JsonCodec
  import opened KeyPath
  import opened KeyStore
  import opened Agreements
  import Text

  // ---- Identities ----

  /** An identity as presented; the key is none when its text is not Base64. */
  datatype Identity = Identity(uuid: string, displayName: string, publicKey: Option<Bytes>, hasVault: bool)

  predicate SameKey(expected: Identity, presented: Identity) {
    && expected.uuid != "" && expected.uuid == presented.uuid
    && expected.publicKey.Some? && |expected.publicKey.value| == 32 && expected.publicKey == presented.publicKey
  }

  // ---- The cell ----

  datatype Agreement = Agreement(owner: Option<Identity>, state: string, conditions: seq<Condition>, grants: seq<Grant>, duration: int)

  datatype Contract = Contract(subject: Identity, grants: seq<Grant>, conditions: seq<Condition>, duration: int, issuedAt: int)

  type Handler = (string, Option<Identity>) -> Result<Json>

  /** Reads the outer cell answers while conditions are evaluated. */
  type Reader = (string, Identity) -> Result<Json>

  /** Times are in nanoseconds. The description advertises the template. `control` is the signing-key proof for a resource and an action. */
  datatype Cell = Cell(
    uuid: string, owner: Option<Identity>, control: (Identity, string, string) -> bool, outer: Option<Reader>,
    description: Template -> Json, keys: Json, handlers: map<string, Handler>, storage: Fields,
    template: Template, policy: string, contracts: seq<Contract>, revokedBefore: map<string, int>)

  const OWNER_APPROVAL := "ownerApprovalRequired"
  const AUTOMATIC := "automaticWhenConditionsMet"
  const PUBLISHED_READ := "ownerPublishedRead"
  const SECOND := 1_000_000_000
  const MICROSECOND := 1_000

  /** The presented identity is the expected one and signs a fresh challenge for the resource. */
  predicate ProvesControl(c: Cell, expected: Identity, presented: Identity, resource: string, action: string) {
    SameKey(expected, presented) && presented.hasVault && c.control(presented, resource, action)
  }

  function Resource(c: Cell, path: string): string {
    "cell:///" + c.uuid + "/" + path
  }

  function Permission(operation: string): string {
    if operation == "read" || operation == "flow.read" then "r---" else "-w--"
  }

  // ---- Which contracts count ----

  predicate Revoked(c: Cell, contract: Contract) {
    contract.subject.uuid in c.revokedBefore && contract.issuedAt <= c.revokedBefore[contract.subject.uuid]
  }

  predicate InForce(contract: Contract, now: int) {
    contract.issuedAt <= now < contract.issuedAt + contract.duration * SECOND
  }

  predicate InsideTemplate(contract: Contract, t: Template) {
    && contract.duration <= t.Duration() && ConditionsMatch(contract.conditions, t.conditions)
    && forall i :: 0 <= i < |contract.grants| ==> CheckGrant(t, contract.grants[i])
  }

  predicate IsCurrent(c: Cell, contract: Contract, requester: Identity, now: int) {
    && SameKey(contract.subject, requester) && !Revoked(c, contract) && InForce(contract, now)
    && InsideTemplate(contract, c.template)
  }

  predicate Covers(grants: seq<Grant>, requested: Grant) {
    exists i :: 0 <= i < |grants| && CoversExactly(grants[i], requested)
  }

  // ---- Access, conditions, and back ----

  predicate Under(keypath: string, key: string) {
    key <= keypath && (|key| == |keypath| || keypath[|key|] == '.')
  }

  /** The longest registered key of at most n characters that is the path or a dotted prefix of it. */
  function HandlerKey(keypath: string, keys: set<string>, n: nat): (r: Option<string>)
    requires n <= |keypath|
    ensures r.Some? ==> r.value in keys && Under(keypath, r.value)
    ensures forall key :: key in keys && Under(keypath, key) && |key| <= n ==> r.Some? && |key| <= |r.value|
  {
    assert forall key: string :: key <= keypath && |key| == n ==> key == keypath[..n];
    if keypath[..n] in keys && Under(keypath, keypath[..n]) then Some(keypath[..n])
    else if n == 0 then None
    else HandlerKey(keypath, keys, n - 1)
  }

  function Get(c: Cell, evaluating: bool, keypath: string, requester: Option<Identity>, now: int): Result<Json>
    decreases if evaluating then 0 else 1, 5, 0
  {
    if keypath == "description" then Ok(c.description(c.template))
    else if keypath == "keys" then Ok(c.keys)
    else
      var _ :- ValidateAccess(c, evaluating, "read", keypath, requester, now);
      match HandlerKey(keypath, c.handlers.Keys, |keypath|)
      case Some(key) => c.handlers[key](keypath, requester)
      case None => Read(Obj(c.storage), keypath)
  }

  function ValidateAccess(c: Cell, evaluating: bool, operation: string, keypath: string, requester: Option<Identity>, now: int): Result<()>
    decreases if evaluating then 0 else 1, 4, 0
  {
    if c.owner.None? then Err("access denied: cell has no owner")
    else
      var owner := c.owner.value;
      if requester.Some? && requester.value.uuid == owner.uuid then
        if !SameKey(owner, requester.value) then Err("access denied: owner UUID matched but signing key differed")
        else if ProvesControl(c, owner, requester.value, Resource(c, keypath), operation) then Ok(())
        else Err("access denied: owner signing-key proof failed")
      else if ContractAllows(c, evaluating, Permission(operation), keypath, requester, now) then Ok(())
      else Err("access denied: no contract")
  }

  function ContractAllows(c: Cell, evaluating: bool, permission: string, keypath: string, requester: Option<Identity>, now: int): bool
    decreases if evaluating then 0 else 1, 3, 0
  {
    requester.Some? && !evaluating && AnyAllows(c, c.contracts, Grant(keypath, permission), requester.value, now)
  }

  function AnyAllows(c: Cell, contracts: seq<Contract>, requested: Grant, requester: Identity, now: int): bool
    decreases 1, 2, |contracts|
  {
    contracts != [] &&
    (|| (&& IsCurrent(c, contracts[0], requester, now) && Covers(contracts[0].grants, requested)
         && ConditionsHold(c, contracts[0].conditions, requester, now))
     || AnyAllows(c, contracts[1..], requested, requester, now))
  }

  function ConditionsHold(c: Cell, conditions: seq<Condition>, identity: Identity, now: int): bool
    decreases 1, 1, |conditions|
  {
    conditions == [] || (Met(c, conditions[0], identity, now) && ConditionsHold(c, conditions[1..], identity, now))
  }

  function Replaced(s: string, mark: string, value: string): string
    requires mark != ""
  {
    if s == "" then ""
    else if mark <= s then value + Replaced(s[|mark|..], mark, value)
    else [s[0]] + Replaced(s[1..], mark, value)
  }

  function Met(c: Cell, condition: Condition, requester: Identity, now: int): bool
    decreases 1, 0, 0
  {
    condition.Lookup? &&
    var keypath := Replaced(condition.keypath, "$identity", requester.uuid);
    var dot := IndexOf(keypath, '.');
    && dot + 1 < |keypath| && keypath[..dot] == "target"
    && TargetGet(c, keypath[dot + 1..], requester, now) == Ok(condition.expected)
  }

  /** While conditions are evaluated contracts give no access, so the evaluation ends. */
  function TargetGet(c: Cell, child: string, requester: Identity, now: int): Result<Json>
    decreases 0, 6, 0
  {
    if c.outer.Some? then c.outer.value(child, requester) else Get(c, true, child, Some(requester), now)
  }

  function AnyHolds(c: Cell, contracts: seq<Contract>, requester: Identity, now: int): bool
  {
    contracts != [] &&
    (|| (IsCurrent(c, contracts[0], requester, now) && ConditionsHold(c, contracts[0].conditions, requester, now))
     || AnyHolds(c, contracts[1..], requester, now))
  }

  function HoldsContract(c: Cell, evaluating: bool, requester: Option<Identity>, now: int): bool {
    requester.Some? && !evaluating && AnyHolds(c, c.contracts, requester.value, now)
  }

  // ---- Signing a contract ----

  predicate Enforcing(condition: Condition) {
    condition.Lookup? && ("target." <= Text.TrimSpace(condition.keypath) || "resolve." <= Text.TrimSpace(condition.keypath))
  }

  predicate RequestFits(c: Cell, request: Agreement) {
    && c.owner.Some? && request.owner.Some? && SameKey(c.owner.value, request.owner.value)
    && request.state == "template" && 0 < request.duration <= c.template.Duration() && request.duration <= MAXIMUM_DURATION
    && request.grants != [] && ConditionsMatch(request.conditions, c.template.conditions)
    && forall i :: 0 <= i < |request.grants| ==> CheckGrant(c.template, request.grants[i])
  }

  predicate PolicyAllows(c: Cell, request: Agreement) {
    || (c.policy == AUTOMATIC && exists i :: 0 <= i < |c.template.conditions| && Enforcing(c.template.conditions[i]))
    || (c.policy == PUBLISHED_READ && forall i :: 0 <= i < |request.grants| ==> PermissionBits(request.grants[i].permission) == Some((4, 0)))
  }

  predicate OwnerAuthorizes(c: Cell, authority: Option<Identity>) {
    c.owner.Some? && authority.Some? && ProvesControl(c, c.owner.value, authority.value, Resource(c, "agreement"), "addAgreement")
  }

  predicate Admissible(c: Cell, request: Agreement, identity: Identity, authority: Option<Identity>, now: int) {
    && (identity.hasVault ==> ProvesControl(c, identity, identity, Resource(c, "agreement"), "addAgreement"))
    && RequestFits(c, request)
    && (OwnerAuthorizes(c, authority) || PolicyAllows(c, request))
    && ConditionsHold(c, c.template.conditions, identity, now)
  }

  /** A contract is never issued at or before its subject's cutoff, whatever the clock says. */
  function IssueTime(c: Cell, uuid: string, now: int): int {
    if uuid in c.revokedBefore && now <= c.revokedBefore[uuid] then c.revokedBefore[uuid] + MICROSECOND else now
  }

  function AddAgreement(c: Cell, request: Agreement, identity: Option<Identity>, authority: Option<Identity>, now: int): (Cell, string) {
    if identity.None? || !Admissible(c, request, identity.value, authority, now) then (c, "rejected")
    else
      var contract := Contract(identity.value, request.grants, c.template.conditions, request.duration, IssueTime(c, identity.value.uuid, now));
      (c.(contracts := c.contracts + [contract]), "signed")
  }

  function Others(contracts: seq<Contract>, uuid: string): seq<Contract> {
    if contracts == [] then []
    else
      var n := |contracts| - 1;
      if contracts[n].subject.uuid == uuid then Others(contracts[..n], uuid) else Others(contracts[..n], uuid) + [contracts[n]]
  }

  function RemoveContracts(c: Cell, uuid: string, now: int): Cell {
    c.(revokedBefore := c.revokedBefore[uuid := now], contracts := Others(c.contracts, uuid))
  }

  // ---- Evaluation ends and does not see contracts ----

  /** What may differ unnoticed: contracts, revocations, admission policy, and the template but for its being advertised. */
  ghost predicate SameReads(c: Cell, d: Cell) {
    d == c.(template := d.template, policy := d.policy, contracts := d.contracts, revokedBefore := d.revokedBefore)
  }

  lemma AccessIgnoresContracts(c: Cell, d: Cell, operation: string, keypath: string, requester: Option<Identity>, now: int, later: int)
    requires SameReads(c, d)
    ensures ValidateAccess(c, true, operation, keypath, requester, now) == ValidateAccess(d, true, operation, keypath, requester, later)
  {
    hide SameKey;
  }

  lemma GetIgnoresContracts(c: Cell, d: Cell, keypath: string, requester: Option<Identity>, now: int, later: int)
    requires SameReads(c, d) && (keypath == "description" ==> c.template == d.template)
    ensures Get(c, true, keypath, requester, now) == Get(d, true, keypath, requester, later)
  {
    AccessIgnoresContracts(c, d, "read", keypath, requester, now, later);
    hide ValidateAccess;
    hide Read;
    hide HandlerKey;
    assert c.handlers == d.handlers && c.storage == d.storage && c.description == d.description && c.keys == d.keys;
  }

  /** The part of the target a condition reads, for this requester; none when it is not a lookup on the target. */
  function TargetChild(condition: Condition, requester: Identity): Option<string> {
    if condition.Unsupported? then None
    else
      var keypath := Replaced(condition.keypath, "$identity", requester.uuid);
      var dot := IndexOf(keypath, '.');
      if dot + 1 < |keypath| && keypath[..dot] == "target" then Some(keypath[dot + 1..]) else None
  }

  /** A condition is met when its target's child reads as expected, and never otherwise. */
  lemma MetReads(c: Cell, condition: Condition, requester: Identity, now: int)
    ensures Met(c, condition, requester, now) <==>
              && TargetChild(condition, requester).Some?
              && TargetGet(c, TargetChild(condition, requester).value, requester, now) == Ok(condition.expected)
  {
    hide Replaced;
    hide TargetGet;
  }

  /** None of the conditions looks at the cell's own advertisement. */
  predicate NoneReadsDescription(conditions: seq<Condition>, requester: Identity) {
    forall i :: 0 <= i < |conditions| ==> TargetChild(conditions[i], requester) != Some("description")
  }

  /** No stored contract, revocation, policy or clock reading changes what a plain cell's conditions answer. */
  lemma {:induction false} ConditionsIgnoreContracts(c: Cell, d: Cell, conditions: seq<Condition>, identity: Identity, now: int, later: int)
    requires SameReads(c, d) && (c.template == d.template || NoneReadsDescription(conditions, identity))
    ensures ConditionsHold(c, conditions, identity, now) == ConditionsHold(d, conditions, identity, later)
    decreases |conditions|
  {
    if conditions != [] {
      MetIgnoresContracts(c, d, conditions[0], identity, now, later);
      ConditionsIgnoreContracts(c, d, conditions[1..], identity, now, later);
      hide Met;
      hide SameReads;
      hide NoneReadsDescription;
    }
  }

  lemma MetIgnoresContracts(c: Cell, d: Cell, condition: Condition, identity: Identity, now: int, later: int)
    requires SameReads(c, d) && (c.template == d.template || TargetChild(condition, identity) != Some("description"))
    ensures Met(c, condition, identity, now) == Met(d, condition, identity, later)
  {
    MetReads(c, condition, identity, now);
    MetReads(d, condition, identity, later);
    hide Met;
    if TargetChild(condition, identity).Some? {
      GetIgnoresContracts(c, d, TargetChild(condition, identity).value, Some(identity), now, later);
    }
    hide Get;
    hide TargetChild;
  }

  /** Two cells whose targets read alike to an identity answer alike on all its conditions. */
  lemma {:induction false} SameTargetsSameAnswers(c: Cell, d: Cell, conditions: seq<Condition>, identity: Identity, now: int, later: int)
    requires forall child :: TargetGet(c, child, identity, now) == TargetGet(d, child, identity, later)
    ensures ConditionsHold(c, conditions, identity, now) == ConditionsHold(d, conditions, identity, later)
    decreases |conditions|
  {
    if conditions != [] {
      MetReads(c, conditions[0], identity, now);
      MetReads(d, conditions[0], identity, later);
      SameTargetsSameAnswers(c, d, conditions[1..], identity, now, later);
      hide TargetChild;
      hide TargetGet;
      hide Met;
    }
  }

  /** Inside an evaluation only the owner gets past a cell's own access check. */
  lemma EvaluatingAccess(c: Cell, operation: string, keypath: string, requester: Option<Identity>, now: int)
    ensures ValidateAccess(c, true, operation, keypath, requester, now).Ok? ==>
              c.owner.Some? && requester.Some? && ProvesControl(c, c.owner.value, requester.value, Resource(c, keypath), operation)
  {
  }

  // ---- What access means ----

  /** The contract that carries an access. */
  ghost predicate Carries(c: Cell, contract: Contract, requested: Grant, requester: Identity, now: int) {
    && contract in c.contracts && IsCurrent(c, contract, requester, now) && Covers(contract.grants, requested)
    && ConditionsHold(c, contract.conditions, requester, now)
  }

  lemma {:induction false} AnyAllowsIff(c: Cell, contracts: seq<Contract>, requested: Grant, requester: Identity, now: int)
    ensures AnyAllows(c, contracts, requested, requester, now) <==>
              exists contract :: && contract in contracts && IsCurrent(c, contract, requester, now) && Covers(contract.grants, requested)
                                 && ConditionsHold(c, contract.conditions, requester, now)
    decreases |contracts|
  {
    hide IsCurrent;
    hide Covers;
    hide ConditionsHold;
    if contracts != [] {
      AnyAllowsIff(c, contracts[1..], requested, requester, now);
      assert contracts == [contracts[0]] + contracts[1..];
    }
  }

  /**
   * Access is carried by a stored contract that is current and whose conditions hold, and then the template
   * as it stands covers the request bit by bit, for no longer than it allows and under the same conditions.
   */
  lemma AllowedByTemplate(c: Cell, permission: string, keypath: string, requester: Identity, now: int)
    ensures ContractAllows(c, false, permission, keypath, Some(requester), now) <==>
              exists contract :: Carries(c, contract, Grant(keypath, permission), requester, now)
    ensures ContractAllows(c, false, permission, keypath, Some(requester), now) ==>
              CheckGrant(c.template, Grant(keypath, permission))
  {
    var requested := Grant(keypath, permission);
    AnyAllowsIff(c, c.contracts, requested, requester, now);
    if ContractAllows(c, false, permission, keypath, Some(requester), now) {
      var contract :| && contract in c.contracts && IsCurrent(c, contract, requester, now) && Covers(contract.grants, requested)
                      && ConditionsHold(c, contract.conditions, requester, now);
      assert Carries(c, contract, requested, requester, now);
      CoveredByTemplate(contract, c.template, requested);
    } else {
      forall contract
        ensures !Carries(c, contract, requested, requester, now)
      {
        hide IsCurrent;
      }
    }
  }

  lemma CoveredByTemplate(contract: Contract, t: Template, requested: Grant)
    requires InsideTemplate(contract, t) && Covers(contract.grants, requested)
    ensures CheckGrant(t, requested)
  {
    hide CoversExactly;
    hide ConditionsMatch;
    var i :| 0 <= i < |contract.grants| && CoversExactly(contract.grants[i], requested);
    var j :| 0 <= j < |t.grants| && CoversExactly(t.grants[j], contract.grants[i]);
    CoversTransitive(t.grants[j], contract.grants[i], requested);
  }

  /** A carrying contract's conditions are the template's, so the template's conditions hold too. */
  lemma CarriedConditions(c: Cell, contract: Contract, requested: Grant, requester: Identity, now: int)
    requires Carries(c, contract, requested, requester, now)
    ensures forall condition :: condition in c.template.conditions ==> Met(c, condition, requester, now)
  {
    ConditionsMatchIff(contract.conditions, c.template.conditions);
    hide ConditionsMatch;
    hide Met;
    hide Covers;
    AllMet(c, contract.conditions, requester, now);
    forall condition | condition in c.template.conditions
      ensures Met(c, condition, requester, now)
    {
      assert condition in multiset(contract.conditions);
    }
  }

  lemma {:induction false} AllMet(c: Cell, conditions: seq<Condition>, identity: Identity, now: int)
    ensures ConditionsHold(c, conditions, identity, now) <==> forall condition :: condition in conditions ==> Met(c, condition, identity, now)
    decreases |conditions|
  {
    if conditions != [] {
      var first, rest := conditions[0], conditions[1..];
      AllMet(c, rest, identity, now);
      assert conditions == [first] + rest;
      assert ConditionsHold(c, conditions, identity, now) <==> Met(c, first, identity, now) && ConditionsHold(c, rest, identity, now);
      if ConditionsHold(c, conditions, identity, now) {
        forall condition | condition in conditions
          ensures Met(c, condition, identity, now)
        {
          assert condition == first || condition in rest;
        }
      }
      if forall condition :: condition in conditions ==> Met(c, condition, identity, now) {
        assert first in conditions;
        forall condition | condition in rest
          ensures Met(c, condition, identity, now)
        {
          assert condition in conditions;
        }
      }
    }
  }

  // ---- Whole runs ----

  /** Requests, revocations, and any change at all to template, policy, storage, handlers, owner or name. */
  datatype Event =
    | Request(agreement: Agreement, identity: Option<Identity>, authority: Option<Identity>, now: int)
    | Remove(uuid: string, now: int)
    | Change(to: Cell)

  function Next(c: Cell, e: Event): Cell {
    match e
    case Request(agreement, identity, authority, now) => AddAgreement(c, agreement, identity, authority, now).0
    case Remove(uuid, now) => RemoveContracts(c, uuid, now)
    case Change(to) => to.(contracts := c.contracts, revokedBefore := c.revokedBefore)
  }

  function After(c: Cell, events: seq<Event>): Cell
    decreases |events|
  {
    if events == [] then c else After(Next(c, events[0]), events[1..])
  }

  /** Every stored contract was issued strictly after its subject's cutoff. */
  predicate Unrevoked(c: Cell) {
    forall contract :: contract in c.contracts ==> !Revoked(c, contract)
  }

  lemma {:induction false} OthersAre(contracts: seq<Contract>, uuid: string)
    ensures forall contract :: contract in Others(contracts, uuid) <==> contract in contracts && contract.subject.uuid != uuid
  {
    if contracts != [] {
      var n := |contracts| - 1;
      OthersAre(contracts[..n], uuid);
      assert contracts == contracts[..n] + [contracts[n]];
    }
  }

  lemma NextKeepsUnrevoked(c: Cell, e: Event)
    requires Unrevoked(c)
    ensures Unrevoked(Next(c, e))
  {
    hide Admissible;
    if e.Remove? {
      OthersAre(c.contracts, e.uuid);
    }
  }

  /** For any interleaving and any clock, forwards or back. */
  lemma {:induction false} RunKeepsUnrevoked(c: Cell, events: seq<Event>)
    requires Unrevoked(c)
    ensures Unrevoked(After(c, events))
    decreases |events|
  {
    hide Unrevoked;
    hide Next;
    if events != [] {
      NextKeepsUnrevoked(c, events[0]);
      RunKeepsUnrevoked(Next(c, events[0]), events[1..]);
    }
  }

  /** In no state a run reaches does access rest on a revoked, expired or overreaching contract. */
  lemma Authority(c: Cell, events: seq<Event>, permission: string, keypath: string, requester: Identity, now: int)
    requires c.contracts == []
    requires ContractAllows(After(c, events), false, permission, keypath, Some(requester), now)
    ensures var d := After(c, events);
            && Unrevoked(d) && CheckGrant(d.template, Grant(keypath, permission))
            && (exists contract ::
                  && Carries(d, contract, Grant(keypath, permission), requester, now)
                  && contract.subject.uuid == requester.uuid && contract.subject.publicKey == requester.publicKey
                  && requester.publicKey.Some? && |requester.publicKey.value| == 32
                  && contract.issuedAt <= now < contract.issuedAt + contract.duration * 1_000_000_000
                  && contract.duration <= d.template.Duration()
                  && (requester.uuid in d.revokedBefore ==> d.revokedBefore[requester.uuid] < contract.issuedAt))
            && (forall condition :: condition in d.template.conditions ==> Met(d, condition, requester, now))
  {
    RunKeepsUnrevoked(c, events);
    var d, requested := After(c, events), Grant(keypath, permission);
    hide After;
    AllowedByTemplate(d, permission, keypath, requester, now);
    hide ContractAllows;
    hide Met;
    hide Covers;
    hide ConditionsHold;
    hide ConditionsMatch;
    hide CoversExactly;
    var contract :| Carries(d, contract, requested, requester, now);
    CarriedConditions(d, contract, requested, requester, now);
  }

  predicate NoneFor(c: Cell, uuid: string) {
    forall contract :: contract in c.contracts ==> contract.subject.uuid != uuid
  }

  /** No event signs a new contract for this identity. */
  predicate NeverSigns(c: Cell, events: seq<Event>, uuid: string)
    decreases |events|
  {
    events == [] ||
    (var e := events[0];
     && (e.Request? && e.identity.Some? && e.identity.value.uuid == uuid ==> AddAgreement(c, e.agreement, e.identity, e.authority, e.now).1 == "rejected")
     && NeverSigns(Next(c, e), events[1..], uuid))
  }

  lemma {:induction false} NoneStays(c: Cell, events: seq<Event>, uuid: string)
    requires NoneFor(c, uuid) && NeverSigns(c, events, uuid)
    ensures NoneFor(After(c, events), uuid)
    decreases |events|
  {
    hide Admissible;
    if events != [] {
      if events[0].Remove? {
        OthersAre(c.contracts, events[0].uuid);
      }
      NoneStays(Next(c, events[0]), events[1..], uuid);
    }
  }

  /** After a revocation the identity has no access by contract until the cell signs a new one for it. */
  lemma RevokedUntilSigned(c: Cell, events: seq<Event>, requester: Identity, when: int, permission: string, keypath: string, now: int)
    requires NeverSigns(RemoveContracts(c, requester.uuid, when), events, requester.uuid)
    ensures var d := After(RemoveContracts(c, requester.uuid, when), events);
            !ContractAllows(d, false, permission, keypath, Some(requester), now) && !HoldsContract(d, false, Some(requester), now)
  {
    OthersAre(c.contracts, requester.uuid);
    var e := RemoveContracts(c, requester.uuid, when);
    NoneStays(e, events, requester.uuid);
    var d := After(e, events);
    hide After;
    hide NeverSigns;
    AnyAllowsIff(d, d.contracts, Grant(keypath, permission), requester, now);
    AnyHoldsIff(d, d.contracts, requester, now);
    hide InsideTemplate;
    hide Covers;
    hide ConditionsHold;
  }

  lemma {:induction false} AnyHoldsIff(c: Cell, contracts: seq<Contract>, requester: Identity, now: int)
    ensures AnyHolds(c, contracts, requester, now) <==>
              exists contract :: contract in contracts && IsCurrent(c, contract, requester, now) && ConditionsHold(c, contract.conditions, requester, now)
    decreases |contracts|
  {
    hide IsCurrent;
    hide ConditionsHold;
    if contracts != [] {
      AnyHoldsIff(c, contracts[1..], requester, now);
      assert contracts == [contracts[0]] + contracts[1..];
    }
  }

  // ---- The class ----

  method AnyCovers(grants: seq<Grant>, requested: Grant) returns (found: bool)
    ensures found == Covers(grants, requested)
  {
    found := false;
    for i := 0 to |grants|
      invariant found <==> exists k :: 0 <= k < i && CoversExactly(grants[k], requested)
    {
      found := found || CoversExactly(grants[i], requested);
    }
  }

  class GeneralCell {
    var uuid: string
    var owner: Option<Identity>
    var control: (Identity, string, string) -> bool
    var outer: Option<Reader>
    var description: Template -> Json
    var keys: Json
    var handlers: map<string, Handler>
    var storage: Fields
    var template: Template
    var policy: string
    var contracts: seq<Contract>
    var revokedBefore: map<string, int>

    function View(): Cell
      reads this
    {
      Cell(uuid, owner, control, outer, description, keys, handlers, storage, template, policy, contracts, revokedBefore)
    }

    constructor (uuid: string, owner: Option<Identity>, control: (Identity, string, string) -> bool, description: Template -> Json, keys: Json)
      ensures View() == Cell(uuid, owner, control, None, description, keys, map[], map[],
                             Template([Grant("description", "r--"), Grant("keys", "r--")], [], 0), OWNER_APPROVAL, [], map[])
    {
      this.uuid, this.owner, this.control, this.outer := uuid, owner, control, None;
      this.description, this.keys, this.handlers, this.storage := description, keys, map[], map[];
      template, policy := Template([Grant("description", "r--"), Grant("keys", "r--")], [], 0), OWNER_APPROVAL;
      contracts, revokedBefore := [], map[];
    }

    method SetTemplateConditions(conditions: seq<Condition>)
      modifies this`template
      ensures View() == old(View()).(template := old(template).(conditions := conditions))
    {
      template := template.(conditions := conditions);
    }

    method SetAdmissionPolicy(policy: string)
      modifies this`policy
      ensures View() == old(View()).(policy := policy)
    {
      this.policy := policy;
    }

    /** The grants are each checked against the template, in order. */
    method AllGranted(grants: seq<Grant>) returns (inside: bool)
      ensures inside <==> forall i :: 0 <= i < |grants| ==> CheckGrant(template, grants[i])
    {
      for i := 0 to |grants|
        invariant forall k :: 0 <= k < i ==> CheckGrant(template, grants[k])
      {
        var found := AnyCovers(template.grants, grants[i]);
        if !found {
          return false;
        }
      }
      return true;
    }

    method PolicyAdmits(request: Agreement) returns (ok: bool)
      ensures ok == PolicyAllows(View(), request)
    {
      if policy == AUTOMATIC {
        ok := false;
        for i := 0 to |template.conditions|
          invariant ok <==> exists k :: 0 <= k < i && Enforcing(template.conditions[k])
        {
          ok := ok || Enforcing(template.conditions[i]);
        }
      } else if policy == PUBLISHED_READ {
        for i := 0 to |request.grants|
          invariant forall k :: 0 <= k < i ==> PermissionBits(request.grants[k].permission) == Some((4, 0))
        {
          if PermissionBits(request.grants[i].permission) != Some((4, 0)) {
            return false;
          }
        }
        ok := true;
      } else {
        ok := false;
      }
    }

    method AddAgreementAuthorizedBy(request: Agreement, identity: Option<Identity>, authority: Option<Identity>, now: int) returns (state: string)
      modifies this`contracts
      ensures (View(), state) == AddAgreement(old(View()), request, identity, authority, now)
    {
      hide ConditionsHold;
      hide ConditionsMatch;
      hide PolicyAllows;
      hide CheckGrant;
      hide ProvesControl;
      ghost var c := View();
      if identity.None? || owner.None? {
        return "rejected";
      }
      var who := identity.value;
      if who.hasVault && !ProvesControl(View(), who, who, Resource(View(), "agreement"), "addAgreement") {
        return "rejected";
      }
      var authorized := authority.Some? && ProvesControl(View(), owner.value, authority.value, Resource(View(), "agreement"), "addAgreement");
      var match_ := MatchConditions(request.conditions, template.conditions);
      if request.owner.None? || !SameKey(owner.value, request.owner.value) || request.state != "template" || request.duration <= 0
         || request.duration > template.Duration() || request.duration > MAXIMUM_DURATION || |request.grants| == 0 || !match_ {
        return "rejected";
      }
      var inside := AllGranted(request.grants);
      if !inside {
        return "rejected";
      }
      if !authorized {
        var admitted := PolicyAdmits(request);
        if !admitted {
          return "rejected";
        }
      }
      if !ConditionsHold(View(), template.conditions, who, now) {
        return "rejected";
      }
      var issuedAt := now;
      if who.uuid in revokedBefore && issuedAt <= revokedBefore[who.uuid] {
        issuedAt := revokedBefore[who.uuid] + MICROSECOND;
      }
      contracts := contracts + [Contract(who, request.grants, template.conditions, request.duration, issuedAt)];
      return "signed";
    }

    method RemoveMember(subject: string, now: int)
      modifies this`contracts, this`revokedBefore
      ensures View() == RemoveContracts(old(View()), subject, now)
    {
      revokedBefore := revokedBefore[subject := now];
      var kept := [];
      for i := 0 to |contracts|
        invariant kept == Others(contracts[..i], subject)
      {
        assert contracts[..i + 1][..i] == contracts[..i];
        if contracts[i].subject.uuid != subject {
          kept := kept + [contracts[i]];
        }
      }
      assert contracts[..|contracts|] == contracts;
      contracts := kept;
    }

    method Allows(evaluating: bool, permission: string, keypath: string, requester: Option<Identity>, now: int) returns (allowed: bool)
      ensures allowed == ContractAllows(View(), evaluating, permission, keypath, requester, now)
    {
      hide IsCurrent;
      hide ConditionsHold;
      hide Covers;
      if requester.None? || evaluating {
        return false;
      }
      var requested := Grant(keypath, permission);
      for i := 0 to |contracts|
        invariant AnyAllows(View(), contracts, requested, requester.value, now) == AnyAllows(View(), contracts[i..], requested, requester.value, now)
      {
        assert contracts[i..][1..] == contracts[i + 1..];
        if IsCurrent(View(), contracts[i], requester.value, now) {
          var covered := AnyCovers(contracts[i].grants, requested);
          if covered && ConditionsHold(View(), contracts[i].conditions, requester.value, now) {
            return true;
          }
        }
      }
      return false;
    }
  }
}
