/** Who may use the chat: the owner, anyone on the open keys, and otherwise contracts under admission conditions. */
module ChatAccess {
  import opened Prelude
  import opened JsonCodec
  import opened KeyPath
  import opened Agreements
  import opened Contracts
  import opened Chat
  import Text

  /** The chat on top of its general cell; `values` is what its read handler presents of the book at a moment. */
  datatype ChatCell = ChatCell(
    cell: Cell, book: Book, setting: Setting, values: (Book, int, string, Option<Identity>) -> Result<Json>)

  const ADMISSION := "audience.admission."
  const ADMISSION_NAMES := {"invitationAccepted", "member"}
  const CONDITIONS_KEY := "audience.admissionConditions"
  const ACCEPT_KEY := "audience.acceptInvitationArtifact"
  const INSPECT_KEY := "audience.inspectInvitationArtifact"

  /** Keys usable before a contract, with the permission each is open for. */
  predicate Open(keypath: string, permission: string) {
    if keypath == ADMISSION + "invitationAccepted" || keypath == ADMISSION + "member" then permission == "r---"
    else (keypath == ACCEPT_KEY || keypath == INSPECT_KEY) && permission == "-w--"
  }

  // ---- Admission ----

  function MemberFor(b: Book, requester: Option<Identity>): Option<Person> {
    if requester.Some? && requester.value.uuid in b.invitations
       && b.invitations[requester.value.uuid].status == "accepted" && b.invitations[requester.value.uuid].person.Matches(requester) then
      Some(b.invitations[requester.value.uuid].person)
    else None
  }

  predicate AdmissionHolds(s: Setting, b: Book, name: string, requester: Option<Identity>, clock: int) {
    var member := MemberFor(b, requester);
    if member.None? then false
    else if name == "member" then true
    else if name != "invitationAccepted" then false
    else
      member.value.uuid in b.invitations
      && var record := b.invitations[member.value.uuid];
         && record.artifact.Some? && record.acceptance.Some?
         && record.artifact.value.invitationID in b.consumed
         && b.consumed[record.artifact.value.invitationID].acceptanceID == record.acceptance.value.acceptanceID
         && s.proofs.invitation(record.artifact.value, clock) == ""
  }

  /** With the book as every run leaves it, the consumed row adds nothing to ask: only the clock can undo an acceptance. */
  lemma AdmissionIff(s: Setting, b: Book, requester: Identity, clock: int)
    requires AllBacked(b)
    ensures AdmissionHolds(s, b, "invitationAccepted", Some(requester), clock) <==>
              && requester.uuid in b.invitations
              && var record := b.invitations[requester.uuid];
                 && record.status == "accepted" && record.person.Matches(Some(requester)) && record.acceptance.Some?
                 && s.proofs.invitation(record.artifact.value, clock) == ""
  {
    if requester.uuid in b.invitations {
      assert Backed(b, b.invitations[requester.uuid]);
    }
  }

  /** The admission names among the template's conditions. */
  function AdmissionConditions(conditions: seq<Condition>): seq<Json> {
    if conditions == [] then []
    else
      var init, last := AdmissionConditions(conditions[..|conditions| - 1]), conditions[|conditions| - 1];
      if last.Lookup? && "target." + ADMISSION <= last.keypath && last.keypath[|"target." + ADMISSION|..] in ADMISSION_NAMES then
        init + [Str(last.keypath[|"target." + ADMISSION|..])]
      else init
  }

  // ---- Access, conditions, and back ----

  function Root(keypath: string): string {
    keypath[..IndexOf(keypath, '.')]
  }

  /** The general cell, reading its conditions' targets from the chat while it evaluates them. */
  function General(c: ChatCell, now: int, clock: int): Cell
    decreases 1, 0
  {
    c.cell.(outer := Some((keypath, requester) => Get(c, true, keypath, Some(requester), now, clock)))
  }

  function Validate(c: ChatCell, evaluating: bool, operation: string, keypath: string, requester: Option<Identity>, now: int, clock: int): Result<()>
    decreases if evaluating then 0 else 2, 0
  {
    var g := if evaluating then c.cell else General(c, now, clock);
    var permission := Permission(operation);
    if c.cell.owner.None? || (requester.Some? && requester.value.uuid == c.cell.owner.value.uuid) then
      ValidateAccess(g, evaluating, operation, keypath, requester, now)
    else if Open(keypath, permission) then Ok(())
    else if keypath == CONDITIONS_KEY && permission == "-w--" then Err("access denied")
    else
      var exact := ContractAllows(g, evaluating, permission, keypath, requester, now);
      var dispatch := exact || (Root(keypath) != keypath && ContractAllows(g, evaluating, permission, Root(keypath), requester, now));
      if dispatch && (exact || ContractAllows(g, evaluating, permission, "chat", requester, now)) then Ok(()) else Err("access denied")
  }

  const ADMISSION_KEYS := {ADMISSION + "invitationAccepted", ADMISSION + "member", CONDITIONS_KEY}

  function AdmissionRead(c: ChatCell, evaluating: bool, keypath: string, requester: Option<Identity>, now: int, clock: int): Result<Json>
    decreases if evaluating then 0 else 2, 1
  {
    if keypath == CONDITIONS_KEY then
      var _ :- Validate(c, evaluating, "read", "audience", requester, now, clock);
      Ok(List(AdmissionConditions(c.cell.template.conditions)))
    else
      var name := if ADMISSION <= keypath then keypath[|ADMISSION|..] else keypath;
      Ok(Bool(AdmissionHolds(c.setting, c.book, name, requester, clock)))
  }

  function Get(c: ChatCell, evaluating: bool, keypath: string, requester: Option<Identity>, now: int, clock: int): Result<Json>
    decreases if evaluating then 0 else 2, 2
  {
    if keypath == "description" then Ok(c.cell.description(c.cell.template))
    else if keypath == "keys" then Ok(c.cell.keys)
    else
      var _ :- Validate(c, evaluating, "read", keypath, requester, now, clock);
      Handled(c.cell.handlers.Keys + ADMISSION_KEYS, keypath, AdmissionRead(c, evaluating, keypath, requester, now, clock),
              c.values(c.book, clock, keypath, requester))
  }

  /** The answer of the handler the path falls to: the admission handler, the read handler, or none. */
  function Handled(keys: set<string>, keypath: string, admission: Result<Json>, value: Result<Json>): Result<Json> {
    match HandlerKey(keypath, keys, |keypath|)
    case Some(key) => if key in ADMISSION_KEYS then admission else value
    case None => Ok(Null)
  }

  // ---- A chat's conditions do not see contracts either ----

  /** Two chats that differ at most in their contracts, revocations and admission policy. */
  ghost predicate SameBut(c: ChatCell, d: ChatCell) {
    d == c.(cell := c.cell.(contracts := d.cell.contracts, revokedBefore := d.cell.revokedBefore, policy := d.cell.policy))
  }

  lemma ValidateIgnoresContracts(c: ChatCell, d: ChatCell, operation: string, keypath: string, requester: Option<Identity>, now: int, later: int, clock: int)
    requires SameBut(c, d)
    ensures Validate(c, true, operation, keypath, requester, now, clock) == Validate(d, true, operation, keypath, requester, later, clock)
  {
    AccessIgnoresContracts(c.cell, d.cell, operation, keypath, requester, now, later);
    assert c.cell.owner == d.cell.owner;
    hide ValidateAccess;
    hide Open;
    hide Root;
  }

  lemma AdmissionIgnoresContracts(c: ChatCell, d: ChatCell, keypath: string, requester: Option<Identity>, now: int, later: int, clock: int)
    requires SameBut(c, d)
    ensures AdmissionRead(c, true, keypath, requester, now, clock) == AdmissionRead(d, true, keypath, requester, later, clock)
  {
    ValidateIgnoresContracts(c, d, "read", "audience", requester, now, later, clock);
    assert c.cell.template == d.cell.template && c.setting == d.setting && c.book == d.book;
    hide SameBut;
    hide AdmissionHolds;
    hide AdmissionConditions;
  }

  /** Every read of the chat during an evaluation is the same whatever contracts it holds. */
  lemma ReadIgnoresContracts(c: ChatCell, d: ChatCell, keypath: string, requester: Option<Identity>, now: int, later: int, clock: int)
    requires SameBut(c, d)
    ensures Get(c, true, keypath, requester, now, clock) == Get(d, true, keypath, requester, later, clock)
  {
    ValidateIgnoresContracts(c, d, "read", keypath, requester, now, later, clock);
    AdmissionIgnoresContracts(c, d, keypath, requester, now, later, clock);
    assert c.cell.template == d.cell.template && c.cell.handlers == d.cell.handlers && c.cell.keys == d.cell.keys
           && c.cell.description == d.cell.description && c.book == d.book && c.values == d.values;
    hide SameBut;
    hide Validate;
    hide AdmissionRead;
    hide Handled;
  }

  /**
   * What a chat's conditions answer depends on its book, its template and its own clock, and on no contract,
   * revocation, policy or wall-clock reading: no contract can satisfy the condition it depends on.
   */
  lemma ChatConditionsIgnoreContracts(c: ChatCell, d: ChatCell, conditions: seq<Condition>, identity: Identity, now: int, later: int, clock: int)
    requires SameBut(c, d)
    ensures ConditionsHold(General(c, now, clock), conditions, identity, now) == ConditionsHold(General(d, later, clock), conditions, identity, later)
  {
    var g, h := General(c, now, clock), General(d, later, clock);
    forall child
      ensures TargetGet(g, child, identity, now) == TargetGet(h, child, identity, later)
    {
      ReadIgnoresContracts(c, d, child, Some(identity), now, later, clock);
    }
    SameTargetsSameAnswers(g, h, conditions, identity, now, later);
  }

  // ---- What a requester can do ----

  datatype Command =
    | Read(keypath: string)
    | Write(step: Chat.Step)
    | SetConditions(names: seq<string>)
    | Ask(agreement: Agreement, authority: Option<Identity>)

  function KeyOf(step: Chat.Step): string {
    match step
    case Invite(_) => "audience.inviteIdentities"
    case Generate(_, _, _) => "audience.generateInvitationArtifacts"
    case Accept(_, _) => ACCEPT_KEY
    case SetStatus(_, status) => if status == "accepted" then "audience.acceptInvites" else if status == "declined" then "audience.declineInvites" else "audience.revokeInvites"
    case Clear => "audience.clearInvites"
    case Say(_) => "sendMessage"
  }

  function AdmissionCondition(name: string): Condition {
    Lookup("Lookup condition", "target." + (ADMISSION + name), Bool(true))
  }

  function ConditionsFor(names: seq<string>): seq<Condition> {
    seq(|names|, i requires 0 <= i < |names| => AdmissionCondition(names[i]))
  }

  /** Each name once, where it first stands. */
  function WithoutRepeats(names: seq<string>): seq<string> {
    if names == [] then []
    else
      var init := WithoutRepeats(names[..|names| - 1]);
      if names[|names| - 1] in init then init else init + [names[|names| - 1]]
  }

  /** When each command runs: the wall clock, and the chat's own clock. */
  datatype When = When(now: int, at: Moment)

  function Do(c: ChatCell, requester: Identity, command: Command, w: When): ChatCell {
    match command
    case Read(keypath) => c
    case Write(step) =>
      if Validate(c, false, "write", KeyOf(step), Some(requester), w.now, w.at.now).Err? then c
      else c.(book := Apply(c.setting, c.book, step, w.at))
    case SetConditions(names) =>
      if Validate(c, false, "write", CONDITIONS_KEY, Some(requester), w.now, w.at.now).Err? || !(forall i :: 0 <= i < |names| ==> names[i] in ADMISSION_NAMES) then c
      else
        c.(cell := c.cell.(template := c.cell.template.(conditions := ConditionsFor(WithoutRepeats(names))), policy := if names == [] then OWNER_APPROVAL else AUTOMATIC))
    case Ask(agreement, authority) =>
      var g := AddAgreement(General(c, w.now, w.at.now), agreement, Some(requester), authority, w.now).0;
      c.(cell := c.cell.(contracts := g.contracts))
  }

  function DoAll(c: ChatCell, requester: seq<(Identity, Command, When)>): ChatCell
    decreases |requester|
  {
    if requester == [] then c
    else DoAll(Do(c, requester[0].0, requester[0].1, requester[0].2), requester[1..])
  }

  // ---- A revoked invitee stays out ----

  /** Not the owner, invitation revoked, and an admission condition in the template. */
  ghost predicate Barred(c: ChatCell, uuid: string) {
    && c.cell.owner.Some? && uuid != c.cell.owner.value.uuid
    && uuid in c.book.invitations && c.book.invitations[uuid].status == "revoked"
    && exists name :: name in ADMISSION_NAMES && AdmissionCondition(name) in c.cell.template.conditions
  }

  lemma {:induction false} ReplacedPlain(s: string, value: string)
    requires '$' !in s
    ensures Replaced(s, "$identity", value) == s
  {
    if s != "" {
      ReplacedPlain(s[1..], value);
      assert s == [s[0]] + s[1..];
    }
  }

  lemma AdmissionChild(name: string)
    requires name in ADMISSION_NAMES
    ensures var child := ADMISSION + name;
            && '$' !in child && Open(child, "r---") && child in ADMISSION_KEYS && child != CONDITIONS_KEY
            && child != "description" && child != "keys" && ADMISSION <= child && child[|ADMISSION|..] == name
  {
  }

  lemma TargetPath(child: string)
    requires '$' !in child && child != ""
    ensures var keypath := "target." + child;
            && '$' !in keypath && IndexOf(keypath, '.') == 6 && keypath[..6] == "target" && keypath[7..] == child && |keypath| > 7
  {
    assert "target." + child == "target" + ['.'] + child;
    FirstAt("target", '.', child);
  }

  lemma AdmissionAnswered(c: ChatCell, name: string, requester: Identity, now: int, clock: int)
    requires name in ADMISSION_NAMES && c.cell.owner.Some? && requester.uuid != c.cell.owner.value.uuid
    ensures Get(c, true, ADMISSION + name, Some(requester), now, clock) == Ok(Bool(AdmissionHolds(c.setting, c.book, name, Some(requester), clock)))
  {
    hide AdmissionHolds;
    hide AdmissionConditions;
    hide Validate;
    hide Open;
    hide HandlerKey;
    hide ADMISSION_KEYS;
    AdmissionChild(name);
    var child := ADMISSION + name;
    HandlerItself(child, c.cell.handlers.Keys + ADMISSION_KEYS);
    OpenValidates(c, true, "read", child, requester, now, clock);
  }

  lemma OpenValidates(c: ChatCell, evaluating: bool, operation: string, keypath: string, requester: Identity, now: int, clock: int)
    requires c.cell.owner.Some? && requester.uuid != c.cell.owner.value.uuid && Open(keypath, Permission(operation))
    ensures Validate(c, evaluating, operation, keypath, Some(requester), now, clock).Ok?
  {
    hide Open;
    hide General;
    hide ContractAllows;
    hide ValidateAccess;
  }

  lemma HandlerItself(keypath: string, keys: set<string>)
    requires keypath in keys
    ensures HandlerKey(keypath, keys, |keypath|) == Some(keypath)
  {
    assert keypath[..|keypath|] == keypath;
  }

  /** An admission condition asks the book, for whoever is not the owner. */
  lemma AdmissionMet(c: ChatCell, name: string, requester: Identity, now: int, clock: int)
    requires name in ADMISSION_NAMES && c.cell.owner.Some? && requester.uuid != c.cell.owner.value.uuid
    ensures Met(General(c, now, clock), AdmissionCondition(name), requester, now) <==> AdmissionHolds(c.setting, c.book, name, Some(requester), clock)
  {
    AdmissionAnswered(c, name, requester, now, clock);
    AdmissionChild(name);
    hide Get;
    hide AdmissionHolds;
    hide Open;
    var child := ADMISSION + name;
    TargetPath(child);
    ReplacedPlain("target." + child, requester.uuid);
    hide IndexOf;
    hide Replaced;
    LookupMet(General(c, now, clock), "target." + child, child, AdmissionCondition(name), requester, now);
  }

  lemma LookupMet(g: Cell, keypath: string, child: string, condition: Condition, requester: Identity, now: int)
    requires condition.Lookup? && condition.keypath == keypath && Replaced(keypath, "$identity", requester.uuid) == keypath
    requires IndexOf(keypath, '.') == 6 && |keypath| > 7 && keypath[..6] == "target" && keypath[7..] == child && g.outer.Some?
    ensures Met(g, condition, requester, now) <==> g.outer.value(child, requester) == Ok(condition.expected)
  {
    hide Replaced;
  }

  lemma BarredHasNoContract(c: ChatCell, requester: Identity, permission: string, keypath: string, now: int, clock: int)
    requires Barred(c, requester.uuid)
    ensures !ContractAllows(General(c, now, clock), false, permission, keypath, Some(requester), now)
    ensures !ConditionsHold(General(c, now, clock), c.cell.template.conditions, requester, now)
  {
    var g := General(c, now, clock);
    var name :| name in ADMISSION_NAMES && AdmissionCondition(name) in c.cell.template.conditions;
    AdmissionMet(c, name, requester, now, clock);
    assert !AdmissionHolds(c.setting, c.book, name, Some(requester), clock);
    hide General;
    hide AdmissionHolds;
    hide AdmissionCondition;
    assert g.template == c.cell.template;
    hide Met;
    AllMet(g, c.cell.template.conditions, requester, now);
    AllowedByTemplate(g, permission, keypath, requester, now);
    hide ContractAllows;
    hide ConditionsHold;
    forall contract
      ensures !Carries(g, contract, Grant(keypath, permission), requester, now)
    {
      if Carries(g, contract, Grant(keypath, permission), requester, now) {
        CarriedConditions(g, contract, Grant(keypath, permission), requester, now);
      }
    }
  }

  /** Whatever a barred invitee asks for beyond the open keys is refused. */
  lemma BarredRefused(c: ChatCell, operation: string, keypath: string, requester: Identity, now: int, clock: int)
    requires Barred(c, requester.uuid)
    ensures Validate(c, false, operation, keypath, Some(requester), now, clock).Ok? <==> Open(keypath, Permission(operation))
  {
    BarredHasNoContract(c, requester, Permission(operation), keypath, now, clock);
    BarredHasNoContract(c, requester, Permission(operation), Root(keypath), now, clock);
    BarredHasNoContract(c, requester, Permission(operation), "chat", now, clock);
    hide ContractAllows;
    hide General;
    hide Open;
    hide Root;
  }

  // ---- Its own steps do not let it back in ----

  /** Presenting proofs, its own or another's, never touches a revoked record. */
  lemma AcceptSparesRevoked(p: Proofs, b: Book, owner: Option<Person>, cellUUID: string, a: Artifact, acceptance: Acceptance, at: Moment, uuid: string)
    requires uuid in b.invitations && b.invitations[uuid].status == "revoked"
    ensures var next := AcceptArtifact(p, b, owner, cellUUID, a, acceptance, at).0;
            uuid in next.invitations && next.invitations[uuid] == b.invitations[uuid]
  {
    if AcceptVerdict(p, b, owner, cellUUID, a, acceptance, at.now) == "" {
      AcceptConditions(p, b, owner, cellUUID, a, acceptance, at.now);
    }
    hide AcceptVerdict;
  }

  lemma KeyNotOpen(step: Chat.Step)
    ensures !step.Accept? ==> !Open(KeyOf(step), "-w--")
    ensures !Open(CONDITIONS_KEY, "-w--")
  {
  }

  lemma BarredStep(c: ChatCell, requester: Identity, command: Command, w: When)
    requires Barred(c, requester.uuid)
    ensures Barred(Do(c, requester, command, w), requester.uuid)
  {
    match command
    case Read(_) =>
    case Write(step) =>
      BarredRefused(c, "write", KeyOf(step), requester, w.now, w.at.now);
      KeyNotOpen(step);
      hide Validate;
      hide Open;
      if step.Accept? {
        AcceptSparesRevoked(c.setting.proofs, c.book, c.setting.owner, c.setting.cellUUID, step.artifact, step.acceptance, w.at, requester.uuid);
      }
      hide AcceptArtifact;
    case SetConditions(names) =>
      BarredRefused(c, "write", CONDITIONS_KEY, requester, w.now, w.at.now);
      KeyNotOpen(Clear);
      hide Validate;
      hide Open;
    case Ask(agreement, authority) =>
  }

  predicate AllBy(commands: seq<(Identity, Command, When)>, uuid: string) {
    forall i :: 0 <= i < |commands| ==> commands[i].0.uuid == uuid
  }

  /**
   * However it combines its own commands, at whatever times and with whatever keys, a revoked invitee ends
   * where it began: the open keys, and nothing more.
   */
  lemma {:induction false} RevokedStaysOut(c: ChatCell, commands: seq<(Identity, Command, When)>, requester: Identity, operation: string, keypath: string, now: int, clock: int)
    requires Barred(c, requester.uuid) && AllBy(commands, requester.uuid)
    ensures Barred(DoAll(c, commands), requester.uuid)
    ensures Validate(DoAll(c, commands), false, operation, keypath, Some(requester), now, clock).Ok? <==> Open(keypath, Permission(operation))
    ensures !HoldsContract(General(DoAll(c, commands), now, clock), false, Some(requester), now)
    decreases |commands|
  {
    if commands == [] {
      BarredRefused(c, operation, keypath, requester, now, clock);
      BarredHoldsNone(c, requester, now, clock);
    } else {
      BarredStep(c, commands[0].0, commands[0].1, commands[0].2);
      RevokedStaysOut(Do(c, commands[0].0, commands[0].1, commands[0].2), commands[1..], requester, operation, keypath, now, clock);
    }
    hide Barred;
    hide Do;
    hide Validate;
    hide HoldsContract;
    hide General;
    hide Open;
  }

  lemma BarredHoldsNone(c: ChatCell, requester: Identity, now: int, clock: int)
    requires Barred(c, requester.uuid)
    ensures !HoldsContract(General(c, now, clock), false, Some(requester), now)
  {
    var g := General(c, now, clock);
    BarredHasNoContract(c, requester, "r---", "chat", now, clock);
    assert g.template == c.cell.template;
    hide Barred;
    hide General;
    hide ContractAllows;
    AnyHoldsIff(g, g.contracts, requester, now);
    forall contract | contract in g.contracts && IsCurrent(g, contract, requester, now)
      ensures !ConditionsHold(g, contract.conditions, requester, now)
    {
      ConditionsMatchIff(contract.conditions, g.template.conditions);
      AllMet(g, contract.conditions, requester, now);
      AllMet(g, g.template.conditions, requester, now);
      assert forall condition :: condition in g.template.conditions ==> condition in multiset(contract.conditions);
    }
  }

  // ---- And an accepted invitee does get in ----

  /** The template asks for these admissions, and the book grants each. */
  predicate Admitted(c: ChatCell, names: seq<string>, requester: Identity, clock: int) {
    && names != [] && c.cell.template.conditions == ConditionsFor(names)
    && forall i :: 0 <= i < |names| ==> names[i] in ADMISSION_NAMES && AdmissionHolds(c.setting, c.book, names[i], Some(requester), clock)
  }

  lemma AdmittedHold(c: ChatCell, names: seq<string>, requester: Identity, now: int, clock: int)
    requires c.cell.owner.Some? && requester.uuid != c.cell.owner.value.uuid && Admitted(c, names, requester, clock)
    ensures ConditionsHold(General(c, now, clock), ConditionsFor(names), requester, now)
    ensures ConditionsMatch(ConditionsFor(names), ConditionsFor(names))
  {
    var g := General(c, now, clock);
    forall i | 0 <= i < |names|
      ensures Met(g, AdmissionCondition(names[i]), requester, now)
    {
      AdmissionMet(c, names[i], requester, now, clock);
    }
    hide AdmissionCondition;
    hide General;
    hide Met;
    ConditionsMatchIff(ConditionsFor(names), ConditionsFor(names));
    AllMet(g, ConditionsFor(names), requester, now);
    NoneUnsupported(names);
    hide ConditionsMatch;
    hide ConditionsHold;
    assert forall condition :: condition in ConditionsFor(names) ==> exists i :: 0 <= i < |names| && condition == AdmissionCondition(names[i]);
  }

  lemma NoneUnsupported(names: seq<string>)
    ensures Unsupported !in ConditionsFor(names)
  {
  }

  /** The owner's admission conditions are ones the automatic policy enforces. */
  lemma AdmissionEnforced(name: string)
    requires name in ADMISSION_NAMES
    ensures Enforcing(AdmissionCondition(name))
  {
    var keypath := "target." + (ADMISSION + name);
    EndsVisible(name);
    assert keypath[0] == 't' && keypath[|keypath| - 1] == name[|name| - 1];
    Untrimmed(keypath);
  }

  lemma EndsVisible(name: string)
    requires name in ADMISSION_NAMES
    ensures name != "" && !Text.IsUnicodeSpace(name[|name| - 1])
  {
  }

  lemma AdmittedSigned(c: ChatCell, names: seq<string>, requester: Identity, agreement: Agreement, now: int, clock: int)
    requires c.cell.owner.Some? && requester.uuid != c.cell.owner.value.uuid && Admitted(c, names, requester, clock)
    requires c.cell.policy == AUTOMATIC && RequestFits(General(c, now, clock), agreement)
    requires requester.hasVault ==> ProvesControl(General(c, now, clock), requester, requester, Resource(General(c, now, clock), "agreement"), "addAgreement")
    ensures AddAgreement(General(c, now, clock), agreement, Some(requester), None, now).1 == "signed"
  {
    AdmittedHold(c, names, requester, now, clock);
    AdmissionEnforced(names[0]);
    var g := General(c, now, clock);
    assert g.template == c.cell.template && g.policy == c.cell.policy;
    assert g.template.conditions[0] == AdmissionCondition(names[0]);
    hide General;
    hide ConditionsHold;
    hide RequestFits;
    hide Enforcing;
    hide ConditionsMatch;
    assert PolicyAllows(g, agreement);
    hide PolicyAllows;
    hide ProvesControl;
  }

  /**
   * An invitee the book admits asks once and may then use exactly the keys it was granted, until the contract
   * runs out or the book stops admitting it.
   */
  lemma AdmittedGetsIn(c: ChatCell, names: seq<string>, requester: Identity, agreement: Agreement, w: When, operation: string, keypath: string, now: int, clock: int)
    requires c.cell.owner.Some? && requester.uuid != c.cell.owner.value.uuid && SameKey(requester, requester)
    requires Admitted(c, names, requester, w.at.now) && Admitted(c, names, requester, clock)
    requires c.cell.policy == AUTOMATIC && RequestFits(General(c, w.now, w.at.now), agreement)
    requires var g := General(c, w.now, w.at.now);
             requester.hasVault ==> ProvesControl(g, requester, requester, Resource(g, "agreement"), "addAgreement")
    requires requester.uuid in c.cell.revokedBefore ==> c.cell.revokedBefore[requester.uuid] < w.now
    requires w.now <= now < w.now + agreement.duration * SECOND
    requires Covers(agreement.grants, Grant(keypath, Permission(operation))) && keypath != CONDITIONS_KEY
    ensures Validate(Do(c, requester, Ask(agreement, None), w), false, operation, keypath, Some(requester), now, clock).Ok?
  {
    hide ConditionsHold;
    hide ConditionsMatch;
    hide InsideTemplate;
    hide Covers;
    hide ContractAllows;
    AdmittedSigned(c, names, requester, agreement, w.now, w.at.now);
    var d := Do(c, requester, Ask(agreement, None), w);
    var contract := Contract(requester, agreement.grants, c.cell.template.conditions, agreement.duration, w.now);
    var g := General(d, now, clock);
    AskedIs(c, requester, agreement, w);
    assert d == c.(cell := c.cell.(contracts := c.cell.contracts + [contract]));
    assert Admitted(d, names, requester, clock);
    AdmittedHold(d, names, requester, now, clock);
    assert g.template == c.cell.template && contract in g.contracts && g.revokedBefore == c.cell.revokedBefore;
    FitsTemplate(General(c, w.now, w.at.now), agreement, contract);
    hide General;
    hide Do;
    hide RequestFits;
    hide Admitted;
    assert Carries(g, contract, Grant(keypath, Permission(operation)), requester, now);
    AllowedByTemplate(g, Permission(operation), keypath, requester, now);
    hide Carries;
    hide Open;
  }

  lemma AskedIs(c: ChatCell, requester: Identity, agreement: Agreement, w: When)
    requires AddAgreement(General(c, w.now, w.at.now), agreement, Some(requester), None, w.now).1 == "signed"
    requires requester.uuid in c.cell.revokedBefore ==> c.cell.revokedBefore[requester.uuid] < w.now
    ensures Do(c, requester, Ask(agreement, None), w) ==
            c.(cell := c.cell.(contracts := c.cell.contracts
                                            + [Contract(requester, agreement.grants, c.cell.template.conditions, agreement.duration, w.now)]))
  {
    hide Admissible;
  }

  lemma FitsTemplate(g: Cell, agreement: Agreement, contract: Contract)
    requires RequestFits(g, agreement) && contract.grants == agreement.grants && contract.duration == agreement.duration
    requires contract.conditions == g.template.conditions && ConditionsMatch(contract.conditions, g.template.conditions)
    ensures InsideTemplate(contract, g.template)
  {
    hide ConditionsMatch;
    hide CheckGrant;
  }

  /** A revoked invitee, on the other hand, is refused even with the owner's own authority behind it. */
  lemma BarredAskRejected(c: ChatCell, requester: Identity, agreement: Agreement, authority: Option<Identity>, now: int, clock: int)
    requires Barred(c, requester.uuid)
    ensures AddAgreement(General(c, now, clock), agreement, Some(requester), authority, now).1 == "rejected"
  {
    BarredHasNoContract(c, requester, "r---", "chat", now, clock);
    assert General(c, now, clock).template == c.cell.template;
    hide General;
    hide Barred;
    hide ConditionsHold;
    hide ConditionsMatch;
    hide RequestFits;
    hide PolicyAllows;
    hide OwnerAuthorizes;
    hide ProvesControl;
  }
}
