/** The chat's book of invitations, what they consume, and the bounded window of messages. */
module Chat {
  import opened Prelude
  import opened KeyOrder
  import opened Contracts

  datatype Person = Person(uuid: string, displayName: string, publicKey: Option<Bytes>) {
    predicate Matches(requester: Option<Identity>) {
      publicKey.Some? && requester.Some? && requester.value.uuid == uuid && requester.value.publicKey == publicKey
    }
  }

  datatype Artifact = Artifact(invitationID: string, invited: Person, inviterUUID: string, chatCellUUID: string, body: Bytes)

  datatype Acceptance = Acceptance(acceptanceID: string, invitationID: string, body: Bytes)

  datatype Invitation = Invitation(
    person: Person, status: string, source: string, createdAt: string, updatedAt: string,
    artifact: Option<Artifact>, acceptance: Option<Acceptance>)

  datatype Row = Row(invitationID: string, acceptanceID: string, inviteeUUID: string, consumedAt: string)

  datatype Message = Message(id: string, ownerUUID: string, content: string, contentType: string, topic: string, createdAt: string)

  /** Checks on signed proofs at a moment: of an artifact, and of an acceptance of one. Empty text means valid. */
  datatype Proofs = Proofs(
    invitation: (Artifact, int) -> string, acceptance: (Acceptance, Artifact, int) -> string, hash: Artifact -> Bytes,
    build: (string, Person, int) -> Result<Artifact>)

  /** A built artifact carries the identifier drawn for it and the person it is for. */
  ghost predicate BuildsFor(p: Proofs) {
    forall id, person, now :: p.build(id, person, now).Ok? ==>
      p.build(id, person, now).value.invitationID == id && p.build(id, person, now).value.invited == person
  }

  datatype Book = Book(invitations: map<string, Invitation>, consumed: map<string, Row>, messages: seq<Message>)

  const EMPTY := Book(map[], map[], [])

  /** A reading of the clock, as a moment and as the text stored. */
  datatype Moment = Moment(now: int, text: string)

  // ---- Inviting ----

  /** A person named by the UUID of a known record, or described in full. */
  datatype Named = Known(uuid: string) | Described(person: Person)

  function PersonNamed(b: Book, n: Named): Option<Person> {
    match n
    case Described(person) => Some(person)
    case Known(uuid) => if uuid in b.invitations then Some(b.invitations[uuid].person) else None
  }

  function PeopleFrom(b: Book, names: seq<Named>): seq<Person> {
    if names == [] then []
    else
      var n := |names| - 1;
      match PersonNamed(b, names[n])
      case Some(person) => PeopleFrom(b, names[..n]) + [person]
      case None => PeopleFrom(b, names[..n])
  }

  function Reinvited(record: Invitation, person: Person, now: string): Invitation {
    record.(person := person, status := if record.status == "accepted" then "accepted" else "pending",
            source := "inviteIdentities", updatedAt := now, acceptance := None)
  }

  function InviteOne(b: Book, owner: Option<Person>, person: Person, now: string): Book {
    if (owner.Some? && person.uuid == owner.value.uuid) || person.publicKey.None? then b
    else if person.uuid in b.invitations then
      b.(invitations := b.invitations[person.uuid := Reinvited(b.invitations[person.uuid], person, now)])
    else
      b.(invitations := b.invitations[person.uuid := Invitation(person, "pending", "inviteIdentities", now, now, None, None)])
  }

  function InviteAll(b: Book, owner: Option<Person>, people: seq<Person>, now: string): Book {
    if people == [] then b
    else InviteOne(InviteAll(b, owner, people[..|people| - 1], now), owner, people[|people| - 1], now)
  }

  function InviteIdentities(b: Book, owner: Option<Person>, names: seq<Named>, now: string): Book {
    InviteAll(b, owner, PeopleFrom(b, names), now)
  }

  // ---- Targets ----

  datatype Targets = Everyone | Listed(ids: set<string>) | Invalid

  function TargetIDs(b: Book, t: Targets): set<string> {
    match t
    case Everyone => b.invitations.Keys
    case Listed(ids) => ids
    case Invalid => {}
  }

  // ---- Artifacts ----

  function ArtifactState(p: Proofs, record: Invitation, now: int): string {
    if record.status == "revoked" || record.status == "declined" then record.status
    else if record.artifact.None? then "notIssued"
    else if record.acceptance.Some? then "consumed"
    else if p.invitation(record.artifact.value, now) != "" then "expired"
    else "issued"
  }

  function Reissued(record: Invitation, artifact: Artifact, now: string): Invitation {
    record.(status := if record.status == "declined" then "pending" else record.status,
            artifact := Some(artifact), acceptance := None, updatedAt := now)
  }

  function WithoutRow(consumed: map<string, Row>, prior: Option<Artifact>): map<string, Row> {
    if prior.Some? then consumed - {prior.value.invitationID} else consumed
  }

  /** One record's turn: nothing when its artifact still stands, otherwise a new one; none when it cannot be built. */
  function GenerateOne(p: Proofs, b: Book, id: string, draw: string -> string, at: Moment): (Book, bool)
    requires id in b.invitations
  {
    var record := b.invitations[id];
    if record.artifact.Some? && ArtifactState(p, record, at.now) == "issued" then (b, true)
    else
      match p.build(draw(id), record.person, at.now)
      case Err(_) => (b.(invitations := b.invitations[id := record.(status := if record.status == "declined" then "pending" else record.status)]), false)
      case Ok(artifact) =>
        (b.(invitations := b.invitations[id := Reissued(record, artifact, at.text)], consumed := WithoutRow(b.consumed, record.artifact)), true)
  }

  function GenerateAll(p: Proofs, b: Book, ids: seq<string>, draw: string -> string, at: Moment): (Book, bool)
    requires forall id :: id in ids ==> id in b.invitations
    decreases |ids|
  {
    if ids == [] then (b, true)
    else
      var (next, ok) := GenerateOne(p, b, ids[0], draw, at);
      if ok then GenerateAll(p, next, ids[1..], draw, at) else (next, false)
  }

  function Eligible(b: Book): set<string> {
    set id | id in b.invitations && b.invitations[id].status != "revoked"
  }

  function GenerateArtifacts(p: Proofs, b: Book, canSign: bool, t: Targets, draw: string -> string, at: Moment): (Book, string) {
    if t.Invalid? then (b, "error: invalid invitation target payload")
    else if t.Listed? && !(t.ids <= Eligible(b)) then (b, "error: invitation targets must all reference eligible invitation records")
    else if !canSign then (b, "error: owner has no signing key")
    else
      var (next, ok) := GenerateAll(p, b, SortedKeys(TargetIDs(b, t) * Eligible(b), CodePoint), draw, at);
      (next, if ok then "" else "error")
  }

  // ---- Accepting ----

  predicate AcceptanceUsed(consumed: map<string, Row>, acceptanceID: string) {
    exists id :: id in consumed && consumed[id].acceptanceID == acceptanceID
  }

  /** Why the proofs handed in are refused; empty when they are taken. */
  function AcceptVerdict(p: Proofs, b: Book, owner: Option<Person>, cellUUID: string, a: Artifact, c: Acceptance, now: int): string {
    if p.invitation(a, now) != "" then p.invitation(a, now)
    else if a.chatCellUUID != cellUUID then "chatCellMismatch"
    else if owner.Some? && a.inviterUUID != owner.value.uuid then "inviterMismatch"
    else if p.acceptance(c, a, now) != "" then p.acceptance(c, a, now)
    else if a.invited.uuid !in b.invitations then "invitation record not found for artifact"
    else
      var record := b.invitations[a.invited.uuid];
      if record.artifact.None? then "invitation artifact is no longer active"
      else if record.artifact.value.invitationID != a.invitationID || p.hash(record.artifact.value) != p.hash(a) then
        "invitation artifact has been superseded"
      else if record.status == "revoked" then "invitation artifact has been revoked"
      else if record.status == "declined" then "invitation artifact has been declined"
      else if a.invitationID in b.consumed && b.consumed[a.invitationID].acceptanceID != c.acceptanceID then
        "invitation artifact already consumed"
      else if a.invitationID !in b.consumed && AcceptanceUsed(b.consumed, c.acceptanceID) then "acceptance proof already consumed"
      else ""
  }

  function AcceptArtifact(p: Proofs, b: Book, owner: Option<Person>, cellUUID: string, a: Artifact, c: Acceptance, at: Moment): (Book, string) {
    var verdict := AcceptVerdict(p, b, owner, cellUUID, a, c, at.now);
    if verdict != "" then (b, verdict)
    else
      var id := a.invited.uuid;
      var record := b.invitations[id].(status := "accepted", source := "artifactAccepted", updatedAt := at.text,
                                       artifact := Some(a), acceptance := Some(c));
      (b.(invitations := b.invitations[id := record],
          consumed := b.consumed[a.invitationID := Row(a.invitationID, c.acceptanceID, id, at.text)]), "")
  }

  // ---- Statuses ----

  function WithStatus(invitations: map<string, Invitation>, ids: set<string>, status: string, now: string): map<string, Invitation> {
    map id | id in invitations :: if id in ids then invitations[id].(status := status, updatedAt := now) else invitations[id]
  }

  function UpdateStatuses(b: Book, t: Targets, status: string, now: string): (Book, string) {
    if t.Invalid? then (b, "error: invalid invitation target payload")
    else if !(TargetIDs(b, t) <= b.invitations.Keys) then (b, "error: invitation targets must all reference known invitation records")
    else (b.(invitations := WithStatus(b.invitations, TargetIDs(b, t), status, now)), "")
  }

  function ClearInvites(b: Book): Book {
    b.(invitations := map[], consumed := map[])
  }

  // ---- Messages ----

  /** The last messages after one more; none when the cut would start past the end. */
  function Window(messages: seq<Message>, m: Message, limit: int): Option<seq<Message>> {
    var all := messages + [m];
    var over := |all| - limit;
    if over > |all| then None else if over > 0 then Some(all[over..]) else Some(all)
  }

  // ---- Steps ----

  datatype Step =
    | Invite(names: seq<Named>)
    | Generate(canSign: bool, targets: Targets, draw: string -> string)
    | Accept(artifact: Artifact, acceptance: Acceptance)
    | SetStatus(targets: Targets, status: string)
    | Clear
    | Say(message: Message)

  /** The chat's fixed parts: how proofs are checked, whose cell it is, and how many messages it keeps. */
  datatype Setting = Setting(proofs: Proofs, owner: Option<Person>, cellUUID: string, limit: int)

  function Apply(s: Setting, b: Book, step: Step, at: Moment): Book {
    match step
    case Invite(names) => InviteIdentities(b, s.owner, names, at.text)
    case Generate(canSign, targets, draw) => GenerateArtifacts(s.proofs, b, canSign, targets, draw, at).0
    case Accept(artifact, acceptance) => AcceptArtifact(s.proofs, b, s.owner, s.cellUUID, artifact, acceptance, at).0
    case SetStatus(targets, status) => UpdateStatuses(b, targets, status, at.text).0
    case Clear => ClearInvites(b)
    case Say(m) => b.(messages := match Window(b.messages, m, s.limit) { case Some(ms) => ms case None => b.messages + [m] })
  }

  // ---- What every step keeps ----

  /** Nothing names an invitation that was never drawn. */
  predicate OnlyDrawn(b: Book, drawn: set<string>) {
    && b.consumed.Keys <= drawn
    && forall id :: id in b.invitations && b.invitations[id].artifact.Some? ==> b.invitations[id].artifact.value.invitationID in drawn
  }

  predicate ArtifactsDiffer(b: Book) {
    forall i, j :: i in b.invitations && j in b.invitations && i != j && b.invitations[i].artifact.Some? && b.invitations[j].artifact.Some? ==>
      b.invitations[i].artifact.value.invitationID != b.invitations[j].artifact.value.invitationID
  }

  /** No acceptance is consumed twice. */
  predicate RowsDiffer(b: Book) {
    forall i, j :: i in b.consumed && j in b.consumed && i != j ==> b.consumed[i].acceptanceID != b.consumed[j].acceptanceID
  }

  predicate Backed(b: Book, record: Invitation) {
    record.acceptance.Some? ==>
      && record.artifact.Some? && record.artifact.value.invitationID in b.consumed
      && b.consumed[record.artifact.value.invitationID].acceptanceID == record.acceptance.value.acceptanceID
  }

  /** Every record with an acceptance has the row it consumed. */
  predicate AllBacked(b: Book) {
    forall id :: id in b.invitations ==> Backed(b, b.invitations[id])
  }

  predicate Kept(b: Book, drawn: set<string>) {
    OnlyDrawn(b, drawn) && ArtifactsDiffer(b) && RowsDiffer(b) && AllBacked(b)
  }

  lemma DrawnGrows(b: Book, drawn: set<string>, more: set<string>)
    requires Kept(b, drawn) && drawn <= more
    ensures Kept(b, more)
  {
  }

  lemma InviteOneKeeps(b: Book, owner: Option<Person>, person: Person, now: string, drawn: set<string>)
    requires Kept(b, drawn)
    ensures Kept(InviteOne(b, owner, person, now), drawn)
  {
  }

  lemma {:induction false} InviteAllKeeps(b: Book, owner: Option<Person>, people: seq<Person>, now: string, drawn: set<string>)
    requires Kept(b, drawn)
    ensures Kept(InviteAll(b, owner, people, now), drawn)
  {
    hide Kept;
    hide InviteOne;
    if people != [] {
      InviteAllKeeps(b, owner, people[..|people| - 1], now, drawn);
      InviteOneKeeps(InviteAll(b, owner, people[..|people| - 1], now), owner, people[|people| - 1], now, drawn);
    }
  }

  /** A reissued artifact takes its prior's row with it and no other's. */
  lemma ReissueKeeps(b: Book, id: string, artifact: Artifact, now: string, drawn: set<string>)
    requires Kept(b, drawn) && id in b.invitations && artifact.invitationID !in drawn
    ensures var record := b.invitations[id];
            Kept(b.(invitations := b.invitations[id := Reissued(record, artifact, now)], consumed := WithoutRow(b.consumed, record.artifact)),
                 drawn + {artifact.invitationID})
  {
    var record := b.invitations[id];
    var next := b.(invitations := b.invitations[id := Reissued(record, artifact, now)], consumed := WithoutRow(b.consumed, record.artifact));
    forall k | k in next.invitations
      ensures Backed(next, next.invitations[k])
    {
      assert Backed(b, b.invitations[k]);
    }
    forall i, j | i in next.invitations && j in next.invitations && i != j && next.invitations[i].artifact.Some? && next.invitations[j].artifact.Some?
      ensures next.invitations[i].artifact.value.invitationID != next.invitations[j].artifact.value.invitationID
    {
      hide AllBacked;
      hide RowsDiffer;
    }
  }

  lemma PendingKeeps(b: Book, id: string, status: string, drawn: set<string>)
    requires Kept(b, drawn) && id in b.invitations
    ensures Kept(b.(invitations := b.invitations[id := b.invitations[id].(status := status)]), drawn)
  {
    var next := b.(invitations := b.invitations[id := b.invitations[id].(status := status)]);
    forall k | k in next.invitations
      ensures Backed(next, next.invitations[k])
    {
      assert Backed(b, b.invitations[k]);
    }
  }

  lemma GenerateOneKeeps(p: Proofs, b: Book, id: string, draw: string -> string, at: Moment, drawn: set<string>)
    requires BuildsFor(p) && Kept(b, drawn) && id in b.invitations && draw(id) !in drawn
    ensures Kept(GenerateOne(p, b, id, draw, at).0, drawn + {draw(id)})
    ensures GenerateOne(p, b, id, draw, at).0.invitations.Keys == b.invitations.Keys
  {
    hide ArtifactState;
    var record := b.invitations[id];
    var built := p.build(draw(id), record.person, at.now);
    DrawnGrows(b, drawn, drawn + {draw(id)});
    PendingKeeps(b, id, if record.status == "declined" then "pending" else record.status, drawn + {draw(id)});
    if built.Ok? {
      ReissueKeeps(b, id, built.value, at.text, drawn);
    }
    hide Kept;
    hide Reissued;
    hide WithoutRow;
  }

  predicate Distinct(ids: seq<string>) {
    forall i, j :: 0 <= i < j < |ids| ==> ids[i] != ids[j]
  }

  ghost predicate FreshFor(draw: string -> string, ids: set<string>, drawn: set<string>) {
    (forall id :: id in ids ==> draw(id) !in drawn) && forall i, j :: i in ids && j in ids && i != j ==> draw(i) != draw(j)
  }

  function SetOf(ids: seq<string>): set<string> {
    set id | id in ids
  }

  function Draws(draw: string -> string, ids: set<string>): set<string> {
    set id | id in ids :: draw(id)
  }

  lemma {:induction false} GenerateAllKeeps(p: Proofs, b: Book, ids: seq<string>, all: set<string>, draw: string -> string, at: Moment, drawn: set<string>)
    requires BuildsFor(p) && Kept(b, drawn) && Distinct(ids) && (forall id :: id in ids ==> id in b.invitations && id in all)
    requires FreshFor(draw, SetOf(ids), drawn)
    ensures Kept(GenerateAll(p, b, ids, draw, at).0, drawn + Draws(draw, SetOf(ids)))
    decreases |ids|
  {
    hide GenerateOne;
    if ids == [] {
      assert drawn + Draws(draw, SetOf(ids)) == drawn;
    } else {
      var (next, ok) := GenerateOne(p, b, ids[0], draw, at);
      GenerateOneKeeps(p, b, ids[0], draw, at, drawn);
      hide Kept;
      var rest := ids[1..];
      var drawn' := drawn + {draw(ids[0])};
      assert forall id :: id in rest ==> id in ids && id != ids[0];
      if ok {
        GenerateAllKeeps(p, next, rest, all, draw, at, drawn');
        assert drawn' + Draws(draw, SetOf(rest)) == drawn + Draws(draw, SetOf(ids));
      } else {
        assert draw(ids[0]) in Draws(draw, SetOf(ids));
        DrawnGrows(next, drawn', drawn + Draws(draw, SetOf(ids)));
      }
    }
  }

  lemma GenerateKeeps(p: Proofs, b: Book, canSign: bool, t: Targets, draw: string -> string, at: Moment, drawn: set<string>)
    requires BuildsFor(p) && Kept(b, drawn) && FreshFor(draw, b.invitations.Keys, drawn)
    ensures Kept(GenerateArtifacts(p, b, canSign, t, draw, at).0, drawn + Draws(draw, b.invitations.Keys))
  {
    var all := drawn + Draws(draw, b.invitations.Keys);
    DrawnGrows(b, drawn, all);
    hide Kept;
    hide FreshFor;
    hide Draws;
    hide BuildsFor;
    if !t.Invalid? && (t.Listed? ==> t.ids <= Eligible(b)) && canSign {
      var ids := SortedKeys(TargetIDs(b, t) * Eligible(b), CodePoint);
      assert forall id :: id in ids ==> id in b.invitations;
      ChosenKeeps(p, b, t, ids, draw, at, drawn);
      hide GenerateAll;
      hide SortedKeys;
      hide TargetIDs;
    }
  }

  lemma ChosenKeeps(p: Proofs, b: Book, t: Targets, ids: seq<string>, draw: string -> string, at: Moment, drawn: set<string>)
    requires BuildsFor(p) && Kept(b, drawn) && FreshFor(draw, b.invitations.Keys, drawn)
    requires ids == SortedKeys(TargetIDs(b, t) * Eligible(b), CodePoint) && forall id :: id in ids ==> id in b.invitations
    ensures Kept(GenerateAll(p, b, ids, draw, at).0, drawn + Draws(draw, b.invitations.Keys))
  {
    SortedKeysSorted(TargetIDs(b, t) * Eligible(b), CodePoint);
    SetDistinct(ids, TargetIDs(b, t) * Eligible(b));
    hide Kept;
    hide GenerateAll;
    hide SortedKeys;
    hide Distinct;
    GenerateAllKeeps(p, b, ids, b.invitations.Keys, draw, at, drawn);
    DrawnGrows(GenerateAll(p, b, ids, draw, at).0, drawn + Draws(draw, SetOf(ids)), drawn + Draws(draw, b.invitations.Keys));
  }

  lemma SetDistinct(ids: seq<string>, of: set<string>)
    requires multiset(ids) == multiset(of)
    ensures Distinct(ids)
  {
    forall i, j | 0 <= i < j < |ids|
      ensures ids[i] != ids[j]
    {
      var before, after := ids[..j], ids[j..];
      assert ids == before + after && before[i] == ids[i] && after[0] == ids[j];
      assert ids[i] in multiset(before) && ids[j] in multiset(after);
      assert multiset(ids)[ids[j]] <= 1;
    }
  }

  lemma AcceptKeeps(p: Proofs, b: Book, owner: Option<Person>, cellUUID: string, a: Artifact, c: Acceptance, at: Moment, drawn: set<string>)
    requires Kept(b, drawn)
    ensures Kept(AcceptArtifact(p, b, owner, cellUUID, a, c, at).0, drawn)
  {
    var next := AcceptArtifact(p, b, owner, cellUUID, a, c, at).0;
    if AcceptVerdict(p, b, owner, cellUUID, a, c, at.now) == "" {
      AcceptConditions(p, b, owner, cellUUID, a, c, at.now);
      hide AcceptVerdict;
      forall k | k in next.invitations
        ensures Backed(next, next.invitations[k])
      {
        assert Backed(b, b.invitations[k]);
      }
    }
  }

  lemma AcceptConditions(p: Proofs, b: Book, owner: Option<Person>, cellUUID: string, a: Artifact, c: Acceptance, now: int)
    requires AcceptVerdict(p, b, owner, cellUUID, a, c, now) == ""
    ensures a.invited.uuid in b.invitations
    ensures var record := b.invitations[a.invited.uuid];
            record.artifact.Some? && record.artifact.value.invitationID == a.invitationID
            && record.status != "revoked" && record.status != "declined"
    ensures a.invitationID in b.consumed ==> b.consumed[a.invitationID].acceptanceID == c.acceptanceID
    ensures a.invitationID !in b.consumed ==> !AcceptanceUsed(b.consumed, c.acceptanceID)
  {
  }

  ghost predicate FreshStep(b: Book, step: Step, drawn: set<string>) {
    step.Generate? ==> FreshFor(step.draw, b.invitations.Keys, drawn)
  }

  function DrawnAfter(b: Book, step: Step, drawn: set<string>): set<string> {
    if step.Generate? then drawn + Draws(step.draw, b.invitations.Keys) else drawn
  }

  lemma StepKeeps(s: Setting, b: Book, step: Step, at: Moment, drawn: set<string>)
    requires BuildsFor(s.proofs) && Kept(b, drawn) && FreshStep(b, step, drawn)
    ensures Kept(Apply(s, b, step, at), DrawnAfter(b, step, drawn))
  {
    match step
    case Invite(names) => InviteAllKeeps(b, s.owner, PeopleFrom(b, names), at.text, drawn);
    case Generate(canSign, targets, draw) => GenerateKeeps(s.proofs, b, canSign, targets, draw, at, drawn);
    case Accept(artifact, acceptance) => AcceptKeeps(s.proofs, b, s.owner, s.cellUUID, artifact, acceptance, at, drawn);
    case SetStatus(targets, status) => StatusKeeps(b, targets, status, at.text, drawn);
    case Clear =>
    case Say(m) =>
  }

  lemma StatusKeeps(b: Book, t: Targets, status: string, now: string, drawn: set<string>)
    requires Kept(b, drawn)
    ensures Kept(UpdateStatuses(b, t, status, now).0, drawn)
  {
    var next := UpdateStatuses(b, t, status, now).0;
    forall k | k in next.invitations
      ensures Backed(next, next.invitations[k])
    {
      assert Backed(b, b.invitations[k]);
    }
  }

  // ---- Runs ----

  ghost predicate FreshRun(s: Setting, b: Book, steps: seq<(Step, Moment)>, drawn: set<string>)
    decreases |steps|
  {
    steps == [] ||
    (FreshStep(b, steps[0].0, drawn)
     && FreshRun(s, Apply(s, b, steps[0].0, steps[0].1), steps[1..], DrawnAfter(b, steps[0].0, drawn)))
  }

  function Run(s: Setting, b: Book, steps: seq<(Step, Moment)>): Book
    decreases |steps|
  {
    if steps == [] then b else Run(s, Apply(s, b, steps[0].0, steps[0].1), steps[1..])
  }

  /** Over every run: consumed acceptances stay distinct and every accepted proof has its row. */
  lemma {:induction false} RunKeeps(s: Setting, b: Book, steps: seq<(Step, Moment)>, drawn: set<string>)
    requires BuildsFor(s.proofs) && Kept(b, drawn) && FreshRun(s, b, steps, drawn)
    ensures RowsDiffer(Run(s, b, steps)) && AllBacked(Run(s, b, steps)) && ArtifactsDiffer(Run(s, b, steps))
    decreases |steps|
  {
    hide Apply;
    hide FreshStep;
    if steps != [] {
      StepKeeps(s, b, steps[0].0, steps[0].1, drawn);
      hide Kept;
      hide DrawnAfter;
      RunKeeps(s, Apply(s, b, steps[0].0, steps[0].1), steps[1..], DrawnAfter(b, steps[0].0, drawn));
    }
  }

  // ---- The message window ----

  function Said(steps: seq<(Step, Moment)>): seq<Message> {
    if steps == [] then []
    else
      var n := |steps| - 1;
      Said(steps[..n]) + if steps[n].0.Say? then [steps[n].0.message] else []
  }

  function LastOf(log: seq<Message>, limit: nat): seq<Message> {
    if |log| > limit then log[|log| - limit..] else log
  }

  lemma {:induction false} RunSnoc(s: Setting, b: Book, steps: seq<(Step, Moment)>, step: (Step, Moment))
    ensures Run(s, b, steps + [step]) == Apply(s, Run(s, b, steps), step.0, step.1)
    decreases |steps|
  {
    hide Apply;
    if steps == [] {
      assert [step][1..] == [] && steps + [step] == [step];
    } else {
      RunSnoc(s, Apply(s, b, steps[0].0, steps[0].1), steps[1..], step);
      assert (steps + [step])[1..] == steps[1..] + [step];
    }
  }

  lemma {:induction false} InviteKeepsMessages(b: Book, owner: Option<Person>, people: seq<Person>, now: string)
    ensures InviteAll(b, owner, people, now).messages == b.messages
  {
    if people != [] {
      InviteKeepsMessages(b, owner, people[..|people| - 1], now);
    }
  }

  lemma {:induction false} GenerateKeepsMessages(p: Proofs, b: Book, ids: seq<string>, draw: string -> string, at: Moment)
    requires forall id :: id in ids ==> id in b.invitations
    ensures GenerateAll(p, b, ids, draw, at).0.messages == b.messages
    decreases |ids|
  {
    hide ArtifactState;
    if ids != [] {
      var (next, ok) := GenerateOne(p, b, ids[0], draw, at);
      if ok {
        GenerateKeepsMessages(p, next, ids[1..], draw, at);
      }
    }
  }

  lemma OthersKeepMessages(s: Setting, b: Book, step: Step, at: Moment)
    requires !step.Say?
    ensures Apply(s, b, step, at).messages == b.messages
  {
    hide GenerateArtifacts;
    hide AcceptArtifact;
    hide UpdateStatuses;
    hide InviteAll;
    hide PeopleFrom;
    match step
    case Invite(names) => InviteKeepsMessages(b, s.owner, PeopleFrom(b, names), at.text);
    case Generate(canSign, targets, draw) => IssueKeepsMessages(s.proofs, b, canSign, targets, draw, at);
    case Accept(artifact, acceptance) => AcceptKeepsMessages(s, b, artifact, acceptance, at);
    case SetStatus(targets, status) => StatusKeepsMessages(b, targets, status, at.text);
    case Clear =>
  }

  lemma IssueKeepsMessages(p: Proofs, b: Book, canSign: bool, targets: Targets, draw: string -> string, at: Moment)
    ensures GenerateArtifacts(p, b, canSign, targets, draw, at).0.messages == b.messages
  {
    hide GenerateAll;
    hide TargetIDs;
    var ids := SortedKeys(TargetIDs(b, targets) * Eligible(b), CodePoint);
    assert forall id :: id in ids ==> id in b.invitations;
    GenerateKeepsMessages(p, b, ids, draw, at);
  }

  lemma AcceptKeepsMessages(s: Setting, b: Book, artifact: Artifact, acceptance: Acceptance, at: Moment)
    ensures AcceptArtifact(s.proofs, b, s.owner, s.cellUUID, artifact, acceptance, at).0.messages == b.messages
  {
  }

  lemma StatusKeepsMessages(b: Book, targets: Targets, status: string, now: string)
    ensures UpdateStatuses(b, targets, status, now).0.messages == b.messages
  {
  }

  /** The cut starts past the end, and the store panics with the message already appended, just for negative limits. */
  lemma WindowPanicsIff(messages: seq<Message>, m: Message, limit: int)
    ensures Window(messages, m, limit).None? <==> limit < 0
  {
  }

  /** What the chat holds of everything said: the last ones, or with a negative limit all of it, each cut having panicked. */
  function Remembered(log: seq<Message>, limit: int): seq<Message> {
    if limit >= 0 then LastOf(log, limit) else log
  }

  /** The chat holds exactly the last messages said, in order, and never more than its limit, unless that is negative. */
  lemma {:induction false} MessagesAreLast(s: Setting, steps: seq<(Step, Moment)>)
    ensures Run(s, EMPTY, steps).messages == Remembered(Said(steps), s.limit)
    ensures s.limit >= 0 ==> |Run(s, EMPTY, steps).messages| <= s.limit
    decreases |steps|
  {
    if steps != [] {
      var n := |steps| - 1;
      assert steps == steps[..n] + [steps[n]];
      RunSnoc(s, EMPTY, steps[..n], steps[n]);
      MessagesAreLast(s, steps[..n]);
      MessagesStep(s, Run(s, EMPTY, steps[..n]), steps[n].0, steps[n].1, Said(steps[..n]));
    }
    hide Run;
    hide Apply;
  }

  lemma MessagesStep(s: Setting, b: Book, step: Step, at: Moment, log: seq<Message>)
    requires b.messages == Remembered(log, s.limit)
    ensures Apply(s, b, step, at).messages == Remembered(log + if step.Say? then [step.message] else [], s.limit)
  {
    if step.Say? {
      WindowPanicsIff(b.messages, step.message, s.limit);
      if s.limit >= 0 {
        WindowSlides(log, step.message, s.limit);
      }
    } else {
      OthersKeepMessages(s, b, step, at);
      assert log + [] == log;
    }
    hide InviteIdentities;
    hide GenerateArtifacts;
    hide AcceptArtifact;
    hide UpdateStatuses;
    hide LastOf;
    hide Window;
  }

  lemma WindowSlides(log: seq<Message>, m: Message, limit: nat)
    ensures Window(LastOf(log, limit), m, limit) == Some(LastOf(log + [m], limit))
  {
    var all := LastOf(log, limit) + [m];
    if |log| >= limit {
      assert all[1..] == (log + [m])[|log| + 1 - limit..];
    }
  }

  // ---- The class ----

  class ChatBook {
    const setting: Setting
    var invitations: map<string, Invitation>
    var consumed: map<string, Row>
    var messages: seq<Message>

    function View(): Book
      reads this
    {
      Book(invitations, consumed, messages)
    }

    constructor (setting: Setting)
      ensures View() == EMPTY && this.setting == setting
    {
      this.setting := setting;
      invitations, consumed, messages := map[], map[], [];
    }

    method CollectPeople(names: seq<Named>) returns (people: seq<Person>)
      ensures people == PeopleFrom(View(), names)
    {
      people := [];
      for i := 0 to |names|
        invariant people == PeopleFrom(View(), names[..i])
      {
        assert names[..i + 1][..i] == names[..i];
        match names[i] {
          case Known(uuid) =>
            if uuid in invitations {
              people := people + [invitations[uuid].person];
            }
          case Described(person) =>
            people := people + [person];
        }
      }
      assert names[..|names|] == names;
    }

    method InviteEach(names: seq<Named>, now: string)
      modifies this`invitations
      ensures View() == InviteIdentities(old(View()), setting.owner, names, now)
    {
      var people := CollectPeople(names);
      ghost var b := View();
      for i := 0 to |people|
        invariant View() == InviteAll(b, setting.owner, people[..i], now)
      {
        assert people[..i + 1][..i] == people[..i];
        var person := people[i];
        if (setting.owner.Some? && person.uuid == setting.owner.value.uuid) || person.publicKey.None? {
          continue;
        }
        if person.uuid in invitations {
          var existing := invitations[person.uuid].(person := person);
          if existing.status != "accepted" {
            existing := existing.(status := "pending");
          }
          existing := existing.(source := "inviteIdentities", updatedAt := now, acceptance := None);
          invitations := invitations[person.uuid := existing];
        } else {
          invitations := invitations[person.uuid := Invitation(person, "pending", "inviteIdentities", now, now, None, None)];
        }
      }
      assert people[..|people|] == people;
    }

    method IssueOne(id: string, draw: string -> string, at: Moment) returns (ok: bool)
      requires id in invitations
      modifies this`invitations, this`consumed
      ensures (View(), ok) == GenerateOne(setting.proofs, old(View()), id, draw, at)
    {
      var record := invitations[id];
      if record.artifact.Some? && ArtifactState(setting.proofs, record, at.now) == "issued" {
        return true;
      }
      if record.status == "declined" {
        record := record.(status := "pending");
      }
      var prior := record.artifact;
      var built := setting.proofs.build(draw(id), record.person, at.now);
      if built.Err? {
        invitations := invitations[id := record];
        return false;
      }
      if prior.Some? {
        consumed := consumed - {prior.value.invitationID};
      }
      invitations := invitations[id := record.(artifact := Some(built.value), acceptance := None, updatedAt := at.text)];
      return true;
    }

    method IssueArtifacts(canSign: bool, targets: Targets, draw: string -> string, at: Moment) returns (error: string)
      modifies this`invitations, this`consumed
      ensures (View(), error) == GenerateArtifacts(setting.proofs, old(View()), canSign, targets, draw, at)
    {
      hide GenerateAll;
      if targets.Invalid? {
        return "error: invalid invitation target payload";
      }
      if targets.Listed? && !(targets.ids <= Eligible(View())) {
        return "error: invitation targets must all reference eligible invitation records";
      }
      if !canSign {
        return "error: owner has no signing key";
      }
      var ids := SortedKeys(TargetIDs(View(), targets) * Eligible(View()), CodePoint);
      assert forall id :: id in ids ==> id in invitations;
      var ok := IssueAll(ids, draw, at);
      return if ok then "" else "error";
    }

    method IssueAll(ids: seq<string>, draw: string -> string, at: Moment) returns (ok: bool)
      requires forall id :: id in ids ==> id in invitations
      modifies this`invitations, this`consumed
      ensures (View(), ok) == GenerateAll(setting.proofs, old(View()), ids, draw, at)
    {
      hide GenerateOne;
      ghost var whole := GenerateAll(setting.proofs, View(), ids, draw, at);
      for i := 0 to |ids|
        invariant forall id :: id in ids ==> id in invitations
        invariant whole == GenerateAll(setting.proofs, View(), ids[i..], draw, at)
      {
        assert ids[i..][0] == ids[i] && ids[i..][1..] == ids[i + 1..];
        GenerateKeepsKeys(setting.proofs, View(), ids[i], draw, at);
        var issued := IssueOne(ids[i], draw, at);
        if !issued {
          return false;
        }
      }
      return true;
    }

    method TakeArtifact(a: Artifact, c: Acceptance, at: Moment) returns (error: string)
      modifies this`invitations, this`consumed
      ensures (View(), error) == AcceptArtifact(setting.proofs, old(View()), setting.owner, setting.cellUUID, a, c, at)
    {
      var p := setting.proofs;
      if p.invitation(a, at.now) != "" {
        return p.invitation(a, at.now);
      }
      if a.chatCellUUID != setting.cellUUID {
        return "chatCellMismatch";
      }
      if setting.owner.Some? && a.inviterUUID != setting.owner.value.uuid {
        return "inviterMismatch";
      }
      if p.acceptance(c, a, at.now) != "" {
        return p.acceptance(c, a, at.now);
      }
      if a.invited.uuid !in invitations {
        return "invitation record not found for artifact";
      }
      var record := invitations[a.invited.uuid];
      if record.artifact.None? {
        return "invitation artifact is no longer active";
      }
      if record.artifact.value.invitationID != a.invitationID || p.hash(record.artifact.value) != p.hash(a) {
        return "invitation artifact has been superseded";
      }
      if record.status == "revoked" {
        return "invitation artifact has been revoked";
      }
      if record.status == "declined" {
        return "invitation artifact has been declined";
      }
      if a.invitationID in consumed {
        if consumed[a.invitationID].acceptanceID != c.acceptanceID {
          return "invitation artifact already consumed";
        }
      } else {
        var used := IsUsed(c.acceptanceID);
        if used {
          return "acceptance proof already consumed";
        }
      }
      invitations := invitations[a.invited.uuid := record.(status := "accepted", source := "artifactAccepted", updatedAt := at.text,
                                                          artifact := Some(a), acceptance := Some(c))];
      consumed := consumed[a.invitationID := Row(a.invitationID, c.acceptanceID, a.invited.uuid, at.text)];
      return "";
    }

    /** The rows are walked in any order. */
    method IsUsed(acceptanceID: string) returns (used: bool)
      ensures used == AcceptanceUsed(consumed, acceptanceID)
    {
      var left := consumed.Keys;
      while left != {}
        invariant left <= consumed.Keys
        invariant forall id :: id in consumed && id !in left ==> consumed[id].acceptanceID != acceptanceID
      {
        var id :| id in left;
        if consumed[id].acceptanceID == acceptanceID {
          return true;
        }
        left := left - {id};
      }
      return false;
    }

    method ChangeStatuses(targets: Targets, status: string, now: string) returns (error: string)
      modifies this`invitations
      ensures (View(), error) == UpdateStatuses(old(View()), targets, status, now)
    {
      if targets.Invalid? {
        return "error: invalid invitation target payload";
      }
      var ids := TargetIDs(View(), targets);
      if !(ids <= invitations.Keys) {
        return "error: invitation targets must all reference known invitation records";
      }
      ghost var before := invitations;
      var left := ids;
      while left != {}
        invariant left <= ids && invitations.Keys == before.Keys
        invariant invitations == WithStatus(before, ids - left, status, now)
      {
        var id :| id in left;
        assert id !in ids - left;
        invitations := invitations[id := invitations[id].(status := status, updatedAt := now)];
        left := left - {id};
        assert invitations == WithStatus(before, ids - left, status, now);
      }
      assert ids - {} == ids;
      return "";
    }

    method Forget()
      modifies this`invitations, this`consumed
      ensures View() == ClearInvites(old(View()))
    {
      invitations, consumed := map[], map[];
    }

    method Store(m: Message) returns (ok: bool)
      modifies this`messages
      ensures ok <==> setting.limit >= 0
      ensures if ok then Some(messages) == Window(old(messages), m, setting.limit) else messages == old(messages) + [m]
    {
      messages := messages + [m];
      var over := |messages| - setting.limit;
      if over > |messages| {
        return false;
      }
      if over > 0 {
        messages := messages[over..];
      }
      return true;
    }
  }

  lemma GenerateKeepsKeys(p: Proofs, b: Book, id: string, draw: string -> string, at: Moment)
    requires id in b.invitations
    ensures GenerateOne(p, b, id, draw, at).0.invitations.Keys == b.invitations.Keys
  {
    hide ArtifactState;
  }
}
