/** The invitation landing: tickets, their replies, revocation, purge, and what a visitor is told. */
module Landing {
  import opened Prelude
  import Text

  const SECOND := 1_000_000_000
  const GRACE := 24 * 60 * 60 * SECOND
  const MAXIMUM_TTL := 90 * 86_400

  /** A decoded invitation ticket; times are in whole seconds. */
  datatype Ticket = Ticket(
    ticketID: string, humanCode: string, audienceToken: string, issuerUUID: string, issuerName: string,
    contactEndpoint: Option<string>, createdAt: int, expiresAt: int, body: Bytes)
  {
    predicate IsExpired(now: int) {
      now > expiresAt * SECOND
    }
  }

  datatype Publication = Publication(
    ticketID: string, humanCode: string, ticketToken: string, audienceToken: string, issuerUUID: string, expiresAt: int,
    maxContactRequests: int, statusKey: string, body: Bytes)

  datatype Notice = Notice(ticketID: string, issuerUUID: string, reason: string, body: Bytes)

  datatype Request = Request(
    requestID: string, ticketID: string, issuerEndpoint: string, senderUUID: string, senderName: string, senderEntityRef: Option<string>,
    expiresAt: int, body: Bytes)

  /** What can be wrong with a ticket's own proof. */
  datatype Fault = Unsigned | IssuerMismatch | Uncanonical | BadSignature {
    function Code(): string {
      match this
      case Unsigned => "unsigned"
      case IssuerMismatch => "issuer_mismatch"
      case Uncanonical => "uncanonical"
      case BadSignature => "bad_signature"
    }
  }

  /** Token decoding and signatures: why a ticket's own proof fails, and whether an envelope's proof holds under a ticket. */
  datatype Checks = Checks(
    decodeToken: string -> Option<Ticket>, ticketProof: Ticket -> Option<Fault>,
    publicationProof: (Publication, Ticket) -> string, noticeProof: (Notice, Ticket) -> string, requestProof: Request -> string,
    digest: string -> string, looksLikeCode: string -> bool, upper: string -> string, trim: string -> string)

  datatype Entry = Entry(
    ticketID: string, humanCode: string, ticketToken: string, statusKeyDigest: string, expiresAt: int, limit: int,
    openCount: nat, firstOpenedAt: Option<int>, respondedAt: Option<int>, revokedAt: Option<int>, entityRef: Option<string>, reason: string)

  datatype Row = Row(requestID: string, ticketID: string, request: Request, senderName: string)

  datatype Mailbox = Mailbox(tickets: map<string, Entry>, rows: seq<Row>)

  const EMPTY := Mailbox(map[], [])

  // ---- Verdicts ----

  function VerifyTicket(c: Checks, t: Ticket, now: int, revoked: bool): string {
    if c.ticketProof(t).Some? then c.ticketProof(t).value.Code()
    else if t.expiresAt - t.createdAt > MAXIMUM_TTL then "ttl_too_long"
    else if revoked then "revoked"
    else if t.IsExpired(now) then "expired"
    else "valid"
  }

  function VerifyPublication(c: Checks, p: Publication, now: int): Result<Ticket> {
    match c.decodeToken(p.ticketToken)
    case None => Err("ticket_invalid:malformed_payload")
    case Some(t) =>
      if c.ticketProof(t).Some? then Err("bad_signature")
      else if t.IsExpired(now) then Err("ticket_expired")
      else if t.expiresAt - t.createdAt > MAXIMUM_TTL then Err("ticket_invalid:ttl_too_long")
      else if p.expiresAt != t.expiresAt || t.ticketID != p.ticketID || t.humanCode != p.humanCode || t.audienceToken != p.audienceToken then
        Err("ticket_mismatch")
      else if t.issuerUUID != p.issuerUUID then Err("issuer_mismatch")
      else if c.publicationProof(p, t) != "" then Err(c.publicationProof(p, t))
      else Ok(t)
  }

  function VerifyNotice(c: Checks, n: Notice, t: Ticket): string {
    if n.ticketID != t.ticketID then "ticket_mismatch"
    else if n.issuerUUID != t.issuerUUID then "issuer_mismatch"
    else c.noticeProof(n, t)
  }

  function VerifyRequest(c: Checks, r: Request, t: Ticket, now: int): string {
    if r.ticketID != t.ticketID || Some(r.issuerEndpoint) != t.contactEndpoint then "ticket_mismatch"
    else if now > r.expiresAt * SECOND then "expired"
    else if t.IsExpired(now) then "ticket_expired"
    else if r.senderUUID == t.issuerUUID then "issuer_mismatch"
    else c.requestProof(r)
  }

  // ---- Publish and revoke ----

  predicate CodeTaken(m: Mailbox, code: string) {
    exists id :: id in m.tickets && m.tickets[id].humanCode == code
  }

  function Capped(n: int): (limit: int)
    ensures 1 <= limit <= 20
  {
    if n < 1 then 1 else if n > 20 then 20 else n
  }

  function Clip(s: string, n: nat): string {
    if |s| > n then s[..n] else s
  }

  function Publish(c: Checks, m: Mailbox, p: Publication, now: int): (Mailbox, string) {
    match VerifyPublication(c, p, now)
    case Err(code) => (m, code)
    case Ok(t) =>
      if t.IsExpired(now) then (m, "expired")
      else if p.ticketID in m.tickets then (m, if m.tickets[p.ticketID].ticketToken != p.ticketToken then "already_published" else "ok")
      else if CodeTaken(m, p.humanCode) then (m, "code_taken")
      else
        var entry := Entry(p.ticketID, p.humanCode, p.ticketToken, c.digest(p.statusKey), t.expiresAt * SECOND, Capped(p.maxContactRequests),
                           0, None, None, None, None, "");
        (m.(tickets := m.tickets[p.ticketID := entry]), "ok")
  }

  function Revoke(c: Checks, m: Mailbox, n: Notice, now: int): (Mailbox, string) {
    if n.ticketID !in m.tickets then (m, "not_found")
    else
      var entry := m.tickets[n.ticketID];
      match c.decodeToken(entry.ticketToken)
      case None => (m, "bad_request")
      case Some(t) =>
        if VerifyNotice(c, n, t) != "" then (m, VerifyNotice(c, n, t))
        else (m.(tickets := m.tickets[n.ticketID := entry.(revokedAt := Some(now), reason := Clip(n.reason, 240))]), "ok")
  }

  // ---- Replies ----

  function RowsOf(rows: seq<Row>, id: string): seq<Row> {
    if rows == [] then []
    else RowsOf(rows[..|rows| - 1], id) + if rows[|rows| - 1].ticketID == id then [rows[|rows| - 1]] else []
  }

  function RowsOutside(rows: seq<Row>, ids: set<string>): seq<Row> {
    if rows == [] then []
    else RowsOutside(rows[..|rows| - 1], ids) + if rows[|rows| - 1].ticketID in ids then [] else [rows[|rows| - 1]]
  }

  function RowsInside(rows: seq<Row>, ids: set<string>): seq<Row> {
    if rows == [] then []
    else RowsInside(rows[..|rows| - 1], ids) + if rows[|rows| - 1].ticketID in ids then [rows[|rows| - 1]] else []
  }

  predicate Received(rows: seq<Row>, requestID: string) {
    exists i :: 0 <= i < |rows| && rows[i].requestID == requestID
  }

  /** The mailbox after a reply, the answer, and the row stored, if one was. */
  function Reply(c: Checks, m: Mailbox, r: Request, now: int): (Mailbox, string, Option<Row>) {
    if r.ticketID !in m.tickets then (m, "not_found", None)
    else
      var entry := m.tickets[r.ticketID];
      if entry.revokedAt.Some? || now > entry.expiresAt then (m, "not_active", None)
      else
        match c.decodeToken(entry.ticketToken)
        case None => (m, "bad_request", None)
        case Some(t) =>
          if VerifyRequest(c, r, t, now) != "" then (m, VerifyRequest(c, r, t, now), None)
          else if |RowsOf(m.rows, entry.ticketID)| >= entry.limit then (m, "inbox_full", None)
          else if Received(m.rows, r.requestID) then (m, "ok", None)
          else
            var row := Row(r.requestID, entry.ticketID, r, Clip(r.senderName, 120));
            (Mailbox(m.tickets[r.ticketID := entry.(respondedAt := Some(now), entityRef := r.senderEntityRef)], m.rows + [row]), "ok", Some(row))
  }

  /** Whoever holds the status key takes the ticket's rows out. */
  function Collect(c: Checks, m: Mailbox, ticketID: string, statusKey: string): (Mailbox, Option<seq<Row>>) {
    if ticketID !in m.tickets || c.digest(statusKey) != m.tickets[ticketID].statusKeyDigest then (m, None)
    else
      var id := m.tickets[ticketID].ticketID;
      (m.(rows := RowsOutside(m.rows, {id})), Some(RowsInside(m.rows, {id})))
  }

  function Gone(m: Mailbox, now: int): set<string> {
    set id | id in m.tickets && m.tickets[id].expiresAt < now - GRACE
  }

  /** Tickets past a day of grace go, and their rows with them. */
  function PurgeExpired(m: Mailbox, now: int): (Mailbox, seq<Row>) {
    var gone := Gone(m, now);
    (Mailbox(m.tickets - gone, RowsOutside(m.rows, gone)), RowsInside(m.rows, gone))
  }

  // ---- Landing ----

  datatype Answer = NotFound | Unavailable | Malformed | Refused(code: string) | Valid(ticket: Ticket, published: bool)

  predicate CodesDiffer(m: Mailbox) {
    forall i, j :: i in m.tickets && j in m.tickets && i != j ==> m.tickets[i].humanCode != m.tickets[j].humanCode
  }

  function ByCode(m: Mailbox, code: string): (id: Option<string>)
    requires CodesDiffer(m)
    ensures id.Some? ==> id.value in m.tickets && m.tickets[id.value].humanCode == code
    ensures id.None? <==> !CodeTaken(m, code)
  {
    if CodeTaken(m, code) then
      var id :| id in m.tickets && m.tickets[id].humanCode == code;
      Some(id)
    else None
  }

  /** The ticket a link or code names, and the entry kept for it. */
  function Resolve(c: Checks, m: Mailbox, raw: string): Result<(Ticket, Option<string>)>
    requires CodesDiffer(m)
  {
    if c.looksLikeCode(raw) then
      match ByCode(m, c.upper(raw))
      case None => Err("not_available")
      case Some(id) =>
        match c.decodeToken(m.tickets[id].ticketToken)
        case None => Err("not_available")
        case Some(t) => Ok((t, Some(id)))
    else
      match c.decodeToken(raw)
      case None => Err("malformed")
      case Some(t) => Ok((t, if t.ticketID in m.tickets then Some(t.ticketID) else None))
  }

  function Opened(m: Mailbox, id: string, now: int): Mailbox
    requires id in m.tickets
  {
    var entry := m.tickets[id];
    m.(tickets := m.tickets[id := entry.(openCount := entry.openCount + 1,
                                         firstOpenedAt := if entry.firstOpenedAt.None? then Some(now) else entry.firstOpenedAt)])
  }

  function Land(c: Checks, m: Mailbox, given: string, now: int): (Mailbox, Answer)
    requires CodesDiffer(m)
  {
    var raw := c.trim(given);
    if raw == "" || |Text.Utf8(raw)| > 4096 then (m, NotFound)
    else
      match Resolve(c, m, raw)
      case Err(code) => (m, if code == "malformed" then Malformed else Unavailable)
      case Ok((t, id)) =>
        var revoked := id.Some? && id.value in m.tickets && m.tickets[id.value].revokedAt.Some?;
        var verdict := VerifyTicket(c, t, now, revoked);
        if verdict == "valid" then (if id.Some? && id.value in m.tickets then Opened(m, id.value, now) else m, Valid(t, id.Some?))
        else (m, if c.looksLikeCode(raw) then Unavailable else Refused(verdict))
  }

  // ---- What every step keeps ----

  /** Each entry is the published ticket its token decodes to. */
  predicate EntriesTrue(c: Checks, m: Mailbox) {
    forall id :: id in m.tickets ==>
      var entry := m.tickets[id];
      && entry.ticketID == id && 1 <= entry.limit <= 20
      && c.decodeToken(entry.ticketToken).Some?
      && c.decodeToken(entry.ticketToken).value.ticketID == id
      && entry.expiresAt == c.decodeToken(entry.ticketToken).value.expiresAt * SECOND
  }

  predicate RowsDiffer(m: Mailbox) {
    forall i, j :: 0 <= i < j < |m.rows| ==> m.rows[i].requestID != m.rows[j].requestID
  }

  predicate RowsHaveTickets(m: Mailbox) {
    forall i :: 0 <= i < |m.rows| ==> m.rows[i].ticketID in m.tickets
  }

  predicate WithinLimits(m: Mailbox) {
    forall id :: id in m.tickets ==> |RowsOf(m.rows, id)| <= m.tickets[id].limit
  }

  predicate Sound(c: Checks, m: Mailbox) {
    EntriesTrue(c, m) && CodesDiffer(m) && RowsDiffer(m) && RowsHaveTickets(m) && WithinLimits(m)
  }

  lemma PublishKeeps(c: Checks, m: Mailbox, p: Publication, now: int)
    requires Sound(c, m)
    ensures Sound(c, Publish(c, m, p, now).0)
  {
    if Publish(c, m, p, now).0 != m {
      NoRowsOf(m, p.ticketID);
    }
  }

  lemma {:induction false} NoRows(rows: seq<Row>, id: string)
    requires forall i :: 0 <= i < |rows| ==> rows[i].ticketID != id
    ensures RowsOf(rows, id) == []
  {
    if rows != [] {
      NoRows(rows[..|rows| - 1], id);
    }
  }

  lemma NoRowsOf(m: Mailbox, id: string)
    requires RowsHaveTickets(m) && id !in m.tickets
    ensures RowsOf(m.rows, id) == []
  {
    NoRows(m.rows, id);
  }

  lemma RevokeKeeps(c: Checks, m: Mailbox, n: Notice, now: int)
    requires Sound(c, m)
    ensures Sound(c, Revoke(c, m, n, now).0)
  {
  }

  lemma RowsOfSnoc(rows: seq<Row>, row: Row, id: string)
    ensures RowsOf(rows + [row], id) == RowsOf(rows, id) + if row.ticketID == id then [row] else []
  {
    assert (rows + [row])[..|rows|] == rows;
  }

  /** One more row of a ticket below its cap, under an identifier not received. */
  lemma AppendKeeps(c: Checks, m: Mailbox, row: Row, entry: Entry)
    requires Sound(c, m) && row.ticketID in m.tickets && !Received(m.rows, row.requestID)
    requires |RowsOf(m.rows, row.ticketID)| < m.tickets[row.ticketID].limit
    requires entry == m.tickets[row.ticketID].(respondedAt := entry.respondedAt, entityRef := entry.entityRef)
    ensures Sound(c, Mailbox(m.tickets[row.ticketID := entry], m.rows + [row]))
  {
    AppendWithinLimits(m, row, entry);
    AppendRowsDiffer(m, row, entry);
    AppendEntries(c, m, row, entry);
    hide EntriesTrue;
    hide CodesDiffer;
    hide RowsDiffer;
    hide WithinLimits;
    hide RowsOf;
  }

  lemma AppendWithinLimits(m: Mailbox, row: Row, entry: Entry)
    requires WithinLimits(m) && row.ticketID in m.tickets && entry.limit == m.tickets[row.ticketID].limit
    requires |RowsOf(m.rows, row.ticketID)| < m.tickets[row.ticketID].limit
    ensures WithinLimits(Mailbox(m.tickets[row.ticketID := entry], m.rows + [row]))
  {
    var next := Mailbox(m.tickets[row.ticketID := entry], m.rows + [row]);
    hide RowsOf;
    forall id | id in m.tickets
      ensures |RowsOf(next.rows, id)| <= next.tickets[id].limit
    {
      RowsOfSnoc(m.rows, row, id);
    }
  }

  lemma AppendRowsDiffer(m: Mailbox, row: Row, entry: Entry)
    requires RowsDiffer(m) && !Received(m.rows, row.requestID)
    ensures RowsDiffer(Mailbox(m.tickets[row.ticketID := entry], m.rows + [row]))
  {
  }

  lemma AppendEntries(c: Checks, m: Mailbox, row: Row, entry: Entry)
    requires EntriesTrue(c, m) && CodesDiffer(m) && row.ticketID in m.tickets
    requires entry == m.tickets[row.ticketID].(respondedAt := entry.respondedAt, entityRef := entry.entityRef)
    ensures EntriesTrue(c, Mailbox(m.tickets[row.ticketID := entry], m.rows + [row]))
    ensures CodesDiffer(Mailbox(m.tickets[row.ticketID := entry], m.rows + [row]))
  {
  }

  lemma ReplyKeeps(c: Checks, m: Mailbox, r: Request, now: int)
    requires Sound(c, m)
    ensures Sound(c, Reply(c, m, r, now).0)
  {
    var (next, _, row) := Reply(c, m, r, now);
    hide VerifyRequest;
    hide RowsOf;
    hide Received;
    if row.Some? {
      EntryNamed(c, m, r.ticketID);
      hide Sound;
      AppendKeeps(c, m, row.value, next.tickets[r.ticketID]);
    }
  }

  lemma EntryNamed(c: Checks, m: Mailbox, id: string)
    requires Sound(c, m) && id in m.tickets
    ensures m.tickets[id].ticketID == id
  {
  }

  lemma OpenedKeeps(c: Checks, m: Mailbox, id: string, now: int)
    requires Sound(c, m) && id in m.tickets
    ensures Sound(c, Opened(m, id, now))
  {
  }

  lemma LandKeeps(c: Checks, m: Mailbox, given: string, now: int)
    requires Sound(c, m)
    ensures Sound(c, Land(c, m, given, now).0)
  {
    hide Resolve;
    hide VerifyTicket;
    if !(Land(c, m, given, now).0 == m) {
      var (t, id) := Resolve(c, m, c.trim(given)).value;
      OpenedKeeps(c, m, id.value, now);
    }
    hide Sound;
    hide Opened;
  }

  /** Rows inside and outside a set of tickets are all the rows. */
  lemma {:induction false} RowsSplit(rows: seq<Row>, ids: set<string>)
    ensures multiset(RowsOutside(rows, ids)) + multiset(RowsInside(rows, ids)) == multiset(rows)
  {
    if rows != [] {
      var n := |rows| - 1;
      RowsSplit(rows[..n], ids);
      assert rows == rows[..n] + [rows[n]];
      var outside, inside := RowsOutside(rows[..n], ids), RowsInside(rows[..n], ids);
      if rows[n].ticketID in ids {
        assert RowsOutside(rows, ids) == outside && RowsInside(rows, ids) == inside + [rows[n]];
      } else {
        assert RowsOutside(rows, ids) == outside + [rows[n]] && RowsInside(rows, ids) == inside;
      }
      hide RowsOutside;
      hide RowsInside;
    }
  }

  lemma {:induction false} OutsideFrom(rows: seq<Row>, ids: set<string>, row: Row)
    ensures row in RowsOutside(rows, ids) <==> row in rows && row.ticketID !in ids
    decreases |rows|
  {
    if rows != [] {
      var init, last := rows[..|rows| - 1], rows[|rows| - 1];
      OutsideFrom(init, ids, row);
      assert rows == init + [last];
    }
  }

  lemma {:induction false} OutsideCounts(rows: seq<Row>, ids: set<string>, id: string)
    ensures RowsOf(RowsOutside(rows, ids), id) == if id in ids then [] else RowsOf(rows, id)
    decreases |rows|
  {
    if rows != [] {
      var init, last := rows[..|rows| - 1], rows[|rows| - 1];
      OutsideCounts(init, ids, id);
      var rest := RowsOutside(init, ids);
      RowsOfSnoc(rest, last, id);
      assert rest + [] == rest && RowsOf(init, id) + [] == RowsOf(init, id);
    }
  }

  lemma {:induction false} OutsideDiffer(rows: seq<Row>, ids: set<string>)
    requires forall i, j :: 0 <= i < j < |rows| ==> rows[i].requestID != rows[j].requestID
    ensures forall i, j :: 0 <= i < j < |RowsOutside(rows, ids)| ==> RowsOutside(rows, ids)[i].requestID != RowsOutside(rows, ids)[j].requestID
    decreases |rows|
  {
    if rows != [] {
      var init, last := rows[..|rows| - 1], rows[|rows| - 1];
      OutsideDiffer(init, ids);
      var rest := RowsOutside(init, ids);
      forall i | 0 <= i < |rest|
        ensures rest[i].requestID != last.requestID
      {
        OutsideFrom(init, ids, rest[i]);
        var k :| 0 <= k < |init| && init[k] == rest[i];
        assert rows[k].requestID != rows[|rows| - 1].requestID;
      }
    }
  }

  /** Taking the rows of some tickets out leaves the rest as they were. */
  lemma DropKeeps(c: Checks, m: Mailbox, ids: set<string>, gone: set<string>)
    requires Sound(c, m) && gone <= ids
    ensures Sound(c, Mailbox(m.tickets - gone, RowsOutside(m.rows, ids)))
  {
    OutsideDiffer(m.rows, ids);
    var next := Mailbox(m.tickets - gone, RowsOutside(m.rows, ids));
    hide RowsOutside;
    hide RowsOf;
    forall i | 0 <= i < |next.rows|
      ensures next.rows[i].ticketID in next.tickets
    {
      OutsideFrom(m.rows, ids, next.rows[i]);
    }
    forall id | id in next.tickets
      ensures |RowsOf(next.rows, id)| <= next.tickets[id].limit
    {
      OutsideCounts(m.rows, ids, id);
    }
  }

  // ---- Runs ----

  datatype Step =
    | DoPublish(publication: Publication)
    | DoRevoke(notice: Notice)
    | DoReply(request: Request)
    | DoCollect(ticketID: string, statusKey: string)
    | DoLand(raw: string)
    | DoPurge

  /** The mailbox and everything that ever went through it. */
  datatype World = World(mailbox: Mailbox, accepted: seq<Row>, collected: seq<Row>, purged: seq<Row>)

  function Next(c: Checks, w: World, step: Step, now: int): World
    requires CodesDiffer(w.mailbox)
  {
    match step
    case DoPublish(p) => w.(mailbox := Publish(c, w.mailbox, p, now).0)
    case DoRevoke(n) => w.(mailbox := Revoke(c, w.mailbox, n, now).0)
    case DoReply(r) =>
      var (m, _, row) := Reply(c, w.mailbox, r, now);
      w.(mailbox := m, accepted := w.accepted + if row.Some? then [row.value] else [])
    case DoCollect(id, key) =>
      var (m, rows) := Collect(c, w.mailbox, id, key);
      w.(mailbox := m, collected := w.collected + if rows.Some? then rows.value else [])
    case DoLand(raw) => w.(mailbox := Land(c, w.mailbox, raw, now).0)
    case DoPurge =>
      var (m, rows) := PurgeExpired(w.mailbox, now);
      w.(mailbox := m, purged := w.purged + rows)
  }

  lemma StepKeeps(c: Checks, w: World, step: Step, now: int)
    requires Sound(c, w.mailbox)
    ensures Sound(c, Next(c, w, step, now).mailbox)
  {
    match step
    case DoPublish(p) => PublishKeeps(c, w.mailbox, p, now);
    case DoRevoke(n) => RevokeKeeps(c, w.mailbox, n, now);
    case DoReply(r) => ReplyKeeps(c, w.mailbox, r, now);
    case DoCollect(id, key) => CollectKeeps(c, w.mailbox, id, key);
    case DoLand(raw) => LandKeeps(c, w.mailbox, raw, now);
    case DoPurge => DropKeeps(c, w.mailbox, Gone(w.mailbox, now), Gone(w.mailbox, now));
  }

  lemma CollectKeeps(c: Checks, m: Mailbox, id: string, key: string)
    requires Sound(c, m)
    ensures Sound(c, Collect(c, m, id, key).0)
  {
    if Collect(c, m, id, key).1.Some? {
      DropKeeps(c, m, {m.tickets[id].ticketID}, {});
      assert m.tickets - {} == m.tickets;
    }
  }

  predicate Conserved(w: World) {
    multiset(w.accepted) == multiset(w.mailbox.rows) + multiset(w.collected) + multiset(w.purged)
  }

  lemma StepConserves(c: Checks, w: World, step: Step, now: int)
    requires CodesDiffer(w.mailbox) && Conserved(w)
    ensures Conserved(Next(c, w, step, now))
  {
    RowsMove(c, w.mailbox, step, now);
    hide Publish;
    hide Revoke;
    hide Reply;
    hide Collect;
    hide Land;
    hide PurgeExpired;
    hide CodesDiffer;
  }

  /** How each step moves rows: only a reply adds one, only collect and purge take any out. */
  lemma RowsMove(c: Checks, m: Mailbox, step: Step, now: int)
    requires CodesDiffer(m)
    ensures match step
      case DoPublish(p) => Publish(c, m, p, now).0.rows == m.rows
      case DoRevoke(n) => Revoke(c, m, n, now).0.rows == m.rows
      case DoReply(r) => Reply(c, m, r, now).0.rows == m.rows + (if Reply(c, m, r, now).2.Some? then [Reply(c, m, r, now).2.value] else [])
      case DoCollect(id, key) =>
        var (next, out) := Collect(c, m, id, key);
        multiset(next.rows) + multiset(if out.Some? then out.value else []) == multiset(m.rows)
      case DoLand(raw) => Land(c, m, raw, now).0.rows == m.rows
      case DoPurge => multiset(PurgeExpired(m, now).0.rows) + multiset(PurgeExpired(m, now).1) == multiset(m.rows)
  {
    hide VerifyRequest;
    hide VerifyPublication;
    hide VerifyNotice;
    hide VerifyTicket;
    hide Resolve;
    hide CodeTaken;
    hide CodesDiffer;
    match step
    case DoPublish(p) =>
    case DoRevoke(n) =>
    case DoReply(r) => assert m.rows + [] == m.rows;
    case DoCollect(id, key) =>
      if id in m.tickets {
        RowsSplit(m.rows, {m.tickets[id].ticketID});
      }
    case DoLand(raw) =>
    case DoPurge => RowsSplit(m.rows, Gone(m, now));
  }

  /** The world after the steps, each with what the clock reads then. */
  function Run(c: Checks, w: World, steps: seq<(Step, int)>): (r: World)
    requires Sound(c, w.mailbox)
    ensures Sound(c, r.mailbox)
    decreases |steps|
  {
    if steps == [] then w
    else
      StepKeeps(c, w, steps[0].0, steps[0].1);
      Run(c, Next(c, w, steps[0].0, steps[0].1), steps[1..])
  }

  /**
   * Over every run, for any clock: each accepted reply is in the mailbox once, or left by one collect or with
   * one purged ticket, and the mailbox stays sound.
   */
  lemma {:induction false} RunConserves(c: Checks, w: World, steps: seq<(Step, int)>)
    requires Sound(c, w.mailbox) && Conserved(w)
    ensures Conserved(Run(c, w, steps)) && Sound(c, Run(c, w, steps).mailbox)
    decreases |steps|
  {
    hide Conserved;
    hide Sound;
    if steps != [] {
      SoundCodes(c, w.mailbox);
      StepKeeps(c, w, steps[0].0, steps[0].1);
      StepConserves(c, w, steps[0].0, steps[0].1);
      hide Next;
      RunConserves(c, Next(c, w, steps[0].0, steps[0].1), steps[1..]);
    }
  }

  lemma SoundCodes(c: Checks, m: Mailbox)
    requires Sound(c, m)
    ensures CodesDiffer(m)
  {
  }

  /** A new landing has nothing to lose. */
  lemma StartsSound(c: Checks)
    ensures Sound(c, EMPTY) && Conserved(World(EMPTY, [], [], []))
  {
  }

  /** So every landing, from the first request it serves. */
  lemma LandingConserves(c: Checks, steps: seq<(Step, int)>)
    ensures var w := Run(c, World(EMPTY, [], [], []), steps); Conserved(w) && Sound(c, w.mailbox)
  {
    StartsSound(c);
    hide Sound;
    hide Conserved;
    RunConserves(c, World(EMPTY, [], [], []), steps);
  }

  // ---- When a reply is taken again ----

  /** The step takes this ticket's rows out: a collect with its own status key, or its purge. */
  predicate TakesOut(c: Checks, m: Mailbox, step: Step, now: int, ticketID: string) {
    match step
    case DoCollect(id, key) => id == ticketID && Collect(c, m, id, key).1.Some?
    case DoPurge => ticketID in Gone(m, now)
    case _ => false
  }

  /** The step stores a reply under this request identifier. */
  predicate StoresReply(c: Checks, m: Mailbox, step: Step, now: int, requestID: string) {
    step.DoReply? && step.request.requestID == requestID && Reply(c, m, step.request, now).2.Some?
  }

  predicate TakenOut(c: Checks, w: World, steps: seq<(Step, int)>, ticketID: string)
    requires Sound(c, w.mailbox)
    decreases |steps|
  {
    steps != [] &&
    (|| TakesOut(c, w.mailbox, steps[0].0, steps[0].1, ticketID)
     || (StepKeeps(c, w, steps[0].0, steps[0].1); TakenOut(c, Next(c, w, steps[0].0, steps[0].1), steps[1..], ticketID)))
  }

  predicate StoredAgain(c: Checks, w: World, steps: seq<(Step, int)>, requestID: string)
    requires Sound(c, w.mailbox)
    decreases |steps|
  {
    steps != [] &&
    (|| StoresReply(c, w.mailbox, steps[0].0, steps[0].1, requestID)
     || (StepKeeps(c, w, steps[0].0, steps[0].1); StoredAgain(c, Next(c, w, steps[0].0, steps[0].1), steps[1..], requestID)))
  }

  /** The row of this request is in the mailbox, under this ticket. */
  predicate Held(rows: seq<Row>, requestID: string, ticketID: string) {
    exists i :: 0 <= i < |rows| && rows[i].requestID == requestID && rows[i].ticketID == ticketID
  }

  lemma HeldIsReceived(rows: seq<Row>, requestID: string, ticketID: string)
    requires Held(rows, requestID, ticketID)
    ensures Received(rows, requestID)
  {
    var i :| 0 <= i < |rows| && rows[i].requestID == requestID && rows[i].ticketID == ticketID;
    assert rows[i].requestID == requestID;
  }

  lemma HeldOutside(rows: seq<Row>, ids: set<string>, requestID: string, ticketID: string)
    requires Held(rows, requestID, ticketID) && ticketID !in ids
    ensures Held(RowsOutside(rows, ids), requestID, ticketID)
  {
    var i :| 0 <= i < |rows| && rows[i].requestID == requestID && rows[i].ticketID == ticketID;
    OutsideFrom(rows, ids, rows[i]);
    var k :| 0 <= k < |RowsOutside(rows, ids)| && RowsOutside(rows, ids)[k] == rows[i];
  }

  lemma ReceivedOutside(rows: seq<Row>, ids: set<string>, requestID: string)
    requires !Received(rows, requestID)
    ensures !Received(RowsOutside(rows, ids), requestID)
  {
    var left := RowsOutside(rows, ids);
    forall k | 0 <= k < |left|
      ensures left[k].requestID != requestID
    {
      OutsideFrom(rows, ids, left[k]);
    }
  }

  /** Identifiers are distinct, so with the ticket's rows out the request's is gone. */
  lemma GoneOutside(m: Mailbox, ids: set<string>, requestID: string, ticketID: string)
    requires RowsDiffer(m) && Held(m.rows, requestID, ticketID) && ticketID in ids
    ensures !Received(RowsOutside(m.rows, ids), requestID)
  {
    var i :| 0 <= i < |m.rows| && m.rows[i].requestID == requestID && m.rows[i].ticketID == ticketID;
    var left := RowsOutside(m.rows, ids);
    forall k | 0 <= k < |left|
      ensures left[k].requestID != requestID
    {
      OutsideFrom(m.rows, ids, left[k]);
      var j :| 0 <= j < |m.rows| && m.rows[j] == left[k];
      assert j < i ==> m.rows[j].requestID != m.rows[i].requestID;
      assert i < j ==> m.rows[i].requestID != m.rows[j].requestID;
    }
  }

  /** While nothing takes the row out it stays, and nothing can store it a second time. */
  lemma HeldStep(c: Checks, w: World, step: Step, now: int, requestID: string, ticketID: string)
    requires Sound(c, w.mailbox) && Held(w.mailbox.rows, requestID, ticketID)
    ensures !StoresReply(c, w.mailbox, step, now, requestID)
    ensures var next := Next(c, w, step, now).mailbox;
            if TakesOut(c, w.mailbox, step, now, ticketID) then !Received(next.rows, requestID) else Held(next.rows, requestID, ticketID)
  {
    var m := w.mailbox;
    HeldIsReceived(m.rows, requestID, ticketID);
    RowsMove(c, m, step, now);
    hide VerifyRequest;
    hide Publish;
    hide Revoke;
    hide Land;
    match step
    case DoCollect(id, key) =>
      if Collect(c, m, id, key).1.Some? {
        if id == ticketID {
          GoneOutside(m, {m.tickets[id].ticketID}, requestID, ticketID);
        } else {
          HeldOutside(m.rows, {m.tickets[id].ticketID}, requestID, ticketID);
        }
      }
    case DoPurge =>
      if ticketID in Gone(m, now) {
        GoneOutside(m, Gone(m, now), requestID, ticketID);
      } else {
        HeldOutside(m.rows, Gone(m, now), requestID, ticketID);
      }
    case DoReply(r) => HeldGrows(m.rows, Reply(c, m, r, now).0.rows, requestID, ticketID);
    case _ =>
  }

  lemma HeldGrows(rows: seq<Row>, more: seq<Row>, requestID: string, ticketID: string)
    requires Held(rows, requestID, ticketID) && rows <= more
    ensures Held(more, requestID, ticketID)
  {
    var i :| 0 <= i < |rows| && rows[i].requestID == requestID && rows[i].ticketID == ticketID;
    assert more[i] == rows[i];
  }

  /** Once out, only storing it again brings the identifier back. */
  lemma OutStep(c: Checks, w: World, step: Step, now: int, requestID: string)
    requires Sound(c, w.mailbox) && !Received(w.mailbox.rows, requestID) && !StoresReply(c, w.mailbox, step, now, requestID)
    ensures !Received(Next(c, w, step, now).mailbox.rows, requestID)
  {
    var m := w.mailbox;
    RowsMove(c, m, step, now);
    hide VerifyRequest;
    hide Publish;
    hide Revoke;
    hide Land;
    match step
    case DoCollect(id, key) =>
      if Collect(c, m, id, key).1.Some? {
        ReceivedOutside(m.rows, {m.tickets[id].ticketID}, requestID);
      }
    case DoPurge => ReceivedOutside(m.rows, Gone(m, now), requestID);
    case DoReply(r) =>
    case _ =>
  }

  lemma {:induction false} OutRun(c: Checks, w: World, steps: seq<(Step, int)>, requestID: string)
    requires Sound(c, w.mailbox) && !Received(w.mailbox.rows, requestID) && !StoredAgain(c, w, steps, requestID)
    ensures !Received(Run(c, w, steps).mailbox.rows, requestID)
    decreases |steps|
  {
    if steps != [] {
      StepKeeps(c, w, steps[0].0, steps[0].1);
      OutStep(c, w, steps[0].0, steps[0].1, requestID);
      hide Next;
      hide Sound;
      hide Received;
      hide StoresReply;
      OutRun(c, Next(c, w, steps[0].0, steps[0].1), steps[1..], requestID);
    }
  }

  /** A stored reply's identifier stays received just until its ticket's rows are taken out. */
  lemma {:induction false} HeldRun(c: Checks, w: World, steps: seq<(Step, int)>, requestID: string, ticketID: string)
    requires Sound(c, w.mailbox) && Held(w.mailbox.rows, requestID, ticketID)
    ensures !TakenOut(c, w, steps, ticketID) ==>
              Received(Run(c, w, steps).mailbox.rows, requestID) && !StoredAgain(c, w, steps, requestID)
    ensures TakenOut(c, w, steps, ticketID) && !StoredAgain(c, w, steps, requestID) ==>
              !Received(Run(c, w, steps).mailbox.rows, requestID)
    decreases |steps|
  {
    if steps == [] {
      HeldIsReceived(w.mailbox.rows, requestID, ticketID);
    } else {
      var next := Next(c, w, steps[0].0, steps[0].1);
      StepKeeps(c, w, steps[0].0, steps[0].1);
      HeldStep(c, w, steps[0].0, steps[0].1, requestID, ticketID);
      hide Next;
      hide Sound;
      hide Received;
      hide Held;
      hide StoresReply;
      hide TakesOut;
      if TakesOut(c, w.mailbox, steps[0].0, steps[0].1, ticketID) {
        if !StoredAgain(c, next, steps[1..], requestID) {
          OutRun(c, next, steps[1..], requestID);
        }
      } else {
        HeldRun(c, next, steps[1..], requestID, ticketID);
      }
    }
  }

  /** The ticket is kept and active, the reply still verifies, and there is room for it. */
  predicate WouldTake(c: Checks, m: Mailbox, r: Request, now: int) {
    && r.ticketID in m.tickets
    && var entry := m.tickets[r.ticketID];
       && entry.revokedAt.None? && now <= entry.expiresAt
       && c.decodeToken(entry.ticketToken).Some? && VerifyRequest(c, r, c.decodeToken(entry.ticketToken).value, now) == ""
       && |RowsOf(m.rows, entry.ticketID)| < entry.limit
  }

  lemma StoresIff(c: Checks, m: Mailbox, r: Request, now: int)
    ensures Reply(c, m, r, now).2.Some? <==> WouldTake(c, m, r, now) && !Received(m.rows, r.requestID)
    ensures Reply(c, m, r, now).2.Some? && Sound(c, m) ==> Held(Reply(c, m, r, now).0.rows, r.requestID, r.ticketID)
  {
    hide VerifyRequest;
    if Reply(c, m, r, now).2.Some? {
      var rows := Reply(c, m, r, now).0.rows;
      assert rows[|rows| - 1].requestID == r.requestID && rows[|rows| - 1].ticketID == m.tickets[r.ticketID].ticketID;
    }
  }

  /**
   * A stored reply is stored again, at some step of a run or at its end, exactly when a collect with its
   * ticket's own key or the ticket's purge went through since. The end asks only that the ticket would take it.
   */
  lemma TakenAgainIff(c: Checks, w: World, r: Request, when: int, steps: seq<(Step, int)>, now: int)
    requires Sound(c, w.mailbox) && Reply(c, w.mailbox, r, when).2.Some?
    requires var stored := Next(c, w, DoReply(r), when);
             Sound(c, stored.mailbox) ==> WouldTake(c, Run(c, stored, steps).mailbox, r, now)
    ensures var stored := Next(c, w, DoReply(r), when);
            && Sound(c, stored.mailbox)
            && var end := Run(c, stored, steps).mailbox;
               && (StoredAgain(c, stored, steps, r.requestID) || Reply(c, end, r, now).2.Some? <==> TakenOut(c, stored, steps, r.ticketID))
               && (!StoredAgain(c, stored, steps, r.requestID) ==>
                     (Received(end.rows, r.requestID) <==> !TakenOut(c, stored, steps, r.ticketID)))
  {
    var stored := Next(c, w, DoReply(r), when);
    StepKeeps(c, w, DoReply(r), when);
    StoresIff(c, w.mailbox, r, when);
    HeldRun(c, stored, steps, r.requestID, r.ticketID);
    StoresIff(c, Run(c, stored, steps).mailbox, r, now);
    hide Sound;
    hide Run;
    hide Reply;
    hide WouldTake;
    hide TakenOut;
    hide StoredAgain;
    hide Received;
    hide Held;
  }

  /** Receipt is remembered only as long as the row: once collected, the very same reply is taken again. */
  lemma CollectedTakenAgain(c: Checks, m: Mailbox, r: Request, now: int, statusKey: string)
    requires Sound(c, m) && Reply(c, m, r, now).2.Some? && c.digest(statusKey) == m.tickets[r.ticketID].statusKeyDigest
    ensures var stored := Reply(c, m, r, now);
            Reply(c, Collect(c, stored.0, r.ticketID, statusKey).0, r, now).2 == stored.2
  {
    hide VerifyRequest;
    hide EntriesTrue;
    hide WithinLimits;
    hide Sound;
    var (after, _, row) := Reply(c, m, r, now);
    var id := m.tickets[r.ticketID].ticketID;
    NothingLeft(m.rows + [row.value], id, row.value);
    assert m.tickets[r.ticketID].limit >= 1 by {
      LimitsPositive(c, m, r.ticketID);
    }
    hide RowsInside;
    hide RowsOutside;
    hide RowsOf;
  }

  lemma LimitsPositive(c: Checks, m: Mailbox, id: string)
    requires Sound(c, m) && id in m.tickets
    ensures m.tickets[id].limit >= 1
  {
  }

  /** With the ticket's rows out, neither its count nor the reply's identifier is left. */
  lemma NothingLeft(rows: seq<Row>, id: string, last: Row)
    requires rows != [] && rows[|rows| - 1] == last && last.ticketID == id
    requires !Received(rows[..|rows| - 1], last.requestID)
    ensures RowsOf(RowsOutside(rows, {id}), id) == [] && !Received(RowsOutside(rows, {id}), last.requestID)
  {
    OutsideCounts(rows, {id}, id);
    var left := RowsOutside(rows, {id});
    hide RowsOutside;
    hide RowsOf;
    forall i | 0 <= i < |left|
      ensures left[i].requestID != last.requestID
    {
      OutsideFrom(rows, {id}, left[i]);
      var k :| 0 <= k < |rows| && rows[k] == left[i];
      assert rows[..|rows| - 1][k] == rows[k];
    }
  }

  // ---- A revoked ticket stays invalid ----

  /** Still kept as revoked, or past its time: the two ways a ticket is never valid again. */
  predicate Dead(m: Mailbox, t: Ticket, now: int) {
    || t.IsExpired(now)
    || (t.ticketID in m.tickets && m.tickets[t.ticketID].revokedAt.Some? && m.tickets[t.ticketID].expiresAt == t.expiresAt * SECOND)
  }

  /** A revocation that goes through makes the ticket its notice names dead. */
  lemma RevokedIsDead(c: Checks, m: Mailbox, n: Notice, now: int)
    requires Sound(c, m) && Revoke(c, m, n, now).1 == "ok"
    requires VerifiedNotice(c, m, n)
    ensures Dead(Revoke(c, m, n, now).0, c.decodeToken(m.tickets[n.ticketID].ticketToken).value, now)
  {
  }

  predicate VerifiedNotice(c: Checks, m: Mailbox, n: Notice) {
    && n.ticketID in m.tickets && c.decodeToken(m.tickets[n.ticketID].ticketToken).Some?
    && VerifyNotice(c, n, c.decodeToken(m.tickets[n.ticketID].ticketToken).value) == ""
  }

  lemma StepStaysDead(c: Checks, w: World, t: Ticket, step: Step, before: int, now: int)
    requires Sound(c, w.mailbox) && Dead(w.mailbox, t, before) && before <= now
    ensures Dead(Next(c, w, step, now).mailbox, t, now)
  {
    hide VerifyRequest;
    hide VerifyPublication;
    hide VerifyNotice;
    hide VerifyTicket;
    hide Resolve;
    hide RowsOf;
    hide RowsOutside;
    hide RowsInside;
    hide Received;
    hide CodeTaken;
  }

  /** What Landing calls valid is not dead: not expired, and not the entry of a revoked ticket. */
  lemma ValidIsAlive(c: Checks, m: Mailbox, raw: string, now: int)
    requires Sound(c, m) && Land(c, m, raw, now).1.Valid?
    ensures !Dead(m, Land(c, m, raw, now).1.ticket, now)
  {
    var (t, id) := Resolve(c, m, c.trim(raw)).value;
    ResolvedEntry(c, m, c.trim(raw));
    hide Resolve;
    hide Sound;
    SoundCodes(c, m);
    ValidVerdict(c, t, now, t.ticketID in m.tickets && m.tickets[t.ticketID].revokedAt.Some?);
    hide VerifyTicket;
  }

  lemma ResolvedEntry(c: Checks, m: Mailbox, raw: string)
    requires Sound(c, m) && Resolve(c, m, raw).Ok?
    ensures var (t, id) := Resolve(c, m, raw).value; id == if t.ticketID in m.tickets then Some(t.ticketID) else None
  {
    hide RowsOf;
  }

  lemma ValidVerdict(c: Checks, t: Ticket, now: int, revoked: bool)
    ensures VerifyTicket(c, t, now, revoked) == "valid" ==> !revoked && !t.IsExpired(now)
  {
    CodesNotValid(c.ticketProof(t));
    hide Fault.Code;
  }

  lemma CodesNotValid(f: Option<Fault>)
    ensures f.Some? ==> f.value.Code() != "valid"
    ensures "revoked" != "valid" && "expired" != "valid" && "ttl_too_long" != "valid"
  {
    assert "revoked"[0] != "valid"[0] && "expired"[0] != "valid"[0];
  }

  /** The clock never goes back, from a first reading on. */
  predicate Forward(steps: seq<(Step, int)>, from: int) {
    && (steps != [] ==> from <= steps[0].1)
    && forall i, j :: 0 <= i < j < |steps| ==> steps[i].1 <= steps[j].1
  }

  lemma {:induction false} RunStaysDead(c: Checks, w: World, t: Ticket, steps: seq<(Step, int)>, from: int)
    requires Sound(c, w.mailbox) && Dead(w.mailbox, t, from) && Forward(steps, from)
    ensures Dead(Run(c, w, steps).mailbox, t, if steps == [] then from else steps[|steps| - 1].1)
    decreases |steps|
  {
    if steps != [] {
      StepStaysDead(c, w, t, steps[0].0, from, steps[0].1);
      StepKeeps(c, w, steps[0].0, steps[0].1);
      var next := Next(c, w, steps[0].0, steps[0].1);
      hide Next;
      hide Dead;
      hide Sound;
      assert Forward(steps[1..], steps[0].1);
      RunStaysDead(c, next, t, steps[1..], steps[0].1);
    }
  }

  /**
   * Once a published ticket is revoked, no link or code ever gets it answered as valid again, though purging
   * forgets it and other tickets may take its identifier.
   */
  lemma RevokedNeverValid(c: Checks, w: World, n: Notice, when: int, steps: seq<(Step, int)>, raw: string, now: int)
    requires Sound(c, w.mailbox) && VerifiedNotice(c, w.mailbox, n)
    requires Forward(steps, when) && (if steps == [] then when else steps[|steps| - 1].1) <= now
    ensures var t := c.decodeToken(w.mailbox.tickets[n.ticketID].ticketToken).value;
            var revoked := Next(c, w, DoRevoke(n), when);
            && Sound(c, revoked.mailbox)
            && var answer := Land(c, Run(c, revoked, steps).mailbox, raw, now).1;
               answer.Valid? ==> answer.ticket != t
  {
    var t := c.decodeToken(w.mailbox.tickets[n.ticketID].ticketToken).value;
    var revoked := Next(c, w, DoRevoke(n), when);
    StepKeeps(c, w, DoRevoke(n), when);
    RevokedIsDead(c, w.mailbox, n, when);
    RunStaysDead(c, revoked, t, steps, when);
    var end := Run(c, revoked, steps);
    hide Next;
    hide Run;
    hide Sound;
    SoundCodes(c, end.mailbox);
    if Land(c, end.mailbox, raw, now).1.Valid? {
      ValidIsAlive(c, end.mailbox, raw, now);
    }
    hide Land;
  }

  // ---- The class ----

  class InviteLanding {
    const checks: Checks
    var tickets: map<string, Entry>
    var rows: seq<Row>

    function View(): Mailbox
      reads this
    {
      Mailbox(tickets, rows)
    }

    ghost predicate Valid()
      reads this
    {
      Sound(checks, View())
    }

    constructor (checks: Checks)
      ensures Valid() && View() == EMPTY && this.checks == checks
    {
      this.checks := checks;
      tickets, rows := map[], [];
    }

    /** The entries are walked in any order; at most one has the code. */
    method FindCode(code: string) returns (id: Option<string>)
      requires CodesDiffer(View())
      ensures id == ByCode(View(), code)
    {
      var left := tickets.Keys;
      while left != {}
        invariant left <= tickets.Keys
        invariant forall k :: k in tickets && k !in left ==> tickets[k].humanCode != code
      {
        var k :| k in left;
        if tickets[k].humanCode == code {
          return Some(k);
        }
        left := left - {k};
      }
      return None;
    }

    method CountOpening(id: string, now: int)
      requires id in tickets
      modifies this`tickets
      ensures View() == Opened(old(View()), id, now)
    {
      var entry := tickets[id];
      entry := entry.(openCount := entry.openCount + 1);
      if entry.firstOpenedAt.None? {
        entry := entry.(firstOpenedAt := Some(now));
      }
      tickets := tickets[id := entry];
    }

    method Visit(given: string, now: int) returns (answer: Answer)
      requires Valid()
      modifies this`tickets
      ensures CodesDiffer(old(View())) && (View(), answer) == Land(checks, old(View()), given, now) && Valid()
    {
      LandKeeps(checks, View(), given, now);
      SoundCodes(checks, View());
      hide Sound;
      hide VerifyTicket;
      var raw := checks.trim(given);
      if raw == "" || |Text.Utf8(raw)| > 4096 {
        return NotFound;
      }
      var id, ticket := None, None;
      if checks.looksLikeCode(raw) {
        id := FindCode(checks.upper(raw));
        if id.Some? {
          ticket := checks.decodeToken(tickets[id.value].ticketToken);
        }
        if ticket.None? {
          return Unavailable;
        }
      } else {
        ticket := checks.decodeToken(raw);
        if ticket.None? {
          return Malformed;
        }
        if ticket.value.ticketID in tickets {
          id := Some(ticket.value.ticketID);
        }
      }
      assert Resolve(checks, View(), raw) == Ok((ticket.value, id));
      hide Resolve;
      var revoked := id.Some? && tickets[id.value].revokedAt.Some?;
      var verdict := VerifyTicket(checks, ticket.value, now, revoked);
      if verdict != "valid" {
        return if checks.looksLikeCode(raw) then Unavailable else Refused(verdict);
      }
      if id.Some? {
        CountOpening(id.value, now);
      }
      return Answer.Valid(ticket.value, id.Some?);
    }

    method Purge(now: int) returns (gone: set<string>, purged: seq<Row>)
      modifies this
      ensures (View(), purged) == PurgeExpired(old(View()), now) && gone == Gone(old(View()), now)
    {
      gone := {};
      ghost var before := View();
      var left := tickets.Keys;
      while left != {}
        invariant left <= before.tickets.Keys && gone == Gone(before, now) - left
        invariant tickets == before.tickets - gone && rows == before.rows
      {
        var id :| id in left;
        if tickets[id].expiresAt < now - GRACE {
          gone := gone + {id};
          tickets := tickets - {id};
        }
        left := left - {id};
      }
      assert gone == Gone(before, now);
      purged := SplitRows(gone);
    }

    /** Keeps the rows outside these tickets, in order, and hands out the rest. */
    method SplitRows(ids: set<string>) returns (out: seq<Row>)
      modifies this`rows
      ensures rows == RowsOutside(old(rows), ids) && out == RowsInside(old(rows), ids)
    {
      out := [];
      var kept := [];
      for i := 0 to |rows|
        invariant kept == RowsOutside(rows[..i], ids) && out == RowsInside(rows[..i], ids)
      {
        assert rows[..i + 1][..i] == rows[..i];
        if rows[i].ticketID in ids {
          out := out + [rows[i]];
        } else {
          kept := kept + [rows[i]];
        }
      }
      assert rows[..|rows|] == rows;
      rows := kept;
    }

    method CollectRows(ticketID: string, statusKey: string) returns (out: Option<seq<Row>>)
      modifies this`rows
      ensures (View(), out) == Collect(checks, old(View()), ticketID, statusKey)
    {
      if ticketID !in tickets || checks.digest(statusKey) != tickets[ticketID].statusKeyDigest {
        return None;
      }
      var taken := SplitRows({tickets[ticketID].ticketID});
      return Some(taken);
    }

    method CountRows(id: string) returns (n: nat)
      ensures n == |RowsOf(rows, id)|
    {
      n := 0;
      for i := 0 to |rows|
        invariant n == |RowsOf(rows[..i], id)|
      {
        assert rows[..i + 1][..i] == rows[..i];
        if rows[i].ticketID == id {
          n := n + 1;
        }
      }
      assert rows[..|rows|] == rows;
    }

    method PublishTicket(p: Publication, now: int) returns (code: string)
      requires Valid()
      modifies this`tickets
      ensures (View(), code) == Publish(checks, old(View()), p, now) && Valid()
    {
      PublishKeeps(checks, View(), p, now);
      hide Sound;
      hide VerifyPublication;
      SoundCodes(checks, View());
      var verified := VerifyPublication(checks, p, now);
      if verified.Err? {
        return verified.code;
      }
      if verified.value.IsExpired(now) {
        return "expired";
      }
      if p.ticketID in tickets {
        return if tickets[p.ticketID].ticketToken != p.ticketToken then "already_published" else "ok";
      }
      var holder := FindCode(p.humanCode);
      if holder.Some? {
        return "code_taken";
      }
      var limit := p.maxContactRequests;
      if limit < 1 {
        limit := 1;
      }
      if limit > 20 {
        limit := 20;
      }
      tickets := tickets[p.ticketID := Entry(p.ticketID, p.humanCode, p.ticketToken, checks.digest(p.statusKey), verified.value.expiresAt * SECOND,
                                             limit, 0, None, None, None, None, "")];
      return "ok";
    }

    method RevokeTicket(n: Notice, now: int) returns (code: string)
      requires Valid()
      modifies this`tickets
      ensures (View(), code) == Revoke(checks, old(View()), n, now) && Valid()
    {
      RevokeKeeps(checks, View(), n, now);
      hide Sound;
      hide VerifyNotice;
      if n.ticketID !in tickets {
        return "not_found";
      }
      var entry := tickets[n.ticketID];
      var ticket := checks.decodeToken(entry.ticketToken);
      if ticket.None? {
        return "bad_request";
      }
      var verdict := VerifyNotice(checks, n, ticket.value);
      if verdict != "" {
        return verdict;
      }
      tickets := tickets[n.ticketID := entry.(revokedAt := Some(now), reason := Clip(n.reason, 240))];
      return "ok";
    }

    method TakeReply(r: Request, now: int) returns (code: string, stored: Option<Row>)
      requires Valid()
      modifies this
      ensures (View(), code, stored) == Reply(checks, old(View()), r, now) && Valid()
    {
      ReplyKeeps(checks, View(), r, now);
      hide Sound;
      hide VerifyRequest;
      if r.ticketID !in tickets {
        return "not_found", None;
      }
      var entry := tickets[r.ticketID];
      if entry.revokedAt.Some? || now > entry.expiresAt {
        return "not_active", None;
      }
      var ticket := checks.decodeToken(entry.ticketToken);
      if ticket.None? {
        return "bad_request", None;
      }
      var verdict := VerifyRequest(checks, r, ticket.value, now);
      if verdict != "" {
        return verdict, None;
      }
      var count := CountRows(entry.ticketID);
      if count >= entry.limit {
        return "inbox_full", None;
      }
      for i := 0 to |rows|
        invariant forall k :: 0 <= k < i ==> rows[k].requestID != r.requestID
      {
        if rows[i].requestID == r.requestID {
          return "ok", None;
        }
      }
      var row := Row(r.requestID, entry.ticketID, r, Clip(r.senderName, 120));
      rows := rows + [row];
      tickets := tickets[r.ticketID := entry.(respondedAt := Some(now), entityRef := r.senderEntityRef)];
      return "ok", Some(row);
    }
  }
}
