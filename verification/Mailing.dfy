/** What each request to the landing needs, in the fields it names, and what it leaves behind. */
module Mailing {
  import opened Prelude
  import opened Landing
  import Text

  /** The ticket the entry was published with, as its token decodes. */
  function Published(c: Checks, entry: Entry): Option<Ticket> {
    c.decodeToken(entry.ticketToken)
  }

  // ---- Replies ----

  /** A reply to this ticket, sent to its contact by someone else, signed and in time. */
  predicate Answers(c: Checks, r: Request, t: Ticket, now: int) {
    && r.ticketID == t.ticketID && t.contactEndpoint == Some(r.issuerEndpoint) && r.senderUUID != t.issuerUUID
    && now <= r.expiresAt * 1_000_000_000 && now <= t.expiresAt * 1_000_000_000
    && c.requestProof(r) == ""
  }

  /** The ticket is kept, neither revoked nor past, and its inbox not full. */
  predicate Open(m: Mailbox, id: string, now: int) {
    && id in m.tickets && m.tickets[id].revokedAt.None? && now <= m.tickets[id].expiresAt
    && |RowsOf(m.rows, m.tickets[id].ticketID)| < m.tickets[id].limit
  }

  /** A reply is stored exactly when its ticket is open to it, its proof holds and it has not been received before. */
  lemma StoredIff(c: Checks, m: Mailbox, r: Request, now: int)
    ensures var (next, answer, row) := Reply(c, m, r, now);
            && (row.Some? <==>
                  && Open(m, r.ticketID, now) && Published(c, m.tickets[r.ticketID]).Some?
                  && Answers(c, r, Published(c, m.tickets[r.ticketID]).value, now)
                  && forall i :: 0 <= i < |m.rows| ==> m.rows[i].requestID != r.requestID)
            && (row.None? ==> next == m)
            && (row.Some? ==>
                  && answer == "ok" && next.rows == m.rows + [row.value]
                  && next.tickets == m.tickets[r.ticketID := m.tickets[r.ticketID].(respondedAt := Some(now), entityRef := r.senderEntityRef)]
                  && row.value.requestID == r.requestID && row.value.ticketID == m.tickets[r.ticketID].ticketID
                  && row.value.request == r && row.value.senderName == if |r.senderName| > 120 then r.senderName[..120] else r.senderName)
  {
    hide RowsOf;
  }

  // ---- Publishing and revoking ----

  /** The publication matches its own ticket, which is sound, lasts, is not for longer than 90 days, and both are signed. */
  predicate Vouched(c: Checks, p: Publication, t: Ticket, now: int) {
    && c.ticketProof(t).None? && c.publicationProof(p, t) == ""
    && now <= t.expiresAt * 1_000_000_000 && t.expiresAt <= t.createdAt + 7_776_000
    && p.ticketID == t.ticketID && p.humanCode == t.humanCode && p.audienceToken == t.audienceToken
    && p.expiresAt == t.expiresAt && p.issuerUUID == t.issuerUUID
  }

  /** A ticket is entered exactly when vouched for, under an identifier and a code nobody has, for one to twenty replies. */
  lemma PublishedIff(c: Checks, m: Mailbox, p: Publication, now: int)
    ensures var (next, answer) := Publish(c, m, p, now);
            var t := c.decodeToken(p.ticketToken);
            && (next != m <==>
                  && t.Some? && Vouched(c, p, t.value, now) && p.ticketID !in m.tickets
                  && forall id :: id in m.tickets ==> m.tickets[id].humanCode != p.humanCode)
            && (next != m ==>
                  && answer == "ok" && next.rows == m.rows
                  && next.tickets == m.tickets[p.ticketID := Entry(
                       p.ticketID, p.humanCode, p.ticketToken, c.digest(p.statusKey), t.value.expiresAt * 1_000_000_000,
                       if p.maxContactRequests < 1 then 1 else if p.maxContactRequests > 20 then 20 else p.maxContactRequests,
                       0, None, None, None, None, "")])
  {
    if t: Ticket :| c.decodeToken(p.ticketToken) == Some(t) {
      VouchedIff(c, p, t, now);
    }
    hide VerifyPublication;
    var (next, answer) := Publish(c, m, p, now);
    if next != m {
      assert p.ticketID !in m.tickets;
    } else if p.ticketID !in m.tickets {
      assert next.tickets == m.tickets;
    }
  }

  lemma VouchedIff(c: Checks, p: Publication, t: Ticket, now: int)
    requires c.decodeToken(p.ticketToken) == Some(t)
    ensures VerifyPublication(c, p, now).Ok? <==> Vouched(c, p, t, now)
    ensures Vouched(c, p, t, now) ==> VerifyPublication(c, p, now) == Ok(t)
  {
  }

  /** The notice is of this ticket, from its issuer, and signed. */
  predicate Withdraws(c: Checks, n: Notice, t: Ticket) {
    n.ticketID == t.ticketID && n.issuerUUID == t.issuerUUID && c.noticeProof(n, t) == ""
  }

  lemma RevokedIff(c: Checks, m: Mailbox, n: Notice, now: int)
    ensures var (next, answer) := Revoke(c, m, n, now);
            if n.ticketID in m.tickets && Published(c, m.tickets[n.ticketID]).Some? && Withdraws(c, n, Published(c, m.tickets[n.ticketID]).value) then
              && answer == "ok" && next.rows == m.rows
              && next.tickets == m.tickets[n.ticketID := m.tickets[n.ticketID].(
                   revokedAt := Some(now), reason := if |n.reason| > 240 then n.reason[..240] else n.reason)]
            else next == m
  {
  }

  // ---- Collecting and purging ----

  lemma {:induction false} OutsideConcat(a: seq<Row>, b: seq<Row>, ids: set<string>)
    ensures RowsOutside(a + b, ids) == RowsOutside(a, ids) + RowsOutside(b, ids)
    decreases |b|
  {
    if b == [] {
      assert a + b == a;
    } else {
      OutsideConcat(a, b[..|b| - 1], ids);
      assert (a + b)[..|a + b| - 1] == a + b[..|b| - 1];
    }
  }

  lemma {:induction false} InsideConcat(a: seq<Row>, b: seq<Row>, ids: set<string>)
    ensures RowsInside(a + b, ids) == RowsInside(a, ids) + RowsInside(b, ids)
    decreases |b|
  {
    if b == [] {
      assert a + b == a;
    } else {
      InsideConcat(a, b[..|b| - 1], ids);
      assert (a + b)[..|a + b| - 1] == a + b[..|b| - 1];
    }
  }

  lemma PartedAt(before: seq<Row>, row: Row, after: seq<Row>, ids: set<string>)
    ensures var rows := before + [row] + after;
            && RowsOutside(rows, ids) == RowsOutside(before, ids) + (if row.ticketID in ids then [] else [row]) + RowsOutside(after, ids)
            && RowsInside(rows, ids) == RowsInside(before, ids) + (if row.ticketID in ids then [row] else []) + RowsInside(after, ids)
  {
    OutsideConcat(before + [row], after, ids);
    OutsideConcat(before, [row], ids);
    InsideConcat(before + [row], after, ids);
    InsideConcat(before, [row], ids);
    assert [row][..0] == [];
  }

  /** Row by row, in order: a ticket's rows go to whoever shows the key whose digest was published, and only they; others stay. */
  lemma CollectedIff(c: Checks, m: Mailbox, id: string, statusKey: string, before: seq<Row>, row: Row, after: seq<Row>)
    requires m.rows == before + [row] + after && (id in m.tickets ==> m.tickets[id].ticketID == id)
    ensures var (next, rows) := Collect(c, m, id, statusKey);
            && next.tickets == m.tickets
            && (rows.Some? <==> id in m.tickets && c.digest(statusKey) == m.tickets[id].statusKeyDigest)
            && (rows.None? ==> next == m)
            && (rows.Some? ==>
                  && next.rows == RowsOutside(before, {id}) + (if row.ticketID == id then [] else [row]) + RowsOutside(after, {id})
                  && rows.value == RowsInside(before, {id}) + (if row.ticketID == id then [row] else []) + RowsInside(after, {id}))
  {
    PartedAt(before, row, after, {id});
    hide RowsOutside;
    hide RowsInside;
  }

  /** A ticket goes a day after it has run out, and its rows go with it; the rest stay in order. */
  lemma PurgedIs(m: Mailbox, now: int, before: seq<Row>, row: Row, after: seq<Row>)
    requires m.rows == before + [row] + after
    ensures var (next, rows) := PurgeExpired(m, now);
            var gone := set id | id in m.tickets && m.tickets[id].expiresAt + 86_400_000_000_000 < now;
            && (forall id :: id in next.tickets <==> id in m.tickets && id !in gone)
            && (forall id :: id in next.tickets ==> next.tickets[id] == m.tickets[id])
            && next.rows == RowsOutside(before, gone) + (if row.ticketID in gone then [] else [row]) + RowsOutside(after, gone)
            && rows == RowsInside(before, gone) + (if row.ticketID in gone then [row] else []) + RowsInside(after, gone)
  {
    var gone := set id | id in m.tickets && m.tickets[id].expiresAt + 86_400_000_000_000 < now;
    assert Gone(m, now) == gone;
    PartedAt(before, row, after, gone);
    hide RowsOutside;
    hide RowsInside;
  }

  // ---- Visiting ----

  /** The ticket a visitor's link or code leads to, and the entry kept for it, if there is one. */
  predicate LeadsTo(c: Checks, m: Mailbox, raw: string, t: Ticket, id: Option<string>) {
    if c.looksLikeCode(raw) then
      && id.Some? && id.value in m.tickets && m.tickets[id.value].humanCode == c.upper(raw)
      && c.decodeToken(m.tickets[id.value].ticketToken) == Some(t)
    else
      c.decodeToken(raw) == Some(t) && id == if t.ticketID in m.tickets then Some(t.ticketID) else None
  }

  /** Its proof holds, it was made for no more than 90 days, is not revoked, and has not run out. */
  predicate Usable(c: Checks, m: Mailbox, t: Ticket, id: Option<string>, now: int) {
    && c.ticketProof(t).None? && t.expiresAt - t.createdAt <= 7_776_000
    && (id.Some? && id.value in m.tickets ==> m.tickets[id.value].revokedAt.None?)
    && now <= t.expiresAt * 1_000_000_000
  }

  ghost predicate Welcomed(c: Checks, m: Mailbox, given: string, now: int, t: Ticket, id: Option<string>) {
    && c.trim(given) != "" && |Text.Utf8(c.trim(given))| <= 4096
    && LeadsTo(c, m, c.trim(given), t, id) && Usable(c, m, t, id, now)
  }

  /** A visitor is shown a ticket as valid exactly when the link or code leads to a usable one, and only such a visit is counted. */
  lemma ShownIff(c: Checks, m: Mailbox, given: string, now: int)
    requires CodesDiffer(m)
    ensures var (next, answer) := Land(c, m, given, now);
            && (answer.Valid? <==> exists t, id :: Welcomed(c, m, given, now, t, id))
            && (!answer.Valid? ==> next == m)
            && (answer.Valid? ==>
                  exists id ::
                    && Welcomed(c, m, given, now, answer.ticket, id) && answer.published == id.Some?
                    && next.rows == m.rows
                    && next.tickets ==
                       if id.None? || id.value !in m.tickets then m.tickets
                       else m.tickets[id.value := m.tickets[id.value].(
                         openCount := m.tickets[id.value].openCount + 1,
                         firstOpenedAt := if m.tickets[id.value].firstOpenedAt.Some? then m.tickets[id.value].firstOpenedAt else Some(now))])
  {
    hide Text.Utf8;
    var raw := c.trim(given);
    forall t, id
      ensures LeadsTo(c, m, raw, t, id) <==> Resolve(c, m, raw) == Ok((t, id))
    {
      LeadsIff(c, m, raw, t, id);
    }
    hide LeadsTo;
    hide Resolve;
    if raw != "" && |Text.Utf8(raw)| <= 4096 && Resolve(c, m, raw).Ok? {
      var (t, id) := Resolve(c, m, raw).value;
      assert Welcomed(c, m, given, now, t, id) <==> Land(c, m, given, now).1.Valid?;
    }
  }

  lemma LeadsIff(c: Checks, m: Mailbox, raw: string, t: Ticket, id: Option<string>)
    requires CodesDiffer(m)
    ensures LeadsTo(c, m, raw, t, id) <==> Resolve(c, m, raw) == Ok((t, id))
  {
    hide ByCode;
    var code := c.upper(raw);
    if id.Some? && id.value in m.tickets && m.tickets[id.value].humanCode == code {
      assert CodeTaken(m, code);
    }
  }
}
