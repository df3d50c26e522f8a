/** The replay store for signing challenges: pruned as it goes, yet it answers as one that never forgets. */
module Replay {
  import opened Prelude
  import opened ChannelCodec
  import Base64

  const MAXIMUM_REPLAYS := 4096

  function Joined(parts: seq<string>): string {
    if parts == [] then "" else if |parts| == 1 then parts[0] else parts[0] + "\U{1F}" + Joined(parts[1..])
  }

  function ReplayKey(c: Challenge): string {
    var fingerprint := if c.fingerprint.Some? then c.fingerprint.value else "";
    Joined([c.identityUUID, fingerprint, c.domain, c.resource, c.action, c.audience, Base64.Encode(c.nonce)])
  }

  /** Keys consumed, each with the time its challenge expires. */
  type Store = map<string, int>

  function Pruned(s: Store, now: int): Store {
    map key | key in s && s[key] >= now :: s[key]
  }

  function Consume(s: Store, key: string, expiresAt: int, now: int): (Store, Result<()>) {
    var kept := Pruned(s, now);
    if key in kept then (kept, Err("replay denied"))
    else if |kept| >= MAXIMUM_REPLAYS then (kept, Err("replay store is full"))
    else (kept[key := expiresAt], Ok(()))
  }

  // ---- What a key tells apart ----

  const SEPARATOR := '\U{1F}'

  predicate Unseparated(parts: seq<string>) {
    forall i :: 0 <= i < |parts| ==> SEPARATOR !in parts[i]
  }

  lemma {:induction false} FirstSame(a: string, b: string, x: string, y: string)
    requires SEPARATOR !in a && SEPARATOR !in b
    requires x == "" || x[0] == SEPARATOR
    requires y == "" || y[0] == SEPARATOR
    requires a + x == b + y
    ensures a == b && x == y
    decreases |a|
  {
    assert (a == "" ==> a + x == x) && (a != "" ==> (a + x)[0] == a[0]);
    assert (b == "" ==> b + y == y) && (b != "" ==> (b + y)[0] == b[0]);
    if a != "" && b != "" {
      assert (a + x)[1..] == a[1..] + x && (b + y)[1..] == b[1..] + y;
      FirstSame(a[1..], b[1..], x, y);
      assert a == [a[0]] + a[1..] && b == [b[0]] + b[1..];
    }
  }

  lemma {:induction false} JoinedApart(ps: seq<string>, qs: seq<string>)
    requires |ps| == |qs| && Unseparated(ps) && Unseparated(qs) && Joined(ps) == Joined(qs)
    ensures ps == qs
    decreases |ps|
  {
    if |ps| == 1 {
      assert ps == [ps[0]] && qs == [qs[0]];
    } else if |ps| > 1 {
      var x, y := "\U{1F}" + Joined(ps[1..]), "\U{1F}" + Joined(qs[1..]);
      assert Joined(ps) == ps[0] + x && Joined(qs) == qs[0] + y;
      FirstSame(ps[0], qs[0], x, y);
      assert x[1..] == Joined(ps[1..]) && y[1..] == Joined(qs[1..]);
      JoinedApart(ps[1..], qs[1..]);
      assert ps == [ps[0]] + ps[1..] && qs == [qs[0]] + qs[1..];
    }
  }

  function MarkOf(c: Challenge): string {
    if c.fingerprint.Some? then c.fingerprint.value else ""
  }

  predicate PlainTexts(c: Challenge) {
    Unseparated([c.identityUUID, MarkOf(c), c.domain, c.resource, c.action, c.audience])
  }

  /** Where no text holds the separator, a key stands for exactly one identity, fingerprint, scope and nonce. */
  lemma KeyIff(c: Challenge, d: Challenge)
    requires PlainTexts(c) && PlainTexts(d)
    ensures ReplayKey(c) == ReplayKey(d) <==>
              && c.identityUUID == d.identityUUID && MarkOf(c) == MarkOf(d) && c.domain == d.domain && c.resource == d.resource
              && c.action == d.action && c.audience == d.audience && c.nonce == d.nonce
  {
    var ps := [c.identityUUID, MarkOf(c), c.domain, c.resource, c.action, c.audience, Base64.Encode(c.nonce)];
    var qs := [d.identityUUID, MarkOf(d), d.domain, d.resource, d.action, d.audience, Base64.Encode(d.nonce)];
    NoncePlain(c.nonce);
    NoncePlain(d.nonce);
    PlainSeven(c, ps);
    PlainSeven(d, qs);
    hide Joined;
    hide Unseparated;
    if ReplayKey(c) == ReplayKey(d) {
      JoinedApart(ps, qs);
      assert ps[6] == qs[6];
      Base64.DecodeEncoded(c.nonce);
      Base64.DecodeEncoded(d.nonce);
    }
  }

  lemma PlainSeven(c: Challenge, ps: seq<string>)
    requires PlainTexts(c) && SEPARATOR !in Base64.Encode(c.nonce)
    requires ps == [c.identityUUID, MarkOf(c), c.domain, c.resource, c.action, c.audience, Base64.Encode(c.nonce)]
    ensures Unseparated(ps)
  {
    hide Base64.Encode;
    var six := [c.identityUUID, MarkOf(c), c.domain, c.resource, c.action, c.audience];
    assert forall i :: 0 <= i < 6 ==> ps[i] == six[i];
  }

  lemma {:induction false} NoncePlain(d: Bytes)
    ensures SEPARATOR !in Base64.Encode(d)
  {
    if |d| >= 3 {
      NoncePlain(d[3..]);
    }
  }

  /** A separator inside a text lets two scopes share a key. */
  lemma SeparatorShares(c: Challenge)
    ensures ReplayKey(c.(domain := "a\U{1F}b", resource := "c")) == ReplayKey(c.(domain := "a", resource := "b\U{1F}c"))
  {
    var tail := [c.action, c.audience, Base64.Encode(c.nonce)];
    var d, e := c.(domain := "a\U{1F}b", resource := "c"), c.(domain := "a", resource := "b\U{1F}c");
    assert JoinedFour("a\U{1F}b", "c", tail) == JoinedFour("a", "b\U{1F}c", tail);
    JoinedHead([c.identityUUID, MarkOf(c)], "a\U{1F}b", "c", tail);
    JoinedHead([c.identityUUID, MarkOf(c)], "a", "b\U{1F}c", tail);
    hide Joined;
    hide Base64.Encode;
    assert [d.identityUUID, MarkOf(d), d.domain, d.resource, d.action, d.audience, Base64.Encode(d.nonce)]
        == [c.identityUUID, MarkOf(c)] + ([d.domain, d.resource] + tail);
    assert [e.identityUUID, MarkOf(e), e.domain, e.resource, e.action, e.audience, Base64.Encode(e.nonce)]
        == [c.identityUUID, MarkOf(c)] + ([e.domain, e.resource] + tail);
  }

  function JoinedFour(x: string, y: string, tail: seq<string>): string {
    x + "\U{1F}" + y + "\U{1F}" + Joined(tail)
  }

  lemma JoinedHead(head: seq<string>, x: string, y: string, tail: seq<string>)
    requires |head| == 2 && tail != []
    ensures Joined(head + ([x, y] + tail)) == head[0] + "\U{1F}" + (head[1] + "\U{1F}" + JoinedFour(x, y, tail))
  {
    var all := head + ([x, y] + tail);
    assert all[1..] == [head[1]] + ([x, y] + tail) && all[1..][1..] == [x, y] + tail;
    assert ([x, y] + tail)[1..] == [y] + tail && ([y] + tail)[1..] == tail;
    assert Joined([y] + tail) == y + "\U{1F}" + Joined(tail);
    assert Joined([x, y] + tail) == x + "\U{1F}" + Joined([y] + tail);
    assert Joined([x, y] + tail) == JoinedFour(x, y, tail);
  }

  // ---- The store that keeps everything ----

  /** Refuses a key still unexpired, and a new one while 4096 are unexpired; forgets nothing. */
  function ConsumeForever(f: Store, key: string, expiresAt: int, now: int): (Store, Result<()>) {
    if key in f && f[key] >= now then (f, Err("replay denied"))
    else if |Pruned(f, now)| >= MAXIMUM_REPLAYS then (f, Err("replay store is full"))
    else (f[key := expiresAt], Ok(()))
  }

  /** All the pruned store lacks is what had expired by its last call. */
  predicate ActsAs(s: Store, f: Store, last: int) {
    && (forall key :: key in s ==> key in f && f[key] == s[key])
    && (forall key :: key in f && f[key] >= last ==> key in s)
  }

  datatype Call = Call(key: string, expiresAt: int, now: int)

  predicate Forward(calls: seq<Call>, from: int) {
    && (calls != [] ==> from <= calls[0].now)
    && forall i, j :: 0 <= i < j < |calls| ==> calls[i].now <= calls[j].now
  }

  function Answers(s: Store, calls: seq<Call>): seq<Result<()>>
    decreases |calls|
  {
    if calls == [] then []
    else
      var (next, r) := Consume(s, calls[0].key, calls[0].expiresAt, calls[0].now);
      [r] + Answers(next, calls[1..])
  }

  function AnswersForever(f: Store, calls: seq<Call>): seq<Result<()>>
    decreases |calls|
  {
    if calls == [] then []
    else
      var (next, r) := ConsumeForever(f, calls[0].key, calls[0].expiresAt, calls[0].now);
      [r] + AnswersForever(next, calls[1..])
  }

  lemma SamePruned(s: Store, f: Store, last: int, now: int)
    requires ActsAs(s, f, last) && last <= now
    ensures Pruned(s, now) == Pruned(f, now)
  {
  }

  lemma StepActsAs(s: Store, f: Store, last: int, key: string, expiresAt: int, now: int)
    requires ActsAs(s, f, last) && last <= now
    ensures Consume(s, key, expiresAt, now).1 == ConsumeForever(f, key, expiresAt, now).1
    ensures ActsAs(Consume(s, key, expiresAt, now).0, ConsumeForever(f, key, expiresAt, now).0, now)
  {
    SamePruned(s, f, last, now);
  }

  /** With a clock that never goes back, pruning changes no answer. */
  lemma {:induction false} PruningUnseen(s: Store, f: Store, calls: seq<Call>, last: int)
    requires ActsAs(s, f, last) && Forward(calls, last)
    ensures Answers(s, calls) == AnswersForever(f, calls)
    decreases |calls|
  {
    if calls != [] {
      var c := calls[0];
      StepActsAs(s, f, last, c.key, c.expiresAt, c.now);
      PruningUnseen(Consume(s, c.key, c.expiresAt, c.now).0, ConsumeForever(f, c.key, c.expiresAt, c.now).0, calls[1..], c.now);
    }
  }

  /** Whatever the clock does, the store never holds more than its maximum. */
  lemma StoreBounded(s: Store, key: string, expiresAt: int, now: int)
    requires |s| <= MAXIMUM_REPLAYS
    ensures |Consume(s, key, expiresAt, now).0| <= MAXIMUM_REPLAYS
  {
    PrunedSmaller(s, now);
    OneMore(Pruned(s, now), key, expiresAt);
    hide Pruned;
  }

  lemma OneMore(s: Store, key: string, expiresAt: int)
    ensures |s[key := expiresAt]| <= |s| + 1
  {
    assert s[key := expiresAt].Keys == s.Keys + {key};
    assert |s[key := expiresAt].Keys| == |s[key := expiresAt]| && |s.Keys| == |s|;
  }

  lemma PrunedSmaller(s: Store, now: int)
    ensures |Pruned(s, now)| <= |s|
  {
    SubsetSize(Pruned(s, now).Keys, s.Keys);
  }

  lemma {:induction false} SubsetSize<T>(a: set<T>, b: set<T>)
    requires a <= b
    ensures |a| <= |b|
    decreases |a|
  {
    if a != {} {
      var x :| x in a;
      SubsetSize(a - {x}, b - {x});
    }
  }

  // ---- Once ----

  /** The key is held by a challenge that outlasts e, or e is past. */
  predicate Guarded(s: Store, key: string, e: int, now: int) {
    now > e || (key in s && s[key] >= e)
  }

  lemma {:induction false} StaysGuarded(s: Store, key: string, e: int, calls: seq<Call>, last: int)
    requires Guarded(s, key, e, last) && Forward(calls, last)
    ensures |Answers(s, calls)| == |calls|
    ensures forall i :: 0 <= i < |calls| && calls[i].key == key && calls[i].now <= e ==> Answers(s, calls)[i].Err?
    decreases |calls|
  {
    if calls != [] {
      var c, rest := calls[0], calls[1..];
      var next := Consume(s, c.key, c.expiresAt, c.now).0;
      assert Guarded(next, key, e, c.now);
      StaysGuarded(next, key, e, rest, c.now);
      var answers := Answers(s, calls);
      forall i | 0 <= i < |calls| && calls[i].key == key && calls[i].now <= e
        ensures answers[i].Err?
      {
        if i > 0 {
          assert calls[i] == rest[i - 1] && answers[i] == Answers(next, rest)[i - 1];
        }
      }
    }
  }

  /** A challenge consumed is refused every later time it is presented before it expires. */
  lemma ConsumedOnce(s: Store, c: Challenge, now: int, calls: seq<Call>)
    requires Consume(s, ReplayKey(c), c.expiresAt, now).1.Ok? && Forward(calls, now)
    ensures var next := Consume(s, ReplayKey(c), c.expiresAt, now).0;
            && |Answers(next, calls)| == |calls|
            && forall i :: 0 <= i < |calls| && calls[i].key == ReplayKey(c) && calls[i].now <= c.expiresAt ==> Answers(next, calls)[i].Err?
  {
    hide ReplayKey;
    StaysGuarded(Consume(s, ReplayKey(c), c.expiresAt, now).0, ReplayKey(c), c.expiresAt, calls, now);
  }

  /**
   * Presented again, it is let through exactly when the second call runs after its expiry, which the check
   * before the call does not rule out: that check ran a moment earlier.
   */
  lemma ConsumedAgainIff(s: Store, c: Challenge, now: int, again: int)
    requires Consume(s, ReplayKey(c), c.expiresAt, now).1.Ok? && now <= again
    ensures var next := Consume(s, ReplayKey(c), c.expiresAt, now).0;
            Consume(next, ReplayKey(c), c.expiresAt, again).1.Ok? <==> again > c.expiresAt
  {
    hide ReplayKey;
    var key := ReplayKey(c);
    var next := Consume(s, key, c.expiresAt, now).0;
    if again > c.expiresAt {
      var left := Pruned(next, again);
      assert key !in left;
      SubsetSize(left.Keys, Pruned(s, now).Keys);
    }
  }

  // ---- The class ----

  class ReplayStore {
    var consumed: Store

    ghost predicate Valid()
      reads this
    {
      |consumed| <= MAXIMUM_REPLAYS
    }

    constructor ()
      ensures Valid() && consumed == map[]
    {
      consumed := map[];
    }

    method Take(c: Challenge, now: int) returns (r: Result<()>)
      requires Valid()
      modifies this
      ensures Valid() && (consumed, r) == Consume(old(consumed), ReplayKey(c), c.expiresAt, now)
    {
      hide ReplayKey;
      StoreBounded(consumed, ReplayKey(c), c.expiresAt, now);
      ghost var before := consumed;
      var left := consumed.Keys;
      while left != {}
        invariant left <= before.Keys
        invariant forall key :: key in consumed <==> key in before && (key in left || before[key] >= now)
        invariant forall key :: key in consumed ==> consumed[key] == before[key]
      {
        var key :| key in left;
        if consumed[key] < now {
          consumed := consumed - {key};
        }
        left := left - {key};
      }
      assert consumed == Pruned(before, now);
      var key := ReplayKey(c);
      if key in consumed {
        return Err("replay denied");
      }
      if |consumed| >= MAXIMUM_REPLAYS {
        return Err("replay store is full");
      }
      consumed := consumed[key := c.expiresAt];
      return Ok(());
    }
  }
}
