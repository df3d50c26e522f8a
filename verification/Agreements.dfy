/** Grants, permission bits, and when two lists of conditions are the same policy. */
module Agreements {
  import opened Prelude
  import opened Text
  import opened KeyOrder
  import opened JsonCodec

  // ---- Permissions ----

  datatype Grant = Grant(keypath: string, permission: string)

  function TripletBits(p: string): Option<bv8>
    requires |p| >= 3
  {
    if (p[0] != 'r' && p[0] != '-') || (p[1] != 'w' && p[1] != '-') || (p[2] != 'x' && p[2] != '-') then None
    else Some((if p[0] == 'r' then 4 else 0) + (if p[1] == 'w' then 2 else 0) + (if p[2] == 'x' then 1 else 0))
  }

  function QuadBits(p: string): Option<bv8>
    requires |p| >= 4
  {
    var bits :- TripletBits(p);
    if p[3] == 's' then Some(bits + 8) else if p[3] == '-' then Some(bits) else None
  }

  /** Group and other bits of "rwx", "rwxs", or either written twice. */
  function PermissionBits(permission: string): Option<(bv8, bv8)> {
    var p := TrimSpace(permission);
    match |p|
    case 3 =>
      var group :- TripletBits(p);
      Some((group, 0))
    case 4 =>
      var group :- QuadBits(p);
      Some((group, 0))
    case 6 =>
      var group :- TripletBits(p);
      var other :- TripletBits(p[3..]);
      Some((group, other))
    case 8 =>
      var group :- QuadBits(p);
      var other :- QuadBits(p[4..]);
      Some((group, other))
    case _ => None
  }

  function CoversExactly(g: Grant, requested: Grant): bool {
    && g.keypath == requested.keypath
    && var have, want := PermissionBits(g.permission), PermissionBits(requested.permission);
       && have.Some? && want.Some? && want.value.0 != 0
       && Has(have.value.0, want.value.0)
       && (want.value.1 == 0 || Has(have.value.1, want.value.1))
  }

  predicate Has(have: bv8, want: bv8) {
    have & want == want
  }

  predicate Holds(have: bv8, want: bv8, bit: bv8) {
    want & bit != 0 ==> have & bit != 0
  }

  /** Covering is, bit by bit, holding every bit that is wanted, and some group bit must be. */
  lemma CoversBitByBit(g: Grant, requested: Grant)
    ensures CoversExactly(g, requested) <==>
              && g.keypath == requested.keypath
              && PermissionBits(g.permission).Some? && PermissionBits(requested.permission).Some?
              && var have, want := PermissionBits(g.permission).value, PermissionBits(requested.permission).value;
                 && want.0 != 0
                 && forall bit :: bit in {1, 2, 4, 8} ==> Holds(have.0, want.0, bit) && Holds(have.1, want.1, bit)
  {
    BitsBound(g.permission);
    BitsBound(requested.permission);
    hide PermissionBits;
    hide Holds;
    hide Has;
    if PermissionBits(g.permission).Some? && PermissionBits(requested.permission).Some? {
      var have, want := PermissionBits(g.permission).value, PermissionBits(requested.permission).value;
      BitsHeld(have.0, want.0);
      BitsHeld(have.1, want.1);
    }
  }

  lemma BitsBound(permission: string)
    ensures PermissionBits(permission).Some? ==> PermissionBits(permission).value.0 < 16 && PermissionBits(permission).value.1 < 16
  {
  }

  lemma BitsHeld(have: bv8, want: bv8)
    requires have < 16 && want < 16
    ensures Has(have, want) <==> forall bit :: bit in {1, 2, 4, 8} ==> Holds(have, want, bit)
    ensures want == 0 ==> Has(have, want)
  {
    EachBitHeld(have, want);
    hide Holds;
  }

  lemma EachBitHeld(have: bv8, want: bv8)
    requires have < 16 && want < 16
    ensures have & want == want <==> Holds(have, want, 1) && Holds(have, want, 2) && Holds(have, want, 4) && Holds(have, want, 8)
  {
  }

  function QuadString(bits: bv8): string {
    [if bits & 4 == 4 then 'r' else '-', if bits & 2 == 2 then 'w' else '-', if bits & 1 == 1 then 'x' else '-',
     if bits & 8 == 8 then 's' else '-']
  }

  function PermissionString(group: bv8, other: bv8): string {
    if other == 0 then QuadString(group) else QuadString(group) + QuadString(other)
  }

  lemma QuadRead(bits: bv8)
    requires bits < 16
    ensures QuadBits(QuadString(bits)) == Some(bits)
  {
  }

  lemma Untrimmed(s: string)
    requires s != "" && !IsUnicodeSpace(s[0]) && !IsUnicodeSpace(s[|s| - 1])
    ensures TrimSpace(s) == s
  {
  }

  /** A permission written out from its bits reads back as those bits. */
  lemma PermissionRead(group: bv8, other: bv8)
    requires group < 16 && other < 16
    ensures PermissionBits(PermissionString(group, other)) == Some((group, other))
  {
    QuadRead(group);
    QuadRead(other);
    var s := PermissionString(group, other);
    Untrimmed(s);
    hide TrimSpace;
    if other != 0 {
      assert s[..4] == QuadString(group) && s[4..] == QuadString(other);
      PrefixBits(s, QuadString(group));
    }
  }

  lemma PrefixBits(s: string, quad: string)
    requires |s| >= 4 && |quad| == 4 && s[..4] == quad
    ensures QuadBits(s) == QuadBits(quad)
  {
    assert forall i :: 0 <= i < 4 ==> s[i] == s[..4][i];
  }

  /** A contract grant inside the template carries the template's authority on to what it covers itself. */
  lemma CoversTransitive(a: Grant, b: Grant, c: Grant)
    requires CoversExactly(a, b) && CoversExactly(b, c)
    ensures CoversExactly(a, c)
  {
    hide PermissionBits;
    var x, y, z := PermissionBits(a.permission).value, PermissionBits(b.permission).value, PermissionBits(c.permission).value;
    BitsTransitive(x.0, y.0, z.0);
    BitsTransitive(x.1, y.1, z.1);
  }

  lemma BitsTransitive(x: bv8, y: bv8, z: bv8)
    ensures x & y == y && y & z == z ==> x & z == z
    ensures y & z == z && z != 0 ==> y != 0
  {
  }

  datatype Template = Template(grants: seq<Grant>, conditions: seq<Condition>, givenDuration: int) {
    function Duration(): int {
      if givenDuration <= 0 then DEFAULT_DURATION else givenDuration
    }
  }

  const DEFAULT_DURATION := 60 * 60 * 24 * 365
  const MAXIMUM_DURATION := 60 * 60 * 24 * 365

  predicate CheckGrant(t: Template, requested: Grant) {
    exists i :: 0 <= i < |t.grants| && CoversExactly(t.grants[i], requested)
  }

  // ---- Conditions ----

  datatype Condition =
    | Lookup(name: string, keypath: string, expected: Json)
    | Unsupported

  /** What two conditions share to be the same condition. */
  function Policy(c: Condition): string {
    if c.Unsupported? then "" else Encode(PolicyJson(c), CHANNEL_STYLE)
  }

  function PolicyJson(c: Condition): Json
    requires c.Lookup?
  {
    Obj(map["type" := Str("lookup"), "name" := Str(c.name), "keypath" := Str(c.keypath), "expectedValue" := c.expected])
  }

  lemma PolicySame(c: Condition, d: Condition)
    ensures Policy(c) == Policy(d) ==> c == d
    ensures Policy(c) == "" <==> c.Unsupported?
  {
    if c.Lookup? {
      EncodeStart(PolicyJson(c), CHANNEL_STYLE);
      if d.Lookup? && Policy(c) == Policy(d) {
        EncodingUnambiguous(PolicyJson(c), PolicyJson(d), CHANNEL_STYLE, CHANNEL_STYLE);
        PolicyFields(c);
        PolicyFields(d);
      }
    }
    if d.Lookup? {
      EncodeStart(PolicyJson(d), CHANNEL_STYLE);
    }
  }

  lemma PolicyFields(c: Condition)
    requires c.Lookup?
    ensures var o := PolicyJson(c).fields;
            && "name" in o && "keypath" in o && "expectedValue" in o
            && o["name"] == Str(c.name) && o["keypath"] == Str(c.keypath) && o["expectedValue"] == c.expected
  {
  }

  // ---- sort.Strings ----

  function Insert(s: string, sorted: seq<string>): seq<string> {
    if sorted == [] || CompareText(s, sorted[0]) <= 0 then [s] + sorted
    else [sorted[0]] + Insert(s, sorted[1..])
  }

  function SortText(ss: seq<string>): seq<string> {
    if ss == [] then [] else Insert(ss[0], SortText(ss[1..]))
  }

  predicate Ascending(ss: seq<string>) {
    forall i, j :: 0 <= i < j < |ss| ==> CompareText(ss[i], ss[j]) <= 0
  }

  lemma FrontKeeps(s: string, sorted: seq<string>)
    requires Ascending(sorted) && (sorted == [] || CompareText(s, sorted[0]) <= 0)
    ensures Ascending([s] + sorted) && multiset([s] + sorted) == multiset(sorted) + multiset{s}
  {
    forall j | 0 <= j < |sorted|
      ensures CompareText(s, sorted[j]) <= 0
    {
      if j > 0 {
        TextTransitive(s, sorted[0], sorted[j]);
      }
    }
    hide CompareText;
  }

  /** A first text below everything in the rest, however the rest was put together. */
  lemma FrontBelow(first: string, rest: seq<string>, from: multiset<string>)
    requires Ascending(rest) && multiset(rest) == from && forall t :: t in from ==> CompareText(first, t) <= 0
    ensures Ascending([first] + rest) && multiset([first] + rest) == from + multiset{first}
  {
    hide CompareText;
    forall j | 0 <= j < |rest|
      ensures CompareText(first, rest[j]) <= 0
    {
      assert rest[j] in multiset(rest);
    }
  }

  lemma FirstBelow(sorted: seq<string>)
    requires Ascending(sorted) && sorted != []
    ensures forall t :: t in multiset(sorted[1..]) ==> CompareText(sorted[0], t) <= 0
  {
    hide CompareText;
    forall t | t in multiset(sorted[1..])
      ensures CompareText(sorted[0], t) <= 0
    {
      var k :| 0 <= k < |sorted[1..]| && sorted[1..][k] == t;
    }
  }

  lemma InsertStep(s: string, sorted: seq<string>)
    ensures Insert(s, sorted) ==
            if sorted == [] || CompareText(s, sorted[0]) <= 0 then [s] + sorted else [sorted[0]] + Insert(s, sorted[1..])
  {
  }

  lemma {:induction false} InsertKeeps(s: string, sorted: seq<string>)
    requires Ascending(sorted)
    ensures Ascending(Insert(s, sorted)) && multiset(Insert(s, sorted)) == multiset(sorted) + multiset{s}
  {
    hide Insert;
    hide CompareText;
    hide Ascending;
    InsertStep(s, sorted);
    if sorted == [] || CompareText(s, sorted[0]) <= 0 {
      FrontKeeps(s, sorted);
    } else {
      var first, rest := sorted[0], sorted[1..];
      TextTotal(s, first);
      FirstBelow(sorted);
      TailAscends(sorted);
      InsertKeeps(s, rest);
      FrontBelow(first, Insert(s, rest), multiset(rest) + multiset{s});
      FirstAndRest(sorted);
    }
  }

  lemma FirstAndRest(sorted: seq<string>)
    requires sorted != []
    ensures multiset(sorted) == multiset(sorted[1..]) + multiset{sorted[0]}
  {
    assert sorted == [sorted[0]] + sorted[1..];
  }

  lemma TailAscends(sorted: seq<string>)
    requires Ascending(sorted) && sorted != []
    ensures Ascending(sorted[1..])
  {
    hide CompareText;
  }

  lemma TextTotal(a: string, b: string)
    ensures CompareText(a, b) <= 0 || CompareText(b, a) <= 0
    ensures CompareText(a, b) <= 0 && CompareText(b, a) <= 0 ==> a == b
    ensures CompareText(a, a) <= 0
  {
    CompareTextZero(a, a);
    OrderLaws(a, b, a, CodePoint);
    OrderLaws(b, a, b, CodePoint);
  }

  lemma TextTransitive(a: string, b: string, c: string)
    requires CompareText(a, b) <= 0 && CompareText(b, c) <= 0
    ensures CompareText(a, c) <= 0
  {
    OrderLaws(a, b, c, CodePoint);
    CompareTextZero(a, b);
    CompareTextZero(b, c);
  }

  lemma {:induction false} SortedText(ss: seq<string>)
    ensures Ascending(SortText(ss)) && multiset(SortText(ss)) == multiset(ss)
  {
    if ss != [] {
      SortedText(ss[1..]);
      InsertKeeps(ss[0], SortText(ss[1..]));
      assert ss == [ss[0]] + ss[1..];
    }
  }

  lemma {:induction false} AscendingUnique(a: seq<string>, b: seq<string>)
    requires Ascending(a) && Ascending(b) && multiset(a) == multiset(b)
    ensures a == b
  {
    assert |multiset(a)| == |a| && |multiset(b)| == |b|;
    if a != [] {
      FirstIsLeast(a, b);
      FirstIsLeast(b, a);
      TextTotal(a[0], b[0]);
      hide CompareText;
      RestsAgree(a, b);
      AscendingUnique(a[1..], b[1..]);
      assert a == [a[0]] + a[1..] && b == [b[0]] + b[1..];
    }
  }

  lemma RestsAgree(a: seq<string>, b: seq<string>)
    requires a != [] && b != [] && a[0] == b[0] && multiset(a) == multiset(b)
    ensures multiset(a[1..]) == multiset(b[1..])
  {
    assert a == [a[0]] + a[1..] && b == [b[0]] + b[1..];
    assert multiset(a[1..]) == multiset(a) - multiset{a[0]};
    assert multiset(b[1..]) == multiset(b) - multiset{b[0]};
  }

  lemma FirstIsLeast(a: seq<string>, b: seq<string>)
    requires Ascending(a) && a != [] && b != [] && multiset(a) == multiset(b)
    ensures CompareText(a[0], b[0]) <= 0
  {
    assert b[0] in multiset(a);
    var k :| 0 <= k < |a| && a[k] == b[0];
    TextTotal(a[0], a[0]);
  }

  function Policies(cs: seq<Condition>): (ps: seq<string>)
    ensures |ps| == |cs| && forall i :: 0 <= i < |ps| ==> ps[i] == Policy(cs[i])
  {
    seq(|cs|, i requires 0 <= i < |cs| => Policy(cs[i]))
  }

  predicate ConditionsMatch(a: seq<Condition>, b: seq<Condition>) {
    |a| == |b| && "" !in Policies(a) && "" !in Policies(b) && SortText(Policies(a)) == SortText(Policies(b))
  }

  lemma {:induction false} PoliciesCount(cs: seq<Condition>, c: Condition)
    ensures multiset(Policies(cs))[Policy(c)] == multiset(cs)[c]
  {
    hide Policy;
    hide Policies;
    if cs == [] {
      NoPolicies();
    } else {
      PoliciesCount(cs[1..], c);
      PolicySame(cs[0], c);
      PoliciesFirst(cs);
      SameCounts(cs[0], cs[1..], c, Policy(cs[0]), Policies(cs[1..]), Policy(c));
    }
  }

  lemma NoPolicies()
    ensures Policies([]) == []
  {
  }

  lemma PoliciesFirst(cs: seq<Condition>)
    requires cs != []
    ensures Policies(cs) == [Policy(cs[0])] + Policies(cs[1..]) && cs == [cs[0]] + cs[1..]
  {
    hide Policy;
  }

  lemma SameCounts<S, T>(x: S, rest: seq<S>, y: S, p: T, texts: seq<T>, q: T)
    requires (x == y <==> p == q) && multiset(rest)[y] == multiset(texts)[q]
    ensures multiset([x] + rest)[y] == multiset([p] + texts)[q]
  {
    CountFirst(x, rest, y);
    CountFirst(p, texts, q);
  }

  lemma CountFirst<T>(x: T, rest: seq<T>, y: T)
    ensures multiset([x] + rest)[y] == multiset(rest)[y] + if x == y then 1 else 0
  {
  }

  /** The sorted texts agree exactly when the conditions are the same ones, however often and in whatever order. */
  lemma ConditionsMatchIff(a: seq<Condition>, b: seq<Condition>)
    ensures ConditionsMatch(a, b) <==> multiset(a) == multiset(b) && Unsupported !in a
  {
    SortedText(Policies(a));
    SortedText(Policies(b));
    NoPolicy(a);
    NoPolicy(b);
    if ConditionsMatch(a, b) {
      forall c: Condition
        ensures multiset(a)[c] == multiset(b)[c]
      {
        PoliciesCount(a, c);
        PoliciesCount(b, c);
      }
    }
    if multiset(a) == multiset(b) && Unsupported !in a {
      assert |multiset(a)| == |a| && |multiset(b)| == |b|;
      assert Unsupported !in multiset(b);
      PoliciesSame(a, b);
      AscendingUnique(SortText(Policies(a)), SortText(Policies(b)));
    }
  }

  lemma NoPolicy(cs: seq<Condition>)
    ensures "" in Policies(cs) <==> Unsupported in cs
  {
    forall i | 0 <= i < |cs|
      ensures Policy(cs[i]) == "" <==> cs[i].Unsupported?
    {
      PolicySame(cs[i], cs[i]);
    }
    if Unsupported in cs {
      var i :| 0 <= i < |cs| && cs[i] == Unsupported;
      assert Policies(cs)[i] == "";
    }
  }

  lemma PoliciesSame(a: seq<Condition>, b: seq<Condition>)
    requires multiset(a) == multiset(b)
    ensures multiset(Policies(a)) == multiset(Policies(b))
  {
    forall p: string
      ensures multiset(Policies(a))[p] == multiset(Policies(b))[p]
    {
      if p in Policies(a) || p in Policies(b) {
        var c :| (c in a || c in b) && Policy(c) == p;
        PoliciesCount(a, c);
        PoliciesCount(b, c);
      }
    }
  }

  method SortStrings(given: seq<string>) returns (out: seq<string>)
    ensures out == SortText(given)
  {
    out := [];
    var i := |given|;
    while i > 0
      invariant 0 <= i <= |given| && out == SortText(given[i..])
    {
      i := i - 1;
      assert given[i..][1..] == given[i + 1..];
      out := InsertString(given[i], out);
    }
  }

  method InsertString(s: string, sorted: seq<string>) returns (out: seq<string>)
    ensures out == Insert(s, sorted)
  {
    var k := 0;
    while k < |sorted| && CompareText(s, sorted[k]) > 0
      invariant 0 <= k <= |sorted| && Insert(s, sorted) == sorted[..k] + Insert(s, sorted[k..])
    {
      assert sorted[k..][1..] == sorted[k + 1..];
      k := k + 1;
    }
    out := sorted[..k] + [s] + sorted[k..];
  }

  method MatchConditions(a: seq<Condition>, b: seq<Condition>) returns (same: bool)
    ensures same == ConditionsMatch(a, b)
  {
    hide Policy;
    if |a| != |b| {
      return false;
    }
    var left, right := [], [];
    for i := 0 to |a|
      invariant left == Policies(a)[..i] && right == Policies(b)[..i]
      invariant "" !in left && "" !in right
    {
      var l, r := Policy(a[i]), Policy(b[i]);
      if l == "" || r == "" {
        assert Policies(a)[i] == l && Policies(b)[i] == r;
        return false;
      }
      left, right := left + [l], right + [r];
    }
    assert left == Policies(a) && right == Policies(b);
    left := SortStrings(left);
    right := SortStrings(right);
    SortedText(Policies(a));
    SortedText(Policies(b));
    assert |multiset(left)| == |left| && |multiset(right)| == |right|;
    same := SameTexts(left, right);
  }

  method SameTexts(left: seq<string>, right: seq<string>) returns (same: bool)
    requires |left| == |right|
    ensures same <==> left == right
  {
    for i := 0 to |left|
      invariant left[..i] == right[..i]
    {
      if left[i] != right[i] {
        return false;
      }
    }
    assert left[..|left|] == left && right[..|right|] == right;
    return true;
  }
}
