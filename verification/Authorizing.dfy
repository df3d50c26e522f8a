/** What signing a contract takes, what access by one rests on, and what permissions mean, letter by letter. */
module Authorizing {
  import opened Prelude
  import opened Text
  import opened JsonCodec
  import opened Agreements
  import opened Contracts
  import KeyPath
  import KeyStore

  // ---- Permissions, letter by letter ----

  const LETTERS := "rwxs"

  /** "rwx" or "rwxs", once or twice, with "-" for what is not given. */
  predicate WellFormed(p: string) {
    && (|p| == 3 || |p| == 4 || |p| == 6 || |p| == 8)
    && forall i :: 0 <= i < |p| ==> p[i] == '-' || p[i] == LETTERS[i % Width(p)]
  }

  function Width(p: string): (n: nat)
    ensures n == 3 || n == 4
  {
    if |p| == 3 || |p| == 6 then 3 else 4
  }

  /** The letter is given to the group, or in a permission written twice to others. */
  predicate Gives(p: string, others: bool, k: nat)
    requires k < 4
  {
    var at := if others then Width(p) + k else k;
    k < Width(p) && at < |p| && p[at] == LETTERS[k]
  }

  const BIT_OF: seq<bv8> := [4, 2, 1, 8]

  lemma TripletLetters(p: string)
    requires |p| >= 3
    ensures TripletBits(p).Some? <==> forall i :: 0 <= i < 3 ==> p[i] == '-' || p[i] == LETTERS[i]
    ensures TripletBits(p).Some? ==>
              var b := TripletBits(p).value;
              b < 8 && (b & 4 != 0 <==> p[0] == 'r') && (b & 2 != 0 <==> p[1] == 'w') && (b & 1 != 0 <==> p[2] == 'x') && b & 8 == 0
  {
  }

  lemma QuadLetters(p: string)
    requires |p| >= 4
    ensures QuadBits(p).Some? <==> forall i :: 0 <= i < 4 ==> p[i] == '-' || p[i] == LETTERS[i]
    ensures QuadBits(p).Some? ==>
              var b := QuadBits(p).value;
              && (b & 4 != 0 <==> p[0] == 'r') && (b & 2 != 0 <==> p[1] == 'w') && (b & 1 != 0 <==> p[2] == 'x')
              && (b & 8 != 0 <==> p[3] == 's')
  {
    TripletLetters(p);
    hide TripletBits;
    if TripletBits(p).Some? {
      EighthBit(TripletBits(p).value);
    }
  }

  lemma EighthBit(b: bv8)
    requires b < 8
    ensures (b + 8) & 4 == b & 4 && (b + 8) & 2 == b & 2 && (b + 8) & 1 == b & 1 && (b + 8) & 8 == 8 && b & 8 == 0
  {
  }

  /** The bits are those letters', once the spaces around are gone. */
  predicate Spells(p: string, bits: Option<(bv8, bv8)>) {
    && (bits.Some? <==> WellFormed(p))
    && (bits.Some? ==>
          && bits.value.0 < 16 && bits.value.1 < 16
          && forall k :: 0 <= k < 4 ==>
               && (bits.value.0 & BIT_OF[k] != 0 <==> Gives(p, false, k))
               && (bits.value.1 & BIT_OF[k] != 0 <==> Gives(p, true, k)))
  }

  lemma OnceSpelled(permission: string)
    requires |TrimSpace(permission)| == 3 || |TrimSpace(permission)| == 4
    ensures Spells(TrimSpace(permission), PermissionBits(permission))
  {
    BitsBound(permission);
    var p := TrimSpace(permission);
    hide TrimSpace;
    if |p| == 3 {
      TripletLetters(p);
    } else {
      QuadLetters(p);
    }
    hide TripletBits;
    hide QuadBits;
  }

  lemma TripletsSpelled(permission: string)
    requires |TrimSpace(permission)| == 6
    ensures Spells(TrimSpace(permission), PermissionBits(permission))
  {
    BitsBound(permission);
    var p := TrimSpace(permission);
    hide TrimSpace;
    TripletLetters(p);
    TripletLetters(p[3..]);
    hide TripletBits;
  }

  lemma QuadsSpelled(permission: string)
    requires |TrimSpace(permission)| == 8
    ensures Spells(TrimSpace(permission), PermissionBits(permission))
  {
    BitsBound(permission);
    var p := TrimSpace(permission);
    hide TrimSpace;
    QuadLetters(p);
    QuadLetters(p[4..]);
    hide QuadBits;
  }

  lemma BitsAreLetters(permission: string)
    ensures Spells(TrimSpace(permission), PermissionBits(permission))
  {
    var p := TrimSpace(permission);
    if |p| == 3 || |p| == 4 {
      OnceSpelled(permission);
    } else if |p| == 6 {
      TripletsSpelled(permission);
    } else if |p| == 8 {
      QuadsSpelled(permission);
    }
    hide TrimSpace;
  }

  lemma SomeBit(b: bv8)
    requires b < 16
    ensures b != 0 <==> exists k :: 0 <= k < 4 && b & BIT_OF[k] != 0
  {
    SomeOfFour(b);
    assert BIT_OF[0] == 4 && BIT_OF[1] == 2 && BIT_OF[2] == 1 && BIT_OF[3] == 8;
  }

  lemma SomeOfFour(b: bv8)
    requires b < 16
    ensures b != 0 <==> b & 4 != 0 || b & 2 != 0 || b & 1 != 0 || b & 8 != 0
  {
  }

  lemma HeldByPlace(have: bv8, want: bv8)
    ensures (forall bit :: bit in {1, 2, 4, 8} ==> Holds(have, want, bit)) <==>
            (forall k :: 0 <= k < 4 ==> Holds(have, want, BIT_OF[k]))
  {
    assert BIT_OF[0] == 4 && BIT_OF[1] == 2 && BIT_OF[2] == 1 && BIT_OF[3] == 8;
    hide Holds;
    if forall k :: 0 <= k < 4 ==> Holds(have, want, BIT_OF[k]) {
      assert Holds(have, want, BIT_OF[0]) && Holds(have, want, BIT_OF[1]) && Holds(have, want, BIT_OF[2]) && Holds(have, want, BIT_OF[3]);
    }
  }

  /** A grant covers a request of the same path when it gives every letter asked for, and some letter is asked of the group. */
  lemma CoversByLetters(g: Grant, requested: Grant)
    ensures var have, want := TrimSpace(g.permission), TrimSpace(requested.permission);
            CoversExactly(g, requested) <==>
              && g.keypath == requested.keypath && WellFormed(have) && WellFormed(want)
              && (exists k :: 0 <= k < 4 && Gives(want, false, k))
              && (forall k :: 0 <= k < 4 && Gives(want, false, k) ==> Gives(have, false, k))
              && (forall k :: 0 <= k < 4 && Gives(want, true, k) ==> Gives(have, true, k))
  {
    CoversBitByBit(g, requested);
    BitsAreLetters(g.permission);
    BitsAreLetters(requested.permission);
    hide CoversExactly;
    hide PermissionBits;
    hide TrimSpace;
    hide WellFormed;
    hide Gives;
    if PermissionBits(g.permission).Some? && PermissionBits(requested.permission).Some? {
      var have, want := PermissionBits(g.permission).value, PermissionBits(requested.permission).value;
      SomeBit(want.0);
      HeldByPlace(have.0, want.0);
      HeldByPlace(have.1, want.1);
      assert (forall bit :: bit in {1, 2, 4, 8} ==> Holds(have.0, want.0, bit) && Holds(have.1, want.1, bit)) <==>
             (forall bit :: bit in {1, 2, 4, 8} ==> Holds(have.0, want.0, bit)) && (forall bit :: bit in {1, 2, 4, 8} ==> Holds(have.1, want.1, bit));
      hide BIT_OF;
    }
  }

  // ---- Access ----

  /** The same UUID, not empty, and the same key of 32 octets. */
  predicate SameSigner(a: Identity, b: Identity) {
    a.uuid == b.uuid && a.uuid != "" && a.publicKey == b.publicKey && a.publicKey.Some? && |a.publicKey.value| == 32
  }

  /** The longest a contract may run, in seconds: what the template says, or a year. */
  function Longest(t: Template): int {
    if t.givenDuration > 0 then t.givenDuration else 31_536_000
  }

  predicate Within(grants: seq<Grant>, g: Grant) {
    exists i :: 0 <= i < |grants| && CoversExactly(grants[i], g)
  }

  /** The same conditions as often, none of an unsupported kind. */
  predicate SameConditions(a: seq<Condition>, b: seq<Condition>) {
    multiset(a) == multiset(b) && Unsupported !in a
  }

  /**
   * A stored contract of this very key, issued after its cutoff, begun and not yet run out, no longer than the
   * template in force allows, under the template's conditions, with every grant inside the template, granting this.
   */
  predicate Backs(c: Cell, contract: Contract, permission: string, keypath: string, requester: Identity, now: int) {
    && contract in c.contracts && SameSigner(contract.subject, requester)
    && (requester.uuid in c.revokedBefore ==> c.revokedBefore[requester.uuid] < contract.issuedAt)
    && contract.issuedAt <= now < contract.issuedAt + contract.duration * 1_000_000_000
    && contract.duration <= Longest(c.template)
    && SameConditions(contract.conditions, c.template.conditions)
    && (forall i :: 0 <= i < |contract.grants| ==> Within(c.template.grants, contract.grants[i]))
    && Within(contract.grants, Grant(keypath, permission))
  }

  lemma BacksIff(c: Cell, contract: Contract, permission: string, keypath: string, requester: Identity, now: int)
    ensures Backs(c, contract, permission, keypath, requester, now) <==>
              contract in c.contracts && IsCurrent(c, contract, requester, now) && Covers(contract.grants, Grant(keypath, permission))
  {
    ConditionsMatchIff(contract.conditions, c.template.conditions);
    hide ConditionsMatch;
    hide CoversExactly;
  }

  lemma BackedConditions(c: Cell, contract: Contract, permission: string, keypath: string, requester: Identity, now: int)
    requires Backs(c, contract, permission, keypath, requester, now)
    ensures ConditionsHold(c, contract.conditions, requester, now) <==>
              forall condition :: condition in c.template.conditions ==> Met(c, condition, requester, now)
  {
    AllMet(c, contract.conditions, requester, now);
    hide Met;
    hide ConditionsHold;
    hide Within;
    SameMembers(contract.conditions, c.template.conditions);
  }

  lemma SameMembers<T>(a: seq<T>, b: seq<T>)
    requires multiset(a) == multiset(b)
    ensures forall x :: x in a <==> x in b
  {
    assert forall x :: x in a <==> x in multiset(a);
    assert forall x :: x in b <==> x in multiset(b);
  }

  /** Access by contract is there exactly while a contract backs it and every condition of the template is met. */
  lemma AccessIff(c: Cell, permission: string, keypath: string, requester: Identity, now: int)
    ensures ContractAllows(c, false, permission, keypath, Some(requester), now) <==>
              && (exists contract :: Backs(c, contract, permission, keypath, requester, now))
              && (forall condition :: condition in c.template.conditions ==> Met(c, condition, requester, now))
  {
    AllowedByTemplate(c, permission, keypath, requester, now);
    hide Met;
    hide ContractAllows;
    hide IsCurrent;
    hide Covers;
    hide ConditionsHold;
    hide Backs;
    forall contract
      ensures Carries(c, contract, Grant(keypath, permission), requester, now) <==>
                && Backs(c, contract, permission, keypath, requester, now)
                && (forall condition :: condition in c.template.conditions ==> Met(c, condition, requester, now))
    {
      BacksIff(c, contract, permission, keypath, requester, now);
      if Backs(c, contract, permission, keypath, requester, now) {
        BackedConditions(c, contract, permission, keypath, requester, now);
      }
    }
    hide Carries;
  }

  /** In every state a run from an empty cell reaches. */
  lemma AuthorityIff(c: Cell, events: seq<Event>, permission: string, keypath: string, requester: Identity, now: int)
    requires c.contracts == []
    ensures var d := After(c, events);
            && (ContractAllows(d, false, permission, keypath, Some(requester), now) <==>
                  && (exists contract :: Backs(d, contract, permission, keypath, requester, now))
                  && (forall condition :: condition in d.template.conditions ==> Met(d, condition, requester, now)))
            && (forall contract :: contract in d.contracts && contract.subject.uuid in d.revokedBefore ==>
                  d.revokedBefore[contract.subject.uuid] < contract.issuedAt)
  {
    RunKeepsUnrevoked(c, events);
    var d := After(c, events);
    hide After;
    AccessIff(d, permission, keypath, requester, now);
    hide ContractAllows;
    hide Backs;
    hide Met;
  }

  /** Once every contract of the requester has run out, access by contract is over. */
  lemma AccessEnds(c: Cell, permission: string, keypath: string, requester: Identity, now: int)
    requires forall contract :: contract in c.contracts && contract.subject.uuid == requester.uuid ==>
               contract.issuedAt + contract.duration * 1_000_000_000 <= now
    ensures !ContractAllows(c, false, permission, keypath, Some(requester), now)
  {
    AccessIff(c, permission, keypath, requester, now);
    hide ContractAllows;
    hide Met;
  }

  // ---- Conditions ----

  /** A condition is met when what it names in the target reads, for this requester, as what it expects. */
  lemma MetIff(c: Cell, condition: Condition, requester: Identity, now: int)
    ensures Met(c, condition, requester, now) <==>
              && condition.Lookup?
              && var keypath := Replaced(condition.keypath, "$identity", requester.uuid);
                 && |keypath| > 7 && keypath[..7] == "target."
                 && TargetGet(c, keypath[7..], requester, now) == Ok(condition.expected)
  {
    hide TargetGet;
    hide Replaced;
    if condition.Lookup? {
      var keypath := Replaced(condition.keypath, "$identity", requester.uuid);
      TargetDot(keypath);
    }
  }

  lemma TargetDot(keypath: string)
    ensures var dot := KeyPath.IndexOf(keypath, '.');
            dot + 1 < |keypath| && keypath[..dot] == "target" <==> |keypath| > 7 && keypath[..7] == "target."
    ensures |keypath| > 7 && keypath[..7] == "target." ==> KeyPath.IndexOf(keypath, '.') == 6
  {
    hide KeyPath.IndexOf;
    if KeyPath.IndexOf(keypath, '.') == 6 && |keypath| > 7 && keypath[..6] == "target" {
      DotAfter(keypath);
    }
    if |keypath| > 7 && keypath[..7] == "target." {
      SixBefore(keypath);
      assert keypath[..6] == keypath[..7][..6];
    }
    FirstDot(keypath);
  }

  lemma DotAfter(keypath: string)
    requires KeyPath.IndexOf(keypath, '.') == 6 && |keypath| > 7 && keypath[..6] == "target"
    ensures keypath[..7] == "target."
  {
    hide KeyPath.IndexOf;
    FirstDot(keypath);
    assert keypath[..7] == keypath[..6] + ".";
  }

  lemma SixBefore(keypath: string)
    requires |keypath| > 7 && keypath[..7] == "target."
    ensures KeyPath.IndexOf(keypath, '.') == 6
  {
    hide KeyPath.IndexOf;
    FirstDot(keypath);
    assert keypath[6] == keypath[..7][6];
    assert forall i :: 0 <= i < 6 ==> keypath[i] == keypath[..7][i];
  }

  lemma {:induction false} FirstDot(s: string)
    ensures var n := KeyPath.IndexOf(s, '.');
            n <= |s| && (forall i :: 0 <= i < n ==> s[i] != '.') && (n < |s| ==> s[n] == '.')
  {
    if s != "" && s[0] != '.' {
      FirstDot(s[1..]);
      assert forall i :: 1 <= i < |s| ==> s[i] == s[1..][i - 1];
    }
  }

  /** Every "$identity" is replaced by the value, and nothing else is touched. */
  lemma ReplacedThere(rest: string, value: string)
    ensures Replaced("$identity" + rest, "$identity", value) == value + Replaced(rest, "$identity", value)
  {
    assert ("$identity" + rest)[|"$identity"|..] == rest;
  }

  lemma ReplacedElsewhere(c: char, rest: string, value: string)
    requires !("$identity" <= [c] + rest)
    ensures Replaced([c] + rest, "$identity", value) == [c] + Replaced(rest, "$identity", value)
  {
    assert ([c] + rest)[1..] == rest;
  }

  // ---- Reading and writing by owner or contract ----

  /** The owner, proven by a fresh signature for the very path and operation, or one whom a contract lets in. */
  lemma ValidateIff(c: Cell, evaluating: bool, operation: string, keypath: string, requester: Option<Identity>, now: int)
    ensures ValidateAccess(c, evaluating, operation, keypath, requester, now).Ok? <==>
              && c.owner.Some? && requester.Some?
              && if requester.value.uuid == c.owner.value.uuid then
                   && SameSigner(c.owner.value, requester.value) && requester.value.hasVault
                   && c.control(requester.value, "cell:///" + c.uuid + "/" + keypath, operation)
                 else
                   && !evaluating
                   && ContractAllows(c, false, if operation == "read" || operation == "flow.read" then "r---" else "-w--", keypath, requester, now)
  {
    hide AnyAllows;
  }

  /** Beside the description and the keys, a reader gets what the longest handler for the path says, or storage holds, and only with access. */
  lemma ReadIff(c: Cell, evaluating: bool, keypath: string, requester: Option<Identity>, now: int)
    ensures keypath == "description" ==> Get(c, evaluating, keypath, requester, now) == Ok(c.description(c.template))
    ensures keypath == "keys" ==> Get(c, evaluating, keypath, requester, now) == Ok(c.keys)
    ensures keypath != "description" && keypath != "keys" ==>
              var access := ValidateAccess(c, evaluating, "read", keypath, requester, now);
              && (access.Err? ==> Get(c, evaluating, keypath, requester, now) == Err(access.code))
              && (access.Ok? ==>
                    var key := HandlerKey(keypath, c.handlers.Keys, |keypath|);
                    Get(c, evaluating, keypath, requester, now) ==
                    if key.Some? then c.handlers[key.value](keypath, requester) else KeyStore.Read(Obj(c.storage), keypath))
  {
    hide ValidateAccess;
    hide HandlerKey;
    hide KeyStore.Read;
  }

  // ---- Signing ----

  predicate StartsWith(s: string, head: string) {
    |head| <= |s| && s[..|head|] == head
  }

  /** Without the owner's word: conditions that bind something in the target, or reading only of what is published. */
  predicate PolicyGives(c: Cell, request: Agreement) {
    || (c.policy == "automaticWhenConditionsMet"
        && exists condition :: condition in c.template.conditions && condition.Lookup?
             && (StartsWith(TrimSpace(condition.keypath), "target.") || StartsWith(TrimSpace(condition.keypath), "resolve.")))
    || (c.policy == "ownerPublishedRead"
        && forall grant :: grant in request.grants ==> WellFormed(TrimSpace(grant.permission)) && OnlyRead(TrimSpace(grant.permission)))
  }

  predicate OnlyRead(p: string) {
    && Gives(p, false, 0) && !Gives(p, true, 0)
    && forall k :: 1 <= k < 4 ==> !Gives(p, false, k) && !Gives(p, true, k)
  }

  /** What it takes to have a contract signed. */
  predicate Signable(c: Cell, request: Agreement, identity: Identity, authority: Option<Identity>, now: int) {
    var resource := "cell:///" + c.uuid + "/agreement";
    && (identity.hasVault ==> SameSigner(identity, identity) && c.control(identity, resource, "addAgreement"))
    && c.owner.Some? && request.owner.Some? && SameSigner(c.owner.value, request.owner.value)
    && request.state == "template"
    && 0 < request.duration <= Longest(c.template) && request.duration <= 31_536_000
    && |request.grants| > 0 && (forall i :: 0 <= i < |request.grants| ==> Within(c.template.grants, request.grants[i]))
    && SameConditions(request.conditions, c.template.conditions)
    && (|| (authority.Some? && SameSigner(c.owner.value, authority.value) && authority.value.hasVault
            && c.control(authority.value, resource, "addAgreement"))
        || PolicyGives(c, request))
    && (forall condition :: condition in c.template.conditions ==> Met(c, condition, identity, now))
  }

  lemma OnlyReadIff(permission: string)
    ensures PermissionBits(permission) == Some((4, 0)) <==> WellFormed(TrimSpace(permission)) && OnlyRead(TrimSpace(permission))
  {
    BitsAreLetters(permission);
    var p := TrimSpace(permission);
    hide TrimSpace;
    hide WellFormed;
    hide Gives;
    if PermissionBits(permission).Some? {
      ReadBits(PermissionBits(permission).value.0, PermissionBits(permission).value.1);
    }
    hide PermissionBits;
  }

  lemma ReadBits(group: bv8, others: bv8)
    requires group < 16 && others < 16
    ensures group == 4 && others == 0 <==>
              && group & BIT_OF[0] != 0 && others & BIT_OF[0] == 0
              && forall k :: 1 <= k < 4 ==> group & BIT_OF[k] == 0 && others & BIT_OF[k] == 0
  {
    assert BIT_OF[0] == 4 && BIT_OF[1] == 2 && BIT_OF[2] == 1 && BIT_OF[3] == 8;
    ReadOnly(group, others);
  }

  lemma ReadOnly(group: bv8, others: bv8)
    requires group < 16 && others < 16
    ensures group == 4 && others == 0 <==>
              && group & 4 != 0 && others & 4 == 0 && group & 2 == 0 && others & 2 == 0
              && group & 1 == 0 && others & 1 == 0 && group & 8 == 0 && others & 8 == 0
  {
  }

  lemma PolicyIff(c: Cell, request: Agreement)
    ensures PolicyAllows(c, request) <==> PolicyGives(c, request)
  {
    forall grant | grant in request.grants
      ensures PermissionBits(grant.permission) == Some((4, 0)) <==>
                WellFormed(TrimSpace(grant.permission)) && OnlyRead(TrimSpace(grant.permission))
    {
      OnlyReadIff(grant.permission);
    }
    hide PermissionBits;
    hide WellFormed;
    hide OnlyRead;
    hide TrimSpace;
    assert forall s: string, head: string :: head <= s <==> StartsWith(s, head);
    hide StartsWith;
  }

  /** A request is signed exactly then, and the contract is the one asked for, under the template's conditions, issued after the cutoff. */
  lemma SignedIff(c: Cell, request: Agreement, identity: Option<Identity>, authority: Option<Identity>, now: int)
    ensures var (d, state) := AddAgreement(c, request, identity, authority, now);
            && (state == "signed" <==> identity.Some? && Signable(c, request, identity.value, authority, now))
            && (state != "signed" ==> d == c && state == "rejected")
            && (state == "signed" ==>
                  exists at ::
                    && d == c.(contracts := c.contracts + [Contract(identity.value, request.grants, c.template.conditions, request.duration, at)])
                    && now <= at && (identity.value.uuid in c.revokedBefore ==> c.revokedBefore[identity.value.uuid] < at)
                    && (at == now || (identity.value.uuid in c.revokedBefore && at == c.revokedBefore[identity.value.uuid] + 1_000)))
  {
    if identity.Some? {
      AdmissibleIff(c, request, identity.value, authority, now);
    }
    hide Admissible;
    hide Signable;
  }

  lemma AdmissibleIff(c: Cell, request: Agreement, identity: Identity, authority: Option<Identity>, now: int)
    ensures Admissible(c, request, identity, authority, now) <==> Signable(c, request, identity, authority, now)
  {
    assert Resource(c, "agreement") == "cell:///" + c.uuid + "/agreement";
    AllMet(c, c.template.conditions, identity, now);
    ConditionsMatchIff(request.conditions, c.template.conditions);
    PolicyIff(c, request);
    hide Met;
    hide ConditionsHold;
    hide ConditionsMatch;
    hide PolicyAllows;
    hide PolicyGives;
    hide CoversExactly;
  }

  // ---- Revoking ----

  /** A removal goes contract by contract, keeping the others and their order. */
  lemma {:induction false} OthersConcat(a: seq<Contract>, b: seq<Contract>, uuid: string)
    ensures Others(a + b, uuid) == Others(a, uuid) + Others(b, uuid)
    decreases |b|
  {
    if b == [] {
      assert a + b == a;
    } else {
      var init, last := b[..|b| - 1], b[|b| - 1];
      OthersConcat(a, init, uuid);
      assert (a + b)[..|a + b| - 1] == a + init;
    }
  }

  lemma RemovedIs(c: Cell, uuid: string, now: int, before: seq<Contract>, contract: Contract, after: seq<Contract>)
    requires c.contracts == before + [contract] + after
    ensures var d := RemoveContracts(c, uuid, now);
            && d == c.(contracts := d.contracts, revokedBefore := c.revokedBefore[uuid := now])
            && d.contracts == Others(before, uuid) + (if contract.subject.uuid == uuid then [] else [contract]) + Others(after, uuid)
  {
    OthersConcat(before + [contract], after, uuid);
    OthersConcat(before, [contract], uuid);
    assert [contract][..0] == [];
  }
}
