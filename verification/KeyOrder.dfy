/** The two object-key orders: Foundation's numeric, case-folding one and plain code points. */
module KeyOrder {
  import opened Prelude
  import opened Text

  datatype Token = Digits(text: string) | Letter(c: char)

  predicate IsDigit(c: char) {
    '0' <= c <= '9'
  }

  predicate AllDigits(s: string) {
    forall i :: 0 <= i < |s| ==> IsDigit(s[i])
  }

  function DigitRun(s: string): (n: nat)
    ensures n <= |s| && AllDigits(s[..n]) && (n < |s| ==> !IsDigit(s[n]))
  {
    if s != "" && IsDigit(s[0]) then
      var m := DigitRun(s[1..]);
      assert s[..m + 1] == [s[0]] + s[1..][..m];
      m + 1
    else 0
  }

  function Tokens(key: string): (ts: seq<Token>)
    ensures forall t :: t in ts ==> WellFormed(t)
  {
    if key == "" then []
    else if IsDigit(key[0]) then
      var n := DigitRun(key);
      [Digits(key[..n])] + Tokens(key[n..])
    else [Letter(key[0])] + Tokens(key[1..])
  }

  predicate WellFormed(t: Token) {
    match t
    case Digits(text) => text != "" && AllDigits(text)
    case Letter(c) => !IsDigit(c)
  }

  method Tokenize(key: string) returns (tokens: seq<Token>)
    ensures tokens == Tokens(key)
  {
    hide DigitRun;
    tokens := [];
    var i := 0;
    assert key[0..] == key;
    assert key[|key|..] == "" && Tokens("") == [];
    hide Tokens;
    while i < |key|
      invariant i <= |key|
      invariant tokens + Tokens(key[i..]) == Tokens(key)
    {
      var r := key[i];
      if IsDigit(r) {
        var j := i;
        DigitRunAt(key, j);
        while j < |key| && IsDigit(key[j])
          invariant i <= j <= |key|
          invariant j - i + DigitRun(key[j..]) == DigitRun(key[i..])
        {
          DigitRunAt(key, j);
          j := j + 1;
        }
        DigitRunAt(key, j);
        DigitsAt(key, i, j);
        OneFurther(tokens, Digits(key[i..j]), Tokens(key[j..]));
        tokens := tokens + [Digits(key[i..j])];
        i := j;
      } else {
        LetterAt(key, i);
        OneFurther(tokens, Letter(r), Tokens(key[i + 1..]));
        tokens := tokens + [Letter(r)];
        i := i + 1;
      }
    }
  }

  lemma DigitRunAt(key: string, j: nat)
    requires j <= |key|
    ensures DigitRun(key[j..]) == if j < |key| && IsDigit(key[j]) then 1 + DigitRun(key[j + 1..]) else 0
  {
    if j < |key| {
      assert key[j..][1..] == key[j + 1..];
    }
  }

  lemma DigitsAt(key: string, i: nat, j: nat)
    requires i < j <= |key| && IsDigit(key[i]) && DigitRun(key[i..]) == j - i
    ensures Tokens(key[i..]) == [Digits(key[i..j])] + Tokens(key[j..])
  {
    hide DigitRun;
    assert key[i..][..j - i] == key[i..j] && key[i..][j - i..] == key[j..];
  }

  lemma LetterAt(key: string, i: nat)
    requires i < |key| && !IsDigit(key[i])
    ensures Tokens(key[i..]) == [Letter(key[i])] + Tokens(key[i + 1..])
  {
    assert key[i..][1..] == key[i + 1..];
  }

  lemma OneFurther(before: seq<Token>, t: Token, rest: seq<Token>)
    ensures before + ([t] + rest) == before + [t] + rest
  {
  }

  function TrimZeros(s: string): (r: string)
    ensures |r| <= |s|
  {
    if s != "" && s[0] == '0' then TrimZeros(s[1..]) else s
  }

  function CompareDigits(a: string, b: string): int {
    var x, y := TrimZeros(a), TrimZeros(b);
    if |x| != |y| then (if |x| < |y| then -1 else 1) else CompareText(x, y)
  }

  function First(t: Token, fold: char -> char): char {
    if t.Digits? then (if t.text == "" then '0' else t.text[0]) else fold(t.c)
  }

  function CompareTokens(a: Token, b: Token, fold: char -> char): int {
    if a.Digits? && b.Digits? then CompareDigits(a.text, b.text)
    else
      var c := CompareText([First(a, fold)], [First(b, fold)]);
      if c != 0 then c
      else if a.Digits? != b.Digits? then (if a.Digits? then 1 else -1)
      else 0
  }

  function CompareTokenLists(a: seq<Token>, b: seq<Token>, fold: char -> char): int {
    if a == [] then (if b == [] then 0 else -1)
    else if b == [] then 1
    else
      var c := CompareTokens(a[0], b[0], fold);
      if c != 0 then c else CompareTokenLists(a[1..], b[1..], fold)
  }

  function CompareFoundationKeys(left: string, right: string, fold: char -> char): int {
    var c := CompareTokenLists(Tokens(left), Tokens(right), fold);
    if c != 0 then c else CompareText(left, right)
  }

  // ---- Digit runs compare as numbers ----

  function Pow10(n: nat): nat {
    if n == 0 then 1 else 10 * Pow10(n - 1)
  }

  function DigitOf(c: char): (d: nat)
    requires IsDigit(c)
    ensures d <= 9
  {
    c as int - '0' as int
  }

  function NumberOf(s: string): nat
    requires AllDigits(s)
  {
    if s == "" then 0 else DigitOf(s[0]) * Pow10(|s| - 1) + NumberOf(s[1..])
  }

  function Sign(n: int): int {
    if n < 0 then -1 else if n > 0 then 1 else 0
  }

  lemma StepUp(x: int, y: int, p: nat)
    requires x < y
    ensures x * p + p <= y * p
  {
    assert (y - x - 1) * p >= 0;
  }

  lemma {:induction false} NumberBound(s: string)
    requires AllDigits(s)
    ensures NumberOf(s) < Pow10(|s|)
  {
    if s != "" {
      NumberBound(s[1..]);
      StepUp(DigitOf(s[0]), 10, Pow10(|s| - 1));
    }
  }

  lemma {:induction false} NumberTrimmed(s: string)
    requires AllDigits(s)
    ensures AllDigits(TrimZeros(s)) && NumberOf(TrimZeros(s)) == NumberOf(s)
    ensures TrimZeros(s) != "" ==> NumberOf(s) >= Pow10(|TrimZeros(s)| - 1)
  {
    if s == "" {
    } else if s[0] == '0' {
      NumberTrimmed(s[1..]);
    } else {
      StepUp(0, DigitOf(s[0]), Pow10(|s| - 1));
    }
  }

  lemma {:induction false} Pow10Monotone(m: nat, n: nat)
    requires m <= n
    ensures 1 <= Pow10(m) <= Pow10(n)
  {
    if m < n {
      Pow10Monotone(m, n - 1);
    } else if m > 0 {
      Pow10Monotone(m - 1, n - 1);
    }
  }

  lemma {:induction false} CompareSameLength(a: string, b: string)
    requires AllDigits(a) && AllDigits(b) && |a| == |b|
    ensures CompareText(a, b) == Sign(NumberOf(a) - NumberOf(b))
  {
    if a != "" {
      var x, y := DigitOf(a[0]), DigitOf(b[0]);
      NumberBound(a[1..]);
      NumberBound(b[1..]);
      if x == y {
        CompareSameLength(a[1..], b[1..]);
      } else if x < y {
        StepUp(x, y, Pow10(|a| - 1));
      } else {
        StepUp(y, x, Pow10(|a| - 1));
      }
    }
  }

  /** Trimming zeros and comparing lengths, then text, is comparing the numbers. */
  lemma CompareDigitsIsNumeric(a: string, b: string)
    requires AllDigits(a) && AllDigits(b)
    ensures CompareDigits(a, b) == Sign(NumberOf(a) - NumberOf(b))
  {
    hide NumberOf;
    hide Pow10;
    hide TrimZeros;
    hide AllDigits;
    hide CompareText;
    var x, y := TrimZeros(a), TrimZeros(b);
    NumberTrimmed(a);
    NumberTrimmed(b);
    NumberBound(x);
    NumberBound(y);
    if |x| == |y| {
      CompareSameLength(x, y);
    } else if |x| < |y| {
      Pow10Monotone(|x|, |y| - 1);
    } else {
      Pow10Monotone(|y|, |x| - 1);
    }
  }

  // ---- When the order is one ----

  /** No letter folds into the digits 1 to 9. */
  ghost predicate FoldsApart(fold: char -> char) {
    forall c :: !IsDigit(c) ==> !('1' <= fold(c) <= '9')
  }

  /** Where a token stands: letters by their folded scalar, every number just above '0'. */
  function Rank(t: Token, fold: char -> char): (int, int)
    requires WellFormed(t)
  {
    match t
    case Digits(text) => ('0' as int, 1 + NumberOf(text))
    case Letter(c) => (fold(c) as int, 0)
  }

  function CompareRanks(a: (int, int), b: (int, int)): int {
    if a.0 != b.0 then Sign(a.0 - b.0) else Sign(a.1 - b.1)
  }

  lemma CompareTokensByRank(a: Token, b: Token, fold: char -> char)
    requires FoldsApart(fold) && WellFormed(a) && WellFormed(b)
    ensures CompareTokens(a, b, fold) == CompareRanks(Rank(a, fold), Rank(b, fold))
  {
    if a.Digits? && b.Digits? {
      CompareDigitsIsNumeric(a.text, b.text);
    } else {
      var x, y := First(a, fold), First(b, fold);
      CompareScalars(x, y);
      assert a.Digits? ==> IsDigit(x);
      assert b.Digits? ==> IsDigit(y);
    }
  }

  lemma CompareScalars(x: char, y: char)
    ensures CompareText([x], [y]) == Sign(x as int - y as int)
  {
    assert CompareText("", "") == 0;
  }

  ghost predicate AllWellFormed(ts: seq<Token>) {
    forall t :: t in ts ==> WellFormed(t)
  }

  lemma {:induction false} TokenListsAntisymmetric(a: seq<Token>, b: seq<Token>, fold: char -> char)
    requires FoldsApart(fold) && AllWellFormed(a) && AllWellFormed(b)
    ensures CompareTokenLists(a, b, fold) == -CompareTokenLists(b, a, fold)
  {
    if a != [] && b != [] {
      CompareTokensByRank(a[0], b[0], fold);
      CompareTokensByRank(b[0], a[0], fold);
      TokenListsAntisymmetric(a[1..], b[1..], fold);
    }
  }

  lemma {:induction false} TokenListsTransitive(a: seq<Token>, b: seq<Token>, c: seq<Token>, fold: char -> char)
    requires FoldsApart(fold) && AllWellFormed(a) && AllWellFormed(b) && AllWellFormed(c)
    requires CompareTokenLists(a, b, fold) <= 0 && CompareTokenLists(b, c, fold) <= 0
    ensures CompareTokenLists(a, c, fold) <= 0
    ensures CompareTokenLists(a, c, fold) == 0 ==> CompareTokenLists(a, b, fold) == 0 && CompareTokenLists(b, c, fold) == 0
  {
    if a != [] && b != [] && c != [] {
      CompareTokensByRank(a[0], b[0], fold);
      CompareTokensByRank(b[0], c[0], fold);
      CompareTokensByRank(a[0], c[0], fold);
      if CompareTokens(a[0], b[0], fold) == 0 && CompareTokens(b[0], c[0], fold) == 0 {
        TokenListsTransitive(a[1..], b[1..], c[1..], fold);
      }
    }
  }

  ghost predicate StrictTotalOrder(fold: char -> char) {
    && (forall a, b :: CompareFoundationKeys(a, b, fold) == 0 <==> a == b)
    && (forall a, b :: CompareFoundationKeys(a, b, fold) < 0 <==> CompareFoundationKeys(b, a, fold) > 0)
    && (forall a, b, c :: CompareFoundationKeys(a, b, fold) < 0 && CompareFoundationKeys(b, c, fold) < 0 ==>
          CompareFoundationKeys(a, c, fold) < 0)
  }

  lemma FoundationOrderLaws(a: string, b: string, c: string, fold: char -> char)
    requires FoldsApart(fold)
    ensures CompareFoundationKeys(a, b, fold) == 0 <==> a == b
    ensures CompareFoundationKeys(a, b, fold) == -CompareFoundationKeys(b, a, fold)
    ensures (CompareFoundationKeys(a, b, fold) < 0 && CompareFoundationKeys(b, c, fold) < 0) ==>
              CompareFoundationKeys(a, c, fold) < 0
  {
    CompareTextZero(a, b);
    TokenListsAntisymmetric(Tokens(a), Tokens(b), fold);
    TokenListsAntisymmetric(Tokens(a), Tokens(a), fold);
    if CompareFoundationKeys(a, b, fold) < 0 && CompareFoundationKeys(b, c, fold) < 0 {
      TokenListsTransitive(Tokens(a), Tokens(b), Tokens(c), fold);
      if CompareTokenLists(Tokens(a), Tokens(c), fold) == 0 {
        CompareTextTransitive(a, b, c);
      }
    }
  }

  /** With a letter that folds to a digit d in 1 to 9, "010" < letter < d < "010". */
  lemma FoldedLetterMakesCycle(x: char, fold: char -> char)
    requires !IsDigit(x) && '1' <= fold(x) <= '9'
    ensures CompareFoundationKeys("010", [x], fold) < 0
    ensures CompareFoundationKeys([x], [fold(x)], fold) < 0
    ensures CompareFoundationKeys([fold(x)], "010", fold) < 0
  {
    var d := fold(x);
    SingleTokens(x);
    SingleTokens(d);
    assert "010"[1..] == "10" && "10"[1..] == "0";
    assert DigitRun("0") == 1 && DigitRun("10") == 2 && DigitRun("010") == 3;
    assert "010"[..3] == "010" && "010"[3..] == "";
    assert Tokens("010") == [Digits("010")];
    assert TrimZeros("010") == "10";
    assert TrimZeros([d]) == [d];
    CompareScalars(d, d);
    CompareScalars('0', d);
  }

  lemma SingleTokens(c: char)
    ensures Tokens([c]) == [if IsDigit(c) then Digits([c]) else Letter(c)]
  {
    assert Tokens("") == [];
    if IsDigit(c) {
      assert DigitRun([c]) == 1;
      assert [c][..1] == [c] && [c][1..] == "";
    }
  }

  /** CompareFoundationKeys is a strict total order exactly when no letter folds into 1 to 9. */
  lemma FoundationOrderIff(fold: char -> char)
    ensures StrictTotalOrder(fold) <==> FoldsApart(fold)
  {
    hide CompareFoundationKeys;
    if FoldsApart(fold) {
      forall a, b, c
        ensures CompareFoundationKeys(a, b, fold) == 0 <==> a == b
        ensures CompareFoundationKeys(a, b, fold) < 0 <==> CompareFoundationKeys(b, a, fold) > 0
        ensures CompareFoundationKeys(a, b, fold) < 0 && CompareFoundationKeys(b, c, fold) < 0 ==>
                  CompareFoundationKeys(a, c, fold) < 0
      {
        FoundationOrderLaws(a, b, c, fold);
      }
    } else if StrictTotalOrder(fold) {
      var x :| !IsDigit(x) && '1' <= fold(x) <= '9';
      FoldedLetterMakesCycle(x, fold);
      ThroughMiddle("010", [x], [fold(x)], fold);
    }
  }

  lemma ThroughMiddle(a: string, b: string, c: string, fold: char -> char)
    requires StrictTotalOrder(fold)
    requires CompareFoundationKeys(a, b, fold) < 0 && CompareFoundationKeys(b, c, fold) < 0
    ensures CompareFoundationKeys(c, a, fold) > 0
  {
    assert CompareFoundationKeys(a, c, fold) < 0;
  }

  // ---- SortedKeys ----

  /** Case folding that keeps letters out of 1 to 9, as the Unicode tables do. */
  type Fold = f: char -> char | FoldsApart(f) witness c => c

  datatype Order = CodePoint | Foundation(fold: Fold)

  function Compare(a: string, b: string, order: Order): int {
    match order
    case CodePoint => CompareText(a, b)
    case Foundation(fold) => CompareFoundationKeys(a, b, fold)
  }

  predicate Below(a: string, b: string, order: Order) {
    Compare(a, b, order) < 0
  }

  lemma OrderLaws(a: string, b: string, c: string, order: Order)
    ensures Compare(a, b, order) == 0 <==> a == b
    ensures Compare(a, b, order) == -Compare(b, a, order)
    ensures Below(a, b, order) && Below(b, c, order) ==> Below(a, c, order)
  {
    match order
    case CodePoint =>
      CompareTextZero(a, b);
      if Below(a, b, order) && Below(b, c, order) {
        CompareTextTransitive(a, b, c);
      }
    case Foundation(fold) => FoundationOrderLaws(a, b, c, fold);
  }

  predicate IsLeast(k: string, keys: set<string>, order: Order) {
    k in keys && forall other :: other in keys && other != k ==> Below(k, other, order)
  }

  lemma {:induction false} LeastExists(keys: set<string>, order: Order) returns (k: string)
    requires keys != {}
    ensures IsLeast(k, keys, order)
    decreases |keys|
  {
    var x :| x in keys;
    if keys == {x} {
      k := x;
    } else {
      var rest := keys - {x};
      var m := LeastExists(rest, order);
      OrderLaws(x, m, m, order);
      k := if Below(x, m, order) then x else m;
      forall other | other in keys && other != k
        ensures Below(k, other, order)
      {
        OrderLaws(x, m, other, order);
        OrderLaws(m, x, x, order);
      }
    }
  }

  predicate Sorted(ks: seq<string>, order: Order) {
    forall i, j :: 0 <= i < j < |ks| ==> ks[i] == ks[j] || Below(ks[i], ks[j], order)
  }

  lemma LeastUnique(k: string, l: string, keys: set<string>, order: Order)
    requires IsLeast(k, keys, order) && IsLeast(l, keys, order)
    ensures k == l
  {
    OrderLaws(k, l, l, order);
  }

  /** The keys of an object in writing order. */
  function SortedKeys(keys: set<string>, order: Order): (ks: seq<string>)
    ensures |ks| == |keys|
    ensures forall k :: k in ks <==> k in keys
    decreases |keys|
  {
    if keys == {} then []
    else
      assert exists k :: IsLeast(k, keys, order) by {
        var k := LeastExists(keys, order);
      }
      assert forall k, l :: IsLeast(k, keys, order) && IsLeast(l, keys, order) ==> k == l by {
        forall k, l | IsLeast(k, keys, order) && IsLeast(l, keys, order)
          ensures k == l
        {
          LeastUnique(k, l, keys, order);
        }
      }
      var k :| k in keys && IsLeast(k, keys, order);
      [k] + SortedKeys(keys - {k}, order)
  }

  lemma {:induction false} SortedKeysSorted(keys: set<string>, order: Order)
    ensures Sorted(SortedKeys(keys, order), order)
    ensures multiset(SortedKeys(keys, order)) == multiset(keys)
    decreases |keys|
  {
    if keys != {} {
      SortedKeysStep(keys, order);
      hide SortedKeys;
      hide Below;
      hide Sorted;
      var k := SortedKeys(keys, order)[0];
      SortedKeysSorted(keys - {k}, order);
      SortedAfterLeast(k, SortedKeys(keys - {k}, order), order);
      assert keys == {k} + (keys - {k});
    }
  }

  lemma SortedKeysStep(keys: set<string>, order: Order)
    requires keys != {}
    ensures var ks := SortedKeys(keys, order);
            && ks != [] && IsLeast(ks[0], keys, order) && ks == [ks[0]] + SortedKeys(keys - {ks[0]}, order)
  {
    hide Below;
    hide IsLeast;
  }

  lemma SortedAfterLeast(k: string, rest: seq<string>, order: Order)
    requires Sorted(rest, order) && forall other :: other in rest ==> Below(k, other, order)
    ensures Sorted([k] + rest, order)
  {
    var ks := [k] + rest;
    assert forall j :: 0 < j < |ks| ==> ks[j] == rest[j - 1] && ks[j] in rest;
  }

  lemma HeadsAgree(a: seq<string>, b: seq<string>, order: Order)
    requires a != [] && b != [] && Sorted(a, order) && Sorted(b, order) && a[0] in b && b[0] in a
    ensures a[0] == b[0]
  {
    var i :| 0 <= i < |b| && b[i] == a[0];
    var j :| 0 <= j < |a| && a[j] == b[0];
    OrderLaws(a[0], b[0], b[0], order);
  }

  lemma {:induction false} SortedUnique(a: seq<string>, b: seq<string>, order: Order)
    requires Sorted(a, order) && Sorted(b, order) && multiset(a) == multiset(b)
    ensures a == b
  {
    hide Below;
    assert |a| == |multiset(a)| == |multiset(b)| == |b|;
    if a != [] {
      TailSorted(a, order);
      TailSorted(b, order);
      hide Sorted;
      assert a[0] in multiset(b) && b[0] in multiset(a);
      HeadsAgree(a, b, order);
      TailCounts(a);
      TailCounts(b);
      SortedUnique(a[1..], b[1..], order);
    }
  }

  lemma TailSorted(ks: seq<string>, order: Order)
    requires ks != [] && Sorted(ks, order)
    ensures Sorted(ks[1..], order)
  {
    hide Below;
  }

  lemma TailCounts(ks: seq<string>)
    requires ks != []
    ensures ks == [ks[0]] + ks[1..] && multiset(ks[1..]) == multiset(ks) - multiset{ks[0]}
  {
    assert ks == [ks[0]] + ks[1..];
  }

  lemma InsertedSorted(ks: seq<string>, key: string, i: nat, order: Order)
    requires i <= |ks| && Sorted(ks, order)
    requires forall j :: i <= j < |ks| ==> Below(key, ks[j], order)
    requires i == 0 || !Below(key, ks[i - 1], order)
    ensures Sorted(ks[..i] + [key] + ks[i..], order)
  {
    var out := ks[..i] + [key] + ks[i..];
    forall j, m | 0 <= j < m < |out|
      ensures out[j] == out[m] || Below(out[j], out[m], order)
    {
      if m == i {
        OrderLaws(ks[i - 1], key, key, order);
        OrderLaws(ks[j], ks[i - 1], key, order);
      } else {
        var x, y := if j < i then j else j - 1, if m < i then m else m - 1;
        assert out[m] == ks[y] && (j != i ==> out[j] == ks[x]);
      }
    }
  }

  method InsertKey(ks: seq<string>, key: string, order: Order) returns (out: seq<string>)
    requires Sorted(ks, order)
    ensures Sorted(out, order) && multiset(out) == multiset(ks) + multiset{key}
  {
    var i := |ks|;
    while i > 0 && Below(key, ks[i - 1], order)
      invariant 0 <= i <= |ks|
      invariant forall j :: i <= j < |ks| ==> Below(key, ks[j], order)
    {
      i := i - 1;
    }
    InsertedSorted(ks, key, i, order);
    assert ks == ks[..i] + ks[i..];
    out := ks[..i] + [key] + ks[i..];
  }

  /** The stable sort both key orders use; any two lists of the same keys come out alike. */
  method SortKeys(keys: seq<string>, order: Order) returns (out: seq<string>)
    ensures Sorted(out, order) && multiset(out) == multiset(keys)
    ensures forall s: set<string> :: multiset(s) == multiset(keys) ==> out == SortedKeys(s, order)
  {
    out := [];
    for i := 0 to |keys|
      invariant Sorted(out, order) && multiset(out) == multiset(keys[..i])
    {
      assert keys[..i + 1] == keys[..i] + [keys[i]];
      out := InsertKey(out, keys[i], order);
    }
    assert keys[..|keys|] == keys;
    forall s: set<string> | multiset(s) == multiset(keys)
      ensures out == SortedKeys(s, order)
    {
      SortedKeysSorted(s, order);
      SortedUnique(out, SortedKeys(s, order), order);
    }
  }

  /** Whatever order a map yields its keys in, the written order is the same. */
  lemma SortedKeysUnique(keys: set<string>, order: Order, ks: seq<string>)
    ensures ks == SortedKeys(keys, order) <==> (Sorted(ks, order) && multiset(ks) == multiset(keys))
  {
    SortedKeysSorted(keys, order);
    if Sorted(ks, order) && multiset(ks) == multiset(keys) {
      SortedUnique(ks, SortedKeys(keys, order), order);
    }
  }
}
