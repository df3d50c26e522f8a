/** Foundation's key order told of the keys themselves: runs of digits and single letters, compared from the left. */
module KeyPieces {
  import opened Prelude
  import opened Text
  import opened KeyOrder
  import opened JsonText

  // ---- The pieces of a key ----

  predicate IsRun(p: string) {
    p != "" && AllDigits(p)
  }

  predicate IsLetter(p: string) {
    |p| == 1 && !IsDigit(p[0])
  }

  /** Whole runs of digits and single other characters, one after another. */
  predicate Pieces(ps: seq<string>) {
    && (forall i :: 0 <= i < |ps| ==> IsRun(ps[i]) || IsLetter(ps[i]))
    && (forall i :: 0 <= i < |ps| - 1 ==> !(IsRun(ps[i]) && IsRun(ps[i + 1])))
  }

  /** A run counts as its number, just above the character "0"; a letter as what it folds to. */
  function Weight(p: string, fold: char -> char): (int, int)
    requires IsRun(p) || IsLetter(p)
  {
    if IsRun(p) then ('0' as int, 1 + NumberOf(p)) else (fold(p[0]) as int, 0)
  }

  predicate Lighter(a: (int, int), b: (int, int)) {
    a.0 < b.0 || (a.0 == b.0 && a.1 < b.1)
  }

  function TokenOf(p: string): Token
    requires IsRun(p) || IsLetter(p)
  {
    if IsRun(p) then Digits(p) else Letter(p[0])
  }

  function TokensOf(ps: seq<string>): (ts: seq<Token>)
    requires Pieces(ps)
    ensures |ts| == |ps| && forall i :: 0 <= i < |ts| ==> ts[i] == TokenOf(ps[i])
  {
    seq(|ps|, i requires 0 <= i < |ps| => TokenOf(ps[i]))
  }

  lemma {:induction false} RunLength(p: string, rest: string)
    requires AllDigits(p) && (rest == "" || !IsDigit(rest[0]))
    ensures DigitRun(p + rest) == |p|
  {
    if p == "" {
      assert p + rest == rest;
    } else {
      assert (p + rest)[1..] == p[1..] + rest;
      RunLength(p[1..], rest);
    }
  }

  lemma FlatStart(ps: seq<string>)
    requires Pieces(ps) && ps != []
    ensures Flat(ps) != "" && Flat(ps)[0] == ps[0][0] && (IsDigit(ps[0][0]) <==> IsRun(ps[0]))
  {
  }

  /** A key is cut into its pieces, and there is one way to. */
  lemma {:induction false} PiecesCut(ps: seq<string>)
    requires Pieces(ps)
    ensures Tokens(Flat(ps)) == TokensOf(ps)
    decreases |ps|
  {
    if ps != [] {
      var p, rest := ps[0], Flat(ps[1..]);
      FlatStart(ps);
      assert Pieces(ps[1..]);
      PiecesCut(ps[1..]);
      assert TokensOf(ps) == [TokenOf(p)] + TokensOf(ps[1..]);
      assert (p + rest)[..|p|] == p && (p + rest)[|p|..] == rest;
      if IsRun(p) {
        if |ps| > 1 {
          FlatStart(ps[1..]);
        }
        RunLength(p, rest);
      }
    }
  }

  // ---- The order ----

  /** At i, and nowhere before, the two differ in weight, or one has ended. */
  predicate PartAt(ps: seq<string>, qs: seq<string>, fold: char -> char, i: nat)
    requires Pieces(ps) && Pieces(qs)
  {
    && i <= |ps| && i <= |qs| && (forall j :: 0 <= j < i ==> Weight(ps[j], fold) == Weight(qs[j], fold))
    && (i < |ps| && i < |qs| ==> Weight(ps[i], fold) != Weight(qs[i], fold))
  }

  /**
   * Keys are compared at the first pieces that differ in number or folded letter; where there are none the one with
   * fewer pieces comes first, and those alike in all pieces go by code point.
   */
  lemma {:induction false} ComparedByPieces(a: string, b: string, ps: seq<string>, qs: seq<string>, fold: char -> char, i: nat)
    requires FoldsApart(fold) && Pieces(ps) && Pieces(qs) && a == Flat(ps) && b == Flat(qs) && PartAt(ps, qs, fold, i)
    ensures CompareFoundationKeys(a, b, fold) ==
            if i < |ps| && i < |qs| then (if Lighter(Weight(ps[i], fold), Weight(qs[i], fold)) then -1 else 1)
            else if |ps| != |qs| then (if |ps| < |qs| then -1 else 1)
            else CompareText(a, b)
  {
    PiecesCut(ps);
    PiecesCut(qs);
    ListsCompared(ps, qs, fold, i);
  }

  lemma {:induction false} ListsCompared(ps: seq<string>, qs: seq<string>, fold: char -> char, i: nat)
    requires FoldsApart(fold) && Pieces(ps) && Pieces(qs) && PartAt(ps, qs, fold, i)
    ensures CompareTokenLists(TokensOf(ps), TokensOf(qs), fold) ==
            if i < |ps| && i < |qs| then (if Lighter(Weight(ps[i], fold), Weight(qs[i], fold)) then -1 else 1)
            else if |ps| != |qs| then (if |ps| < |qs| then -1 else 1)
            else 0
    decreases |ps|
  {
    if ps != [] && qs != [] {
      FirstsCompared(ps[0], qs[0], fold);
      TailOf(ps);
      TailOf(qs);
      if i > 0 {
        TailParts(ps, qs, fold, i);
        ListsCompared(ps[1..], qs[1..], fold, i - 1);
      }
      hide CompareTokens;
      hide Weight;
      hide TokenOf;
      hide Pieces;
    }
  }

  lemma FirstsCompared(p: string, q: string, fold: char -> char)
    requires FoldsApart(fold) && (IsRun(p) || IsLetter(p)) && (IsRun(q) || IsLetter(q))
    ensures CompareTokens(TokenOf(p), TokenOf(q), fold) ==
            if Weight(p, fold) == Weight(q, fold) then 0 else if Lighter(Weight(p, fold), Weight(q, fold)) then -1 else 1
  {
    CompareTokensByRank(TokenOf(p), TokenOf(q), fold);
    hide CompareTokens;
    hide NumberOf;
  }

  lemma TailParts(ps: seq<string>, qs: seq<string>, fold: char -> char, i: nat)
    requires Pieces(ps) && Pieces(qs) && ps != [] && qs != [] && Pieces(ps[1..]) && Pieces(qs[1..]) && 0 < i && PartAt(ps, qs, fold, i)
    ensures PartAt(ps[1..], qs[1..], fold, i - 1)
  {
    hide Weight;
    hide Pieces;
    assert forall j :: 0 <= j < i - 1 ==> ps[1..][j] == ps[j + 1] && qs[1..][j] == qs[j + 1];
  }

  lemma TailOf(ps: seq<string>)
    requires Pieces(ps) && ps != []
    ensures Pieces(ps[1..]) && TokensOf(ps)[1..] == TokensOf(ps[1..])
  {
  }

  // ---- Every key has pieces, and every two part somewhere ----

  lemma {:induction false} PiecesThere(key: string) returns (ps: seq<string>)
    ensures Pieces(ps) && Flat(ps) == key
    decreases |key|
  {
    if key == "" {
      ps := [];
    } else {
      var n := if IsDigit(key[0]) then DigitRun(key) else 1;
      var rest := PiecesThere(key[n..]);
      ps := [key[..n]] + rest;
      assert ps[1..] == rest && key == key[..n] + key[n..];
      RunEnds(key);
      if rest != [] {
        FlatStart(rest);
      }
    }
  }

  /** A run of digits ends where the text does or something else stands. */
  lemma {:induction false} RunEnds(key: string)
    ensures DigitRun(key) <= |key| && AllDigits(key[..DigitRun(key)])
    ensures DigitRun(key) < |key| ==> !IsDigit(key[DigitRun(key)])
    ensures key != "" && IsDigit(key[0]) ==> DigitRun(key) > 0
  {
    if key != "" && IsDigit(key[0]) {
      RunEnds(key[1..]);
    }
  }

  lemma PartThere(ps: seq<string>, qs: seq<string>, fold: char -> char) returns (i: nat)
    requires Pieces(ps) && Pieces(qs)
    ensures PartAt(ps, qs, fold, i)
  {
    hide NumberOf;
    i := 0;
    while i < |ps| && i < |qs| && Weight(ps[i], fold) == Weight(qs[i], fold)
      invariant i <= |ps| && i <= |qs| && forall j :: 0 <= j < i ==> Weight(ps[j], fold) == Weight(qs[j], fold)
    {
      i := i + 1;
    }
  }
}
