/** The two case-insensitive string comparisons of c++/test_lexicographical_compare.cc,
    for an arbitrary case-fold function in place of the locale's `tolower`. */
module CiCompare {

  type Fold = char -> int

  predicate CiCharLess(fold: Fold, c1: char, c2: char) {
    fold(c1) < fold(c2)
  }

  /** `std::lexicographical_compare` with `CiCharLess` as the order. */
  predicate LexicographicalCompare(fold: Fold, s1: string, s2: string) {
    if s2 == [] then false
    else if s1 == [] then true
    else if CiCharLess(fold, s1[0], s2[0]) then true
    else if CiCharLess(fold, s2[0], s1[0]) then false
    else LexicographicalCompare(fold, s1[1..], s2[1..])
  }

  predicate CiStringCompare(fold: Fold, s1: string, s2: string) {
    LexicographicalCompare(fold, s1, s2)
  }

  function CiCharCompare(fold: Fold, c1: char, c2: char): int {
    if fold(c1) < fold(c2) then -1
    else if fold(c1) > fold(c2) then 1
    else 0
  }

  /** `std::mismatch` under "compares equal": how far the two ranges agree. It walks the whole
      first range, so the second must not be shorter. */
  function Mismatch(fold: Fold, s1: string, s2: string): (k: nat)
    requires |s1| <= |s2|
    ensures k <= |s1|
    ensures forall i :: 0 <= i < k ==> fold(s1[i]) == fold(s2[i])
    ensures k < |s1| ==> fold(s1[k]) != fold(s2[k])
  {
    if s1 == [] || CiCharCompare(fold, s1[0], s2[0]) != 0 then 0
    else 1 + Mismatch(fold, s1[1..], s2[1..])
  }

  function CiStringCompareImpl(fold: Fold, s1: string, s2: string): int
    requires |s1| <= |s2|
  {
    var k := Mismatch(fold, s1, s2);
    if k == |s1| then
      if k == |s2| then 0 else -1
    else
      CiCharCompare(fold, s1[k], s2[k])
  }

  function CiStringCompare2(fold: Fold, s1: string, s2: string): int {
    if |s1| <= |s2| then CiStringCompareImpl(fold, s1, s2)
    else -CiStringCompareImpl(fold, s2, s1)
  }

  /** Peeling one pair of characters off both strings. */
  lemma CompareUnfolds(fold: Fold, s1: string, s2: string)
    ensures s1 == [] || s2 == [] ==>
      CiStringCompare2(fold, s1, s2) == if |s1| == |s2| then 0 else if s1 == [] then -1 else 1
    ensures s1 != [] && s2 != [] ==>
      CiStringCompare2(fold, s1, s2) ==
        if fold(s1[0]) != fold(s2[0]) then CiCharCompare(fold, s1[0], s2[0])
        else CiStringCompare2(fold, s1[1..], s2[1..])
  {
  }

  /** The boolean order and the three-way order are the same order. */
  lemma {:induction false} ComparatorsAgree(fold: Fold, s1: string, s2: string)
    ensures CiStringCompare(fold, s1, s2) <==> CiStringCompare2(fold, s1, s2) < 0
    decreases |s1|
  {
    CompareUnfolds(fold, s1, s2);
    if s1 != [] && s2 != [] {
      ComparatorsAgree(fold, s1[1..], s2[1..]);
    }
  }

  /** The strings agree up to position `k`, and there the first one has ended or has the smaller character. */
  predicate LessAt(fold: Fold, s1: string, s2: string, k: nat) {
    && k <= |s1| && k < |s2| && (forall i :: 0 <= i < k ==> fold(s1[i]) == fold(s2[i]))
    && (k == |s1| || fold(s1[k]) < fold(s2[k]))
  }

  /** What the order means. */
  lemma LessMeans(fold: Fold, s1: string, s2: string)
    ensures CiStringCompare2(fold, s1, s2) < 0 <==> exists k: nat :: LessAt(fold, s1, s2, k)
  {
    var m := if |s1| <= |s2| then Mismatch(fold, s1, s2) else Mismatch(fold, s2, s1);
    assert m < |s1| && m < |s2| ==> fold(s1[m]) != fold(s2[m]);
    assert forall k: nat :: LessAt(fold, s1, s2, k) ==> k == m;
    assert CiStringCompare2(fold, s1, s2) < 0 <==> LessAt(fold, s1, s2, m);
  }

  /** The length-based swap of the arguments does not show. */
  lemma Antisymmetric(fold: Fold, s1: string, s2: string)
    ensures CiStringCompare2(fold, s1, s2) == -CiStringCompare2(fold, s2, s1)
    ensures CiStringCompare2(fold, s1, s2) in {-1, 0, 1}
  {
  }

  predicate FoldEqual(fold: Fold, s1: string, s2: string) {
    |s1| == |s2| && forall i :: 0 <= i < |s1| ==> fold(s1[i]) == fold(s2[i])
  }

  lemma ZeroIffFoldEqual(fold: Fold, s1: string, s2: string)
    ensures CiStringCompare2(fold, s1, s2) == 0 <==> FoldEqual(fold, s1, s2)
  {
  }

  lemma {:induction false} Transitive(fold: Fold, s1: string, s2: string, s3: string)
    requires CiStringCompare2(fold, s1, s2) <= 0 && CiStringCompare2(fold, s2, s3) <= 0
    ensures CiStringCompare2(fold, s1, s3) <= 0
    ensures CiStringCompare2(fold, s1, s3) == 0 ==>
      CiStringCompare2(fold, s1, s2) == 0 && CiStringCompare2(fold, s2, s3) == 0
    decreases |s1|
  {
    CompareUnfolds(fold, s1, s2);
    CompareUnfolds(fold, s2, s3);
    CompareUnfolds(fold, s1, s3);
    if s1 != [] && s2 != [] && s3 != [] && fold(s1[0]) == fold(s2[0]) == fold(s3[0]) {
      Transitive(fold, s1[1..], s2[1..], s3[1..]);
    }
  }
}
