/** The two orders on path names of eden/common/utils/PathFuncs.h and the two equalities that go
    with them.  A name is its bytes; `char` is signed, as on x86. */
module PathOrder {

  type Name = seq<bv8>

  datatype CaseSensitivity = Sensitive | Insensitive

  function ToLower(c: bv8): bv8 {
    if 65 <= c && c <= 90 then c + 32 else c
  }

  /** `<` on signed bytes. */
  predicate SignedLess(a: bv8, b: bv8) {
    if (a >= 128) != (b >= 128) then a >= 128 else a < b
  }

  predicate CharLess(a: bv8, b: bv8, cs: CaseSensitivity) {
    if cs.Sensitive? then a < b else SignedLess(ToLower(a), ToLower(b))
  }

  /** folly::AsciiCaseInsensitive decides from the bits, without lowering either side. */
  predicate CharEqual(a: bv8, b: bv8, cs: CaseSensitivity) {
    if cs.Sensitive? then a == b else (a ^ b) == 0 || ((a ^ b) == 32 && 97 <= (a | b) && (a | b) <= 122)
  }

  /** isPathPieceLess(). */
  predicate Less(a: Name, b: Name, cs: CaseSensitivity) {
    b != [] && (a == [] || CharLess(a[0], b[0], cs) || (!CharLess(b[0], a[0], cs) && Less(a[1..], b[1..], cs)))
  }

  /** isPathPieceEqual(). */
  predicate Equal(a: Name, b: Name, cs: CaseSensitivity) {
    |a| == |b| && forall i :: 0 <= i < |a| ==> CharEqual(a[i], b[i], cs)
  }

  // ----- every name has a folded form, and both relations are about folded forms -----

  /** The byte's position in the order. */
  function Rank(c: bv8, cs: CaseSensitivity): bv8 {
    if cs.Sensitive? then c else ToLower(c) ^ 128
  }

  function Fold(name: Name, cs: CaseSensitivity): (r: seq<bv8>)
    ensures |r| == |name|
    ensures forall i :: 0 <= i < |name| ==> r[i] == Rank(name[i], cs)
  {
    seq(|name|, i requires 0 <= i < |name| => Rank(name[i], cs))
  }

  predicate Lex(x: seq<bv8>, y: seq<bv8>) {
    y != [] && (x == [] || x[0] < y[0] || (x[0] == y[0] && Lex(x[1..], y[1..])))
  }

  lemma CharEqualIsRank(a: bv8, b: bv8, cs: CaseSensitivity)
    ensures CharEqual(a, b, cs) <==> Rank(a, cs) == Rank(b, cs)
  {
  }

  lemma CharLessIsRank(a: bv8, b: bv8, cs: CaseSensitivity)
    ensures CharLess(a, b, cs) <==> Rank(a, cs) < Rank(b, cs)
  {
  }

  lemma {:induction false} LessIsLex(a: Name, b: Name, cs: CaseSensitivity)
    ensures Less(a, b, cs) <==> Lex(Fold(a, cs), Fold(b, cs))
  {
    hide CharLess, Rank;
    if a != [] && b != [] {
      CharLessIsRank(a[0], b[0], cs);
      CharLessIsRank(b[0], a[0], cs);
      LessIsLex(a[1..], b[1..], cs);
      assert Fold(a, cs)[1..] == Fold(a[1..], cs) && Fold(b, cs)[1..] == Fold(b[1..], cs);
    }
  }

  lemma EqualIsFold(a: Name, b: Name, cs: CaseSensitivity)
    ensures Equal(a, b, cs) <==> Fold(a, cs) == Fold(b, cs)
  {
    hide CharEqual, Rank;
    if |a| == |b| {
      forall i | 0 <= i < |a| ensures CharEqual(a[i], b[i], cs) <==> Fold(a, cs)[i] == Fold(b, cs)[i] {
        CharEqualIsRank(a[i], b[i], cs);
      }
    }
  }

  lemma {:induction false} LexTotal(x: seq<bv8>, y: seq<bv8>)
    ensures !Lex(x, x)
    ensures x == y || Lex(x, y) || Lex(y, x)
    ensures !(Lex(x, y) && Lex(y, x))
    decreases |x|
  {
    if x != [] {
      LexTotal(x[1..], if y == [] then [] else y[1..]);
      if y != [] && x[0] == y[0] {
        assert x[1..] == y[1..] ==> x == [x[0]] + x[1..] == y;
      }
    }
  }

  lemma {:induction false} LexTransitive(x: seq<bv8>, y: seq<bv8>, z: seq<bv8>)
    requires Lex(x, y) && Lex(y, z)
    ensures Lex(x, z)
  {
    if x != [] && x[0] == y[0] && y[0] == z[0] {
      LexTransitive(x[1..], y[1..], z[1..]);
    }
  }

  /** The names that are neither before nor after each other are exactly the equal ones, so a search
      by order finds what a comparison by equality would. */
  lemma EqualIffIncomparable(a: Name, b: Name, cs: CaseSensitivity)
    ensures Equal(a, b, cs) <==> !Less(a, b, cs) && !Less(b, a, cs)
    ensures !(Less(a, b, cs) && Less(b, a, cs))
    ensures Equal(a, b, cs) <==> Fold(a, cs) == Fold(b, cs)
  {
    LessIsLex(a, b, cs);
    LessIsLex(b, a, cs);
    EqualIsFold(a, b, cs);
    LexTotal(Fold(a, cs), Fold(b, cs));
  }

  /** A strict weak order: transitive, and equal names are interchangeable in it. */
  lemma StrictWeakOrder(a: Name, b: Name, c: Name, cs: CaseSensitivity)
    ensures Less(a, b, cs) && Less(b, c, cs) ==> Less(a, c, cs)
    ensures Equal(a, b, cs) ==> (Less(a, c, cs) <==> Less(b, c, cs)) && (Less(c, a, cs) <==> Less(c, b, cs))
    ensures Less(a, b, cs) && !Less(c, b, cs) ==> Less(a, c, cs)
    ensures !Less(b, a, cs) && Less(b, c, cs) ==> Less(a, c, cs)
  {
    LessIsLex(a, b, cs);
    LessIsLex(b, a, cs);
    LessIsLex(b, c, cs);
    LessIsLex(a, c, cs);
    LessIsLex(c, a, cs);
    LessIsLex(c, b, cs);
    EqualIsFold(a, b, cs);
    var x, y, z := Fold(a, cs), Fold(b, cs), Fold(c, cs);
    LexTotal(x, y);
    LexTotal(y, z);
    if Lex(x, y) && Lex(y, z) { LexTransitive(x, y, z); }
  }

  // ----- which of two names comes first -----

  /** The byte as the comparison sees it: unsigned, or lowered and signed. */
  function Value(c: bv8, cs: CaseSensitivity): int {
    if cs.Sensitive? then c as int
    else
      var low := if 65 <= c as int <= 90 then c as int + 32 else c as int;
      if low < 128 then low else low - 256
  }

  lemma UnsignedLess(a: bv8, b: bv8)
    ensures a < b <==> a as int < b as int
  {
  }

  lemma UpperHalf(c: bv8)
    ensures c < 128 <==> c as int < 128
    ensures 65 <= c <= 90 <==> 65 <= c as int <= 90
    ensures 65 <= c <= 90 ==> (c + 32) as int == c as int + 32
  {
  }

  function Signed(c: bv8): int {
    if c < 128 then c as int else c as int - 256
  }

  lemma SignedLessIsValue(a: bv8, b: bv8)
    ensures SignedLess(a, b) <==> Signed(a) < Signed(b)
  {
    UnsignedLess(a, b);
    InByte(a);
    InByte(b);
  }

  lemma LowerIsValue(c: bv8)
    ensures Value(c, Insensitive) == Signed(ToLower(c))
  {
    UpperHalf(c);
    UpperHalf(ToLower(c));
  }

  lemma CharLessIsValue(a: bv8, b: bv8, cs: CaseSensitivity)
    ensures CharLess(a, b, cs) <==> Value(a, cs) < Value(b, cs)
  {
    if cs.Sensitive? {
      UnsignedLess(a, b);
    } else {
      hide Signed, SignedLess, ToLower;
      LowerIsValue(a);
      LowerIsValue(b);
      SignedLessIsValue(ToLower(a), ToLower(b));
    }
  }

  lemma InByte(c: bv8)
    ensures 0 <= c as int < 256
  {
  }

  predicate SameUpTo(a: Name, b: Name, k: nat, cs: CaseSensitivity)
    requires k <= |a| && k <= |b|
  {
    forall i :: 0 <= i < k ==> Value(a[i], cs) == Value(b[i], cs)
  }

  predicate FirstDifference(a: Name, b: Name, k: nat, cs: CaseSensitivity) {
    k <= |a| && k < |b| && SameUpTo(a, b, k, cs) && (k == |a| || Value(a[k], cs) < Value(b[k], cs))
  }

  /** One name is less than another exactly when it is a proper first part of it, or has the smaller byte
      where they first differ. */
  lemma {:induction false} LessAtFirstDifference(a: Name, b: Name, cs: CaseSensitivity)
    ensures Less(a, b, cs) <==> exists k: nat :: k < |b| && FirstDifference(a, b, k, cs)
  {
    hide Value, CharLess;
    if b == [] {
    } else if a == [] {
      assert FirstDifference(a, b, 0, cs);
    } else {
      CharLessIsValue(a[0], b[0], cs);
      CharLessIsValue(b[0], a[0], cs);
      LessAtFirstDifference(a[1..], b[1..], cs);
      var x, y := Value(a[0], cs), Value(b[0], cs);
      if x < y {
        assert FirstDifference(a, b, 0, cs);
      } else if x == y {
        forall k: nat | 0 < k <= |b| ensures FirstDifference(a, b, k, cs) <==> FirstDifference(a[1..], b[1..], k - 1, cs) {
          DifferenceBehind(a, b, k, cs);
        }
        if k: nat :| k < |b| - 1 && FirstDifference(a[1..], b[1..], k, cs) {
          assert FirstDifference(a, b, k + 1, cs);
        }
        if k: nat :| k < |b| && FirstDifference(a, b, k, cs) {
          assert FirstDifference(a[1..], b[1..], k - 1, cs);
        }
      } else {
        forall k: nat | k < |b| ensures !FirstDifference(a, b, k, cs) {
          assert FirstDifference(a, b, k, cs) ==> x <= y;
        }
      }
    }
  }

  lemma DifferenceBehind(a: Name, b: Name, k: nat, cs: CaseSensitivity)
    requires a != [] && b != [] && k > 0 && Value(a[0], cs) == Value(b[0], cs)
    ensures FirstDifference(a, b, k, cs) <==> FirstDifference(a[1..], b[1..], k - 1, cs)
  {
    hide Value;
    if k <= |a| && k < |b| && SameUpTo(a[1..], b[1..], k - 1, cs) {
      forall i | 1 <= i < k ensures Value(a[i], cs) == Value(b[i], cs) {
        assert a[i] == a[1..][i - 1] && b[i] == b[1..][i - 1];
      }
    }
  }
}
