/** The two integer-level rules of actividad3.cpp: the class flags of a digit (even, odd, prime,
    composite) and nearest-pattern recognition against the ten 7x5 reference digits. Cells are
    reals: the source compares doubles for exact equality, and its patterns hold only 0 and 1. */
module Digitos {

  /** C++'s % on int, which truncates toward zero: the remainder takes the dividend's sign. */
  function CRem(a: int, b: int): (r: int)
    requires b > 0
    ensures a >= 0 ==> 0 <= r < b
    ensures a < 0 ==> -b < r <= 0
  {
    if a >= 0 then a % b else -((-a) % b)
  }

  predicate Divides(k: int, n: int)
    requires k > 0
  {
    n % k == 0
  }

  /** n is prime: at least 2 and with no divisor strictly between 1 and n. */
  predicate IsPrime(n: int) {
    n >= 2 && forall k :: 2 <= k < n ==> !Divides(k, n)
  }

  predicate IsComposite(n: int) {
    n >= 2 && !IsPrime(n)
  }

  /** The digit lists the source hard-codes are the primes and the composites below ten. */
  lemma {:induction false} SmallPrimes(n: int)
    requires 0 <= n <= 9
    ensures IsPrime(n) <==> n in {2, 3, 5, 7}
    ensures IsComposite(n) <==> n in {4, 6, 8, 9}
  {
    if n in {4, 6, 8} {
      assert Divides(2, n);
    } else if n == 9 {
      assert Divides(3, n);
    } else if n in {2, 3, 5, 7} {
      forall k | 2 <= k < n ensures !Divides(k, n) {
        assert k in {2, 3, 4, 5, 6};
      }
    }
  }

  /** obtenerClasesObjetivo (actividad3.cpp:289-305): four flags, each 0.0 or 1.0. */
  method ObtenerClasesObjetivo(digito: int) returns (clases: seq<real>)
    ensures |clases| == 4
    ensures forall c :: 0 <= c < 4 ==> clases[c] == 0.0 || clases[c] == 1.0
    ensures clases[0] == 1.0 <==> CRem(digito, 2) == 0
    ensures clases[1] == 1.0 <==> CRem(digito, 2) == 1
    ensures clases[2] == 1.0 <==> digito in {2, 3, 5, 7}
    ensures clases[3] == 1.0 <==> digito in {4, 6, 8, 9}
    ensures 0 <= digito ==> (clases[0] == 1.0 <==> digito % 2 == 0) && (clases[1] == 1.0 <==> digito % 2 == 1)
    ensures digito < 0 && digito % 2 == 1 ==> clases[0] == 0.0 && clases[1] == 0.0
    ensures 0 <= digito <= 9 ==> (clases[2] == 1.0 <==> IsPrime(digito)) && (clases[3] == 1.0 <==> IsComposite(digito))
    ensures !(clases[2] == 1.0 && clases[3] == 1.0)
    ensures digito in {0, 1} ==> clases[2] == 0.0 && clases[3] == 0.0
  {
    clases := [0.0, 0.0, 0.0, 0.0];
    if CRem(digito, 2) == 0 {
      clases := clases[0 := 1.0];
    }
    if CRem(digito, 2) == 1 {
      clases := clases[1 := 1.0];
    }
    if digito == 2 || digito == 3 || digito == 5 || digito == 7 {
      clases := clases[2 := 1.0];
    }
    if digito == 4 || digito == 6 || digito == 8 || digito == 9 {
      clases := clases[3 := 1.0];
    }
    if 0 <= digito <= 9 {
      SmallPrimes(digito);
    }
  }

  /** Positions below k where two patterns agree: similitud before the division. */
  function Matches(p: seq<real>, r: seq<real>, k: nat): (n: nat)
    requires k <= |p| && k <= |r|
    ensures n <= k
  {
    if k == 0 then 0 else Matches(p, r, k - 1) + (if p[k - 1] == r[k - 1] then 1 else 0)
  }

  /** All k positions agree exactly when the first k cells are equal. */
  lemma {:induction false} MatchesFull(p: seq<real>, r: seq<real>, k: nat)
    requires k <= |p| && k <= |r|
    ensures Matches(p, r, k) == k <==> p[..k] == r[..k]
  {
    if k > 0 {
      MatchesFull(p, r, k - 1);
      assert p[..k] == p[..k - 1] + [p[k - 1]] && r[..k] == r[..k - 1] + [r[k - 1]];
      if p[..k] == r[..k] {
        assert p[..k - 1] == p[..k][..k - 1] == r[..k][..k - 1] == r[..k - 1];
        assert p[k - 1] == p[..k][k - 1] == r[..k][k - 1] == r[k - 1];
      }
    }
  }

  /** What reconocerDigito reads: ten references, each at least as long as the pattern. */
  predicate RefsFit(p: seq<real>, refs: seq<seq<real>>) {
    |refs| >= 10 && forall d :: 0 <= d < 10 ==> |p| <= |refs[d]|
  }

  /** Number of cells of the pattern that agree with reference d. */
  function Similarity(p: seq<real>, refs: seq<seq<real>>, d: int): nat
    requires RefsFit(p, refs) && 0 <= d < 10
  {
    Matches(p, refs[d], |p|)
  }

  /** r is the first index among 0..9 of greatest similarity. */
  predicate FirstArgmax(p: seq<real>, refs: seq<seq<real>>, r: int)
    requires RefsFit(p, refs)
  {
    && 0 <= r < 10
    && (forall e :: 0 <= e < 10 ==> Similarity(p, refs, e) <= Similarity(p, refs, r))
    && (forall e :: 0 <= e < r ==> Similarity(p, refs, e) < Similarity(p, refs, r))
  }

  /** reconocerDigito (actividad3.cpp:384-402). similitud / patron.size() is compared as the match
      count: dividing by one fixed positive size keeps the order, and for an empty pattern every
      comparison fails in C++ (NaN) just as every count ties at 0 here, so both return 0. */
  method ReconocerDigito(patron: seq<real>, patronesRef: seq<seq<real>>) returns (mejorMatch: int)
    requires RefsFit(patron, patronesRef)
    ensures FirstArgmax(patron, patronesRef, mejorMatch)
  {
    mejorMatch := 0;
    var mejorSimilitud := -1;
    for d := 0 to 10
      invariant d == 0 ==> mejorMatch == 0 && mejorSimilitud == -1
      invariant d > 0 ==> 0 <= mejorMatch < d && mejorSimilitud == Similarity(patron, patronesRef, mejorMatch)
      invariant forall e :: 0 <= e < d ==> Similarity(patron, patronesRef, e) <= mejorSimilitud
      invariant forall e :: 0 <= e < mejorMatch ==> Similarity(patron, patronesRef, e) < mejorSimilitud
    {
      var similitud := 0;
      for i := 0 to |patron|
        invariant similitud == Matches(patron, patronesRef[d], i)
      {
        if patron[i] == patronesRef[d][i] {
          similitud := similitud + 1;
        }
      }
      if similitud > mejorSimilitud {
        mejorSimilitud := similitud;
        mejorMatch := d;
      }
    }
  }

  /** At most one index is the first of greatest similarity, so the result is determined. */
  lemma {:induction false} FirstArgmaxUnique(p: seq<real>, refs: seq<seq<real>>, a: int, b: int)
    requires RefsFit(p, refs) && FirstArgmax(p, refs, a) && FirstArgmax(p, refs, b)
    ensures a == b
  {
    var sa, sb := Similarity(p, refs, a), Similarity(p, refs, b);
    assert sa == sb;
    assert a < b ==> sa < sb;
    assert b < a ==> sb < sa;
  }

  /** A reference that matches the pattern exactly, with no earlier exact match, is the result. */
  lemma {:induction false} ExactMatchWins(p: seq<real>, refs: seq<seq<real>>, d: int, r: int)
    requires RefsFit(p, refs) && 0 <= d < 10
    requires refs[d][..|p|] == p
    requires forall e :: 0 <= e < d ==> refs[e][..|p|] != p
    requires FirstArgmax(p, refs, r)
    ensures r == d
  {
    assert p[..|p|] == p;
    MatchesFull(p, refs[d], |p|);
    MatchesFull(p, refs[r], |p|);
    assert Similarity(p, refs, d) == |p| == Similarity(p, refs, r);
    assert refs[r][..|p|] == p;
  }

  /** An empty pattern is recognised as 0. */
  lemma {:induction false} EmptyPattern(refs: seq<seq<real>>, r: int)
    requires RefsFit([], refs) && FirstArgmax([], refs, r)
    ensures r == 0
  {
    assert Similarity([], refs, r) == Similarity([], refs, 0) == 0;
  }

  /** The reference digits of obtenerPatronesDigitos (actividad3.cpp:168-282), 7 rows of 5 cells. */
  const Patrones: seq<seq<real>> := [
    // 0
    [ 0.0, 1.0, 1.0, 1.0, 0.0,
      1.0, 0.0, 0.0, 0.0, 1.0,
      1.0, 0.0, 0.0, 1.0, 1.0,
      1.0, 0.0, 1.0, 0.0, 1.0,
      1.0, 1.0, 0.0, 0.0, 1.0,
      1.0, 0.0, 0.0, 0.0, 1.0,
      0.0, 1.0, 1.0, 1.0, 0.0 ],
    // 1
    [ 0.0, 0.0, 1.0, 0.0, 0.0,
      0.0, 1.0, 1.0, 0.0, 0.0,
      0.0, 0.0, 1.0, 0.0, 0.0,
      0.0, 0.0, 1.0, 0.0, 0.0,
      0.0, 0.0, 1.0, 0.0, 0.0,
      0.0, 0.0, 1.0, 0.0, 0.0,
      0.0, 1.0, 1.0, 1.0, 0.0 ],
    // 2
    [ 0.0, 1.0, 1.0, 1.0, 0.0,
      1.0, 0.0, 0.0, 0.0, 1.0,
      0.0, 0.0, 0.0, 0.0, 1.0,
      0.0, 0.0, 0.0, 1.0, 0.0,
      0.0, 0.0, 1.0, 0.0, 0.0,
      0.0, 1.0, 0.0, 0.0, 0.0,
      1.0, 1.0, 1.0, 1.0, 1.0 ],
    // 3
    [ 0.0, 1.0, 1.0, 1.0, 0.0,
      1.0, 0.0, 0.0, 0.0, 1.0,
      0.0, 0.0, 0.0, 0.0, 1.0,
      0.0, 0.0, 1.0, 1.0, 0.0,
      0.0, 0.0, 0.0, 0.0, 1.0,
      1.0, 0.0, 0.0, 0.0, 1.0,
      0.0, 1.0, 1.0, 1.0, 0.0 ],
    // 4
    [ 0.0, 0.0, 0.0, 1.0, 0.0,
      0.0, 0.0, 1.0, 1.0, 0.0,
      0.0, 1.0, 0.0, 1.0, 0.0,
      1.0, 0.0, 0.0, 1.0, 0.0,
      1.0, 1.0, 1.0, 1.0, 1.0,
      0.0, 0.0, 0.0, 1.0, 0.0,
      0.0, 0.0, 0.0, 1.0, 0.0 ],
    // 5
    [ 1.0, 1.0, 1.0, 1.0, 1.0,
      1.0, 0.0, 0.0, 0.0, 0.0,
      1.0, 1.0, 1.0, 1.0, 0.0,
      0.0, 0.0, 0.0, 0.0, 1.0,
      0.0, 0.0, 0.0, 0.0, 1.0,
      1.0, 0.0, 0.0, 0.0, 1.0,
      0.0, 1.0, 1.0, 1.0, 0.0 ],
    // 6
    [ 0.0, 0.0, 1.0, 1.0, 0.0,
      0.0, 1.0, 0.0, 0.0, 0.0,
      1.0, 0.0, 0.0, 0.0, 0.0,
      1.0, 1.0, 1.0, 1.0, 0.0,
      1.0, 0.0, 0.0, 0.0, 1.0,
      1.0, 0.0, 0.0, 0.0, 1.0,
      0.0, 1.0, 1.0, 1.0, 0.0 ],
    // 7
    [ 1.0, 1.0, 1.0, 1.0, 1.0,
      0.0, 0.0, 0.0, 0.0, 1.0,
      0.0, 0.0, 0.0, 1.0, 0.0,
      0.0, 0.0, 1.0, 0.0, 0.0,
      0.0, 1.0, 0.0, 0.0, 0.0,
      0.0, 1.0, 0.0, 0.0, 0.0,
      0.0, 1.0, 0.0, 0.0, 0.0 ],
    // 8
    [ 0.0, 1.0, 1.0, 1.0, 0.0,
      1.0, 0.0, 0.0, 0.0, 1.0,
      1.0, 0.0, 0.0, 0.0, 1.0,
      0.0, 1.0, 1.0, 1.0, 0.0,
      1.0, 0.0, 0.0, 0.0, 1.0,
      1.0, 0.0, 0.0, 0.0, 1.0,
      0.0, 1.0, 1.0, 1.0, 0.0 ],
    // 9
    [ 0.0, 1.0, 1.0, 1.0, 0.0,
      1.0, 0.0, 0.0, 0.0, 1.0,
      1.0, 0.0, 0.0, 0.0, 1.0,
      0.0, 1.0, 1.0, 1.0, 1.0,
      0.0, 0.0, 0.0, 0.0, 1.0,
      0.0, 0.0, 0.0, 1.0, 0.0,
      0.0, 1.0, 1.0, 0.0, 0.0 ]
  ]

  /** Ten references of 35 cells, each cell 0 or 1. */
  lemma {:induction false} PatronesShape()
    ensures |Patrones| == 10
    ensures forall d :: 0 <= d < 10 ==> |Patrones[d]| == 35
    ensures forall d, i :: 0 <= d < 10 && 0 <= i < 35 ==> Patrones[d][i] == 0.0 || Patrones[d][i] == 1.0
  {
  }

  /** Cells 9, 10, 13 and 25, read as four bits, already tell the ten references apart. */
  function Code(p: seq<real>): int
    requires |p| == 35
  {
    (if p[9] == 1.0 then 8 else 0) + (if p[10] == 1.0 then 4 else 0)
    + (if p[13] == 1.0 then 2 else 0) + (if p[25] == 1.0 then 1 else 0)
  }

  const Codes: seq<int> := [15, 0, 8, 9, 2, 7, 5, 10, 13, 12]

  lemma {:induction false} PatronesCodes()
    ensures |Patrones| == 10 && forall d :: 0 <= d < 10 ==> |Patrones[d]| == 35 && Code(Patrones[d]) == Codes[d]
  {
  }

  lemma {:induction false} PatronesDistinct()
    ensures forall d, e :: 0 <= d < e < 10 ==> Patrones[d] != Patrones[e]
  {
    PatronesCodes();
    forall d, e | 0 <= d < e < 10 ensures Patrones[d] != Patrones[e] {
      assert Codes[d] != Codes[e];
    }
  }

  /** Each reference digit is recognised as itself, as main relies on when it classifies the
      references for want of an input file (actividad3.cpp:459-462, 474). */
  lemma {:induction false} PatronRecognised(d: int)
    requires 0 <= d < 10
    ensures RefsFit(Patrones[d], Patrones)
    ensures forall r :: FirstArgmax(Patrones[d], Patrones, r) ==> r == d
  {
    PatronesShape();
    PatronesDistinct();
    assert Patrones[d][..35] == Patrones[d];
    forall e | 0 <= e < d ensures Patrones[e][..35] != Patrones[d] {
      assert Patrones[e][..35] == Patrones[e];
    }
    forall r | FirstArgmax(Patrones[d], Patrones, r) ensures r == d {
      ExactMatchWins(Patrones[d], Patrones, d, r);
    }
  }
}
