/** The solvability gate of actividad1.cpp: the inversion count of the non-blank cells, the parity
    comparison of puedenConectarse, and the proof that no blank move changes that parity, so a
    board whose parity differs from the goal's can never reach it. */
module Inversiones {
  import opened Tablero

  /** The non-blank cells in row-major order (the vector arr of contarInversiones). */
  function NonBlank(s: seq<int>): seq<int> {
    if s == [] then []
    else NonBlank(s[..|s| - 1]) + (if s[|s| - 1] != 0 then [s[|s| - 1]] else [])
  }

  /** How many elements of t are smaller than x. */
  function CountLess(x: int, t: seq<int>): nat {
    if t == [] then 0 else CountLess(x, t[..|t| - 1]) + (if x > t[|t| - 1] then 1 else 0)
  }

  /** The number of pairs i < j with s[i] > s[j]. */
  function InversionCount(s: seq<int>): nat {
    if s == [] then 0 else CountLess(s[0], s[1..]) + InversionCount(s[1..])
  }

  /** A sorted sequence: no pair out of order. */
  predicate Ascending(s: seq<int>) {
    forall i, j :: 0 <= i < j < |s| ==> s[i] <= s[j]
  }

  /** The two boards' inversion counts have equal parity. */
  predicate SameParity(inicial: Board, objetivo: Board) {
    InversionCount(NonBlank(inicial)) % 2 == InversionCount(NonBlank(objetivo)) % 2
  }

  /** puedenConectarse (actividad1.cpp:96-101). The counts are never negative, so C++'s truncating
      % agrees with Dafny's here. */
  method PuedenConectarse(inicial: Board, objetivo: Board) returns (r: bool)
    requires |inicial| == 9 && |objetivo| == 9
    ensures r <==> SameParity(inicial, objetivo)
  {
    var inv1 := ContarInversiones(inicial);
    var inv2 := ContarInversiones(objetivo);
    r := inv1 % 2 == inv2 % 2;
  }

  /** contarInversiones (actividad1.cpp:76-94). */
  method ContarInversiones(tablero: Board) returns (inversiones: int)
    requires |tablero| == 9
    ensures inversiones == InversionCount(NonBlank(tablero))
  {
    var arr: seq<int> := [];
    for i := 0 to 3
      invariant arr == NonBlank(tablero[..3 * i])
    {
      for j := 0 to 3
        invariant arr == NonBlank(tablero[..3 * i + j])
      {
        var p := 3 * i + j;
        NonBlankSnoc(tablero, p);
        if tablero[p] != 0 {
          arr := arr + [tablero[p]];
        }
      }
    }
    assert tablero[..9] == tablero;

    inversiones := 0;
    for i := 0 to |arr|
      invariant inversiones + InversionCount(arr[i..]) == InversionCount(arr)
    {
      assert arr[i..][1..] == arr[i + 1..];
      ghost var base := inversiones;
      for j := i + 1 to |arr|
        invariant inversiones == base + CountLess(arr[i], arr[i + 1..j])
      {
        CountLessSnoc(arr[i], arr, i + 1, j);
        if arr[i] > arr[j] {
          inversiones := inversiones + 1;
        }
      }
      assert arr[i + 1..|arr|] == arr[i + 1..];
    }
    assert arr[|arr|..] == [];
  }

  /** One more cell of the first loop of contarInversiones. */
  lemma {:induction false} NonBlankSnoc(s: seq<int>, p: int)
    requires 0 <= p < |s|
    ensures NonBlank(s[..p + 1]) == NonBlank(s[..p]) + (if s[p] != 0 then [s[p]] else [])
  {
    assert s[..p + 1][..p] == s[..p];
  }

  /** One more j of the inner loop of contarInversiones. */
  lemma {:induction false} CountLessSnoc(x: int, s: seq<int>, lo: int, j: int)
    requires 0 <= lo <= j < |s|
    ensures CountLess(x, s[lo..j + 1]) == CountLess(x, s[lo..j]) + (if x > s[j] then 1 else 0)
  {
    assert s[lo..j + 1][..j - lo] == s[lo..j];
  }

  lemma {:induction false} NonBlankConcat(a: seq<int>, b: seq<int>)
    ensures NonBlank(a + b) == NonBlank(a) + NonBlank(b)
    decreases |b|
  {
    if b == [] {
      assert a + b == a;
    } else {
      assert (a + b)[..|a + b| - 1] == a + b[..|b| - 1];
      NonBlankConcat(a, b[..|b| - 1]);
    }
  }

  lemma {:induction false} NonBlankNoZero(s: seq<int>)
    requires forall k :: 0 <= k < |s| ==> s[k] != 0
    ensures NonBlank(s) == s
  {
    if s != [] {
      NonBlankNoZero(s[..|s| - 1]);
    }
  }

  /** A valid board has exactly eight non-blank cells. */
  lemma {:induction false} NonBlankLength(b: Board)
    requires ValidBoard(b)
    ensures |NonBlank(b)| == 8
  {
    var p := IndexOf(b, 0);
    assert b == b[..p] + [b[p]] + b[p + 1..];
    NonBlankConcat(b[..p] + [b[p]], b[p + 1..]);
    NonBlankConcat(b[..p], [b[p]]);
    assert NonBlank([b[p]]) == [] by { assert [b[p]][..0] == []; }
    forall k | 0 <= k < 9 && k != p ensures b[k] != 0 {
      IndexOfUnique(b, k);
    }
    NonBlankNoZero(b[..p]);
    NonBlankNoZero(b[p + 1..]);
  }

  lemma {:induction false} CountLessConcat(x: int, a: seq<int>, b: seq<int>)
    ensures CountLess(x, a + b) == CountLess(x, a) + CountLess(x, b)
    decreases |b|
  {
    if b == [] {
      assert a + b == a;
    } else {
      assert (a + b)[..|a + b| - 1] == a + b[..|b| - 1];
      CountLessConcat(x, a, b[..|b| - 1]);
    }
  }

  lemma {:induction false} CountLessBound(x: int, t: seq<int>)
    ensures CountLess(x, t) <= |t|
  {
    if t != [] {
      CountLessBound(x, t[..|t| - 1]);
    }
  }

  /** At most one inversion per pair: 2 * count <= n * (n - 1). */
  lemma {:induction false} InversionBound(s: seq<int>)
    ensures 2 * InversionCount(s) <= |s| * (|s| - 1)
  {
    if s != [] {
      InversionBound(s[1..]);
      CountLessBound(s[0], s[1..]);
      var n := |s|;
      assert (n - 1) * (n - 2) + 2 * (n - 1) == n * (n - 1);
    }
  }

  /** The count contarInversiones returns for a valid board lies in 0..28. */
  lemma {:induction false} BoardInversionBound(b: Board)
    requires ValidBoard(b)
    ensures 0 <= InversionCount(NonBlank(b)) <= 28
  {
    NonBlankLength(b);
    InversionBound(NonBlank(b));
  }

  lemma {:induction false} CountLessZero(x: int, t: seq<int>)
    ensures CountLess(x, t) == 0 <==> forall k :: 0 <= k < |t| ==> x <= t[k]
  {
    if t != [] {
      CountLessZero(x, t[..|t| - 1]);
    }
  }

  /** No inversions exactly when the sequence is sorted. */
  lemma {:induction false} InversionZero(s: seq<int>)
    ensures InversionCount(s) == 0 <==> Ascending(s)
  {
    if s != [] {
      InversionZero(s[1..]);
      CountLessZero(s[0], s[1..]);
      if Ascending(s) {
        assert Ascending(s[1..]);
      }
      if InversionCount(s) == 0 {
        forall i, j | 0 <= i < j < |s| ensures s[i] <= s[j] {
          if i > 0 {
            assert s[1..][i - 1] <= s[1..][j - 1];
          } else {
            assert s[0] <= s[1..][j - 1];
          }
        }
      }
    }
  }

  /** InversionCount of a sequence with a known head. */
  lemma {:induction false} InversionCons(x: int, t: seq<int>)
    ensures InversionCount([x] + t) == CountLess(x, t) + InversionCount(t)
  {
    assert ([x] + t)[1..] == t;
  }

  /** Swapping two elements leaves the number of them below x unchanged. */
  lemma {:induction false} CountLessSwap(x: int, xs: seq<int>, a: int, b: int, ys: seq<int>)
    ensures CountLess(x, xs + [a, b] + ys) == CountLess(x, xs + [b, a] + ys)
  {
    CountLessConcat(x, xs, [a, b] + ys);
    CountLessConcat(x, xs, [b, a] + ys);
    CountLessConcat(x, [a, b], ys);
    CountLessConcat(x, [b, a], ys);
    assert xs + [a, b] + ys == xs + ([a, b] + ys);
    assert xs + [b, a] + ys == xs + ([b, a] + ys);
    assert [a, b][..1] == [a] && [b, a][..1] == [b] && [a][..0] == [] && [b][..0] == [];
  }

  lemma {:induction false} SwapAdjacentBase(a: int, b: int, ys: seq<int>)
    requires a != b
    ensures InversionCount([a, b] + ys) == InversionCount([b, a] + ys) + (if a > b then 1 else -1)
  {
    assert [a, b] + ys == [a] + ([b] + ys) && [b, a] + ys == [b] + ([a] + ys);
    InversionCons(a, [b] + ys);
    InversionCons(b, [a] + ys);
    InversionCons(b, ys);
    InversionCons(a, ys);
    CountLessConcat(a, [b], ys);
    CountLessConcat(b, [a], ys);
    assert [b][..0] == [] && [a][..0] == [];
  }

  /** Exchanging two adjacent distinct elements changes the inversion count by exactly one. */
  lemma {:induction false} SwapAdjacent(xs: seq<int>, a: int, b: int, ys: seq<int>)
    requires a != b
    ensures InversionCount(xs + [a, b] + ys) == InversionCount(xs + [b, a] + ys) + (if a > b then 1 else -1)
    decreases |xs|
  {
    if xs == [] {
      assert xs + [a, b] + ys == [a, b] + ys && xs + [b, a] + ys == [b, a] + ys;
      SwapAdjacentBase(a, b, ys);
    } else {
      var x, rest := xs[0], xs[1..];
      assert xs + [a, b] + ys == [x] + (rest + [a, b] + ys);
      assert xs + [b, a] + ys == [x] + (rest + [b, a] + ys);
      SwapAdjacent(rest, a, b, ys);
      InversionCons(x, rest + [a, b] + ys);
      InversionCons(x, rest + [b, a] + ys);
      CountLessSwap(x, rest, a, b, ys);
    }
  }

  /** Moving one element past two others keeps the parity (a vertical blank move). */
  lemma {:induction false} Rotate(xs: seq<int>, t: int, u: int, w: int, ys: seq<int>)
    requires t != u && t != w
    ensures InversionCount(xs + [t, u, w] + ys) % 2 == InversionCount(xs + [u, w, t] + ys) % 2
  {
    SwapAdjacent(xs, t, u, [w] + ys);
    SwapAdjacent(xs + [u], t, w, ys);
    assert xs + [t, u, w] + ys == xs + [t, u] + ([w] + ys);
    assert xs + [u, t] + ([w] + ys) == (xs + [u]) + [t, w] + ys;
    assert (xs + [u]) + [w, t] + ys == xs + [u, w, t] + ys;
  }

  /** Exchanging the blank with a neighbour in the same row leaves the non-blank sequence as is. */
  lemma {:induction false} NonBlankPair(xs: seq<int>, x: int, y: int, ys: seq<int>)
    requires x == 0 || y == 0
    ensures NonBlank(xs + [x, y] + ys) == NonBlank(xs + [y, x] + ys)
  {
    NonBlankConcat(xs + [x, y], ys);
    NonBlankConcat(xs, [x, y]);
    NonBlankConcat(xs + [y, x], ys);
    NonBlankConcat(xs, [y, x]);
    assert [x, y][..1] == [x] && [y, x][..1] == [y] && [x][..0] == [] && [y][..0] == [];
  }

  lemma {:induction false} NonBlankMid(xs: seq<int>, mid: seq<int>, ys: seq<int>)
    ensures NonBlank(xs + mid + ys) == NonBlank(xs) + NonBlank(mid) + NonBlank(ys)
  {
    NonBlankConcat(xs + mid, ys);
    NonBlankConcat(xs, mid);
  }

  lemma {:induction false} NonBlankLeading(z: int, u: int, w: int, t: int)
    requires z == 0 && u != 0 && w != 0 && t != 0
    ensures NonBlank([z, u, w, t]) == [u, w, t]
  {
    NonBlankConcat([z], [u, w, t]);
    assert [z, u, w, t] == [z] + [u, w, t];
    assert [z][..0] == [];
    NonBlankNoZero([u, w, t]);
  }

  lemma {:induction false} NonBlankTrailing(z: int, u: int, w: int, t: int)
    requires z == 0 && u != 0 && w != 0 && t != 0
    ensures NonBlank([t, u, w, z]) == [t, u, w]
  {
    NonBlankConcat([t, u, w], [z]);
    assert [t, u, w, z] == [t, u, w] + [z];
    assert [z][..0] == [];
    NonBlankNoZero([t, u, w]);
  }

  lemma {:induction false} NonBlankQuad(xs: seq<int>, z: int, u: int, w: int, t: int, ys: seq<int>)
    requires z == 0 && u != 0 && w != 0 && t != 0
    ensures NonBlank(xs + [z, u, w, t] + ys) == NonBlank(xs) + [u, w, t] + NonBlank(ys)
    ensures NonBlank(xs + [t, u, w, z] + ys) == NonBlank(xs) + [t, u, w] + NonBlank(ys)
  {
    NonBlankMid(xs, [z, u, w, t], ys);
    NonBlankMid(xs, [t, u, w, z], ys);
    NonBlankLeading(z, u, w, t);
    NonBlankTrailing(z, u, w, t);
  }

  /** Exchanging the blank with the cell three places away keeps the inversion parity. */
  lemma {:induction false} VerticalParity(xs: seq<int>, z: int, u: int, w: int, t: int, ys: seq<int>)
    requires z == 0 && u != 0 && w != 0 && t != 0 && t != u && t != w
    ensures InversionCount(NonBlank(xs + [z, u, w, t] + ys)) % 2
            == InversionCount(NonBlank(xs + [t, u, w, z] + ys)) % 2
  {
    NonBlankQuad(xs, z, u, w, t, ys);
    Rotate(NonBlank(xs), t, u, w, NonBlank(ys));
  }

  lemma {:induction false} NonZeroExceptBlank(b: Board, k: int)
    requires ValidBoard(b) && 0 <= k < 9 && k != IndexOf(b, 0)
    ensures b[k] != 0
  {
    IndexOfUnique(b, k);
  }

  /** Exchanging the blank with its right-hand neighbour's cell keeps the non-blank sequence. */
  lemma {:induction false} HorizontalParity(b: Board, lo: int)
    requires ValidBoard(b) && 0 <= lo < 8 && (b[lo] == 0 || b[lo + 1] == 0)
    ensures NonBlank(Swap(b, lo, lo + 1)) == NonBlank(b)
  {
    SwapSplit(b, lo, lo + 1);
    var xs, ys := b[..lo], b[lo + 2..];
    assert b[lo + 1..lo + 1] == [];
    assert b == xs + [b[lo], b[lo + 1]] + ys;
    assert Swap(b, lo, lo + 1) == xs + [b[lo + 1], b[lo]] + ys;
    NonBlankPair(xs, b[lo], b[lo + 1], ys);
  }

  /** A board around two cells three apart, as prefix, the four cells and suffix. */
  lemma {:induction false} QuadSplit(b: Board, lo: int)
    requires |b| == 9 && 0 <= lo < 6
    ensures b == b[..lo] + [b[lo], b[lo + 1], b[lo + 2], b[lo + 3]] + b[lo + 4..]
    ensures Swap(b, lo, lo + 3) == b[..lo] + [b[lo + 3], b[lo + 1], b[lo + 2], b[lo]] + b[lo + 4..]
  {
    SwapSplit(b, lo, lo + 3);
    assert b[lo + 1..lo + 3] == [b[lo + 1], b[lo + 2]];
  }

  /** Exchanging the blank with the cell three places away keeps the inversion parity. */
  lemma {:induction false} VerticalBoardParity(b: Board, lo: int)
    requires ValidBoard(b) && 0 <= lo < 6 && (b[lo] == 0 || b[lo + 3] == 0)
    ensures InversionCount(NonBlank(Swap(b, lo, lo + 3))) % 2 == InversionCount(NonBlank(b)) % 2
  {
    var hi := lo + 3;
    QuadSplit(b, lo);
    var p := IndexOf(b, 0);
    assert p == lo || p == hi by { if b[lo] == 0 { IndexOfUnique(b, lo); } else { IndexOfUnique(b, hi); } }
    NonZeroExceptBlank(b, lo + 1);
    NonZeroExceptBlank(b, lo + 2);
    if b[lo] == 0 {
      NonZeroExceptBlank(b, hi);
      VerticalParity(b[..lo], b[lo], b[lo + 1], b[lo + 2], b[hi], b[hi + 1..]);
    } else {
      NonZeroExceptBlank(b, lo);
      VerticalParity(b[..lo], b[hi], b[lo + 1], b[lo + 2], b[lo], b[hi + 1..]);
    }
  }

  /** Every legal blank move preserves the inversion parity (actividad1.cpp:170-177). */
  lemma {:induction false} StepParity(b: Board, m: Move)
    requires ValidBoard(b) && Step(b, m).Some?
    ensures InversionCount(NonBlank(Step(b, m).value)) % 2 == InversionCount(NonBlank(b)) % 2
  {
    StepShape(b, m);
    var p := IndexOf(b, 0);
    var q := 3 * (p / 3 + Dx(m)) + (p % 3 + Dy(m));
    assert p == 3 * (p / 3) + p % 3;
    var lo, hi := if p < q then p else q, if p < q then q else p;
    SwapSplit(b, lo, hi);
    assert Step(b, m).value == Swap(b, lo, hi);
    if hi == lo + 1 {
      HorizontalParity(b, lo);
    } else {
      VerticalBoardParity(b, lo);
    }
  }

  /** Any playable move sequence preserves the inversion parity. */
  lemma {:induction false} ReplayParity(b: Board, ms: seq<Move>)
    requires ValidBoard(b) && Replay(b, ms).Some?
    ensures InversionCount(NonBlank(Replay(b, ms).value)) % 2 == InversionCount(NonBlank(b)) % 2
    decreases |ms|
  {
    if ms != [] {
      StepParity(b, ms[0]);
      ReplayParity(Step(b, ms[0]).value, ms[1..]);
    }
  }

  /** When puedenConectarse is false, no sequence of blank moves turns inicial into objetivo. */
  lemma {:induction false} GateSound(inicial: Board, objetivo: Board)
    requires ValidBoard(inicial) && !SameParity(inicial, objetivo)
    ensures forall ms :: Replay(inicial, ms) != Some(objetivo)
  {
    forall ms | Replay(inicial, ms).Some? ensures Replay(inicial, ms) != Some(objetivo) {
      ReplayParity(inicial, ms);
    }
  }

  lemma {:induction false} GoalNonBlank(b: seq<int>, s: seq<int>)
    requires b == [1, 2, 3, 8, 0, 4, 7, 6, 5] && s == [1, 2, 3, 8, 4, 7, 6, 5]
    ensures NonBlank(b) == s
  {
    NonBlankMid([1, 2, 3, 8], [0], [4, 7, 6, 5]);
    assert b == [1, 2, 3, 8] + [0] + [4, 7, 6, 5];
    assert s == [1, 2, 3, 8] + [4, 7, 6, 5];
    assert [0][..0] == [];
    NonBlankNoZero([1, 2, 3, 8]);
    NonBlankNoZero([4, 7, 6, 5]);
  }

  /** The goal {1,2,3},{8,0,4},{7,6,5} has 7 inversions, an odd count. */
  lemma {:induction false} GoalInversions()
    ensures NonBlank(Goal) == [1, 2, 3, 8, 4, 7, 6, 5]
    ensures InversionCount(NonBlank(Goal)) == 7
  {
    GoalNonBlank(Goal, [1, 2, 3, 8, 4, 7, 6, 5]);
    InversionOf([1, 2, 3, 8, 4, 7, 6, 5]);
  }

  /** Spelling out the count of one concrete sequence, one element at a time. */
  lemma {:induction false} InversionOf(s: seq<int>)
    requires s == [1, 2, 3, 8, 4, 7, 6, 5]
    ensures InversionCount(s) == 7
  {
    assert s[1..] == [2, 3, 8, 4, 7, 6, 5];
    assert s[2..] == [3, 8, 4, 7, 6, 5];
    assert s[3..] == [8, 4, 7, 6, 5];
    assert s[4..] == [4, 7, 6, 5];
    assert s[5..] == [7, 6, 5];
    assert s[6..] == [6, 5];
    assert s[7..] == [5];
    assert InversionCount(s[7..]) == 0 by { assert s[7..][1..] == []; }
    CountLessValues(s);
    assert InversionCount(s[6..]) == 1 by { assert s[6..][1..] == s[7..]; }
    assert InversionCount(s[5..]) == 3 by { assert s[5..][1..] == s[6..]; }
    assert InversionCount(s[4..]) == 3 by { assert s[4..][1..] == s[5..]; }
    assert InversionCount(s[3..]) == 7 by { assert s[3..][1..] == s[4..]; }
    assert InversionCount(s[2..]) == 7 by { assert s[2..][1..] == s[3..]; }
    assert InversionCount(s[1..]) == 7 by { assert s[1..][1..] == s[2..]; }
  }

  lemma {:induction false} CountLessValues(s: seq<int>)
    requires s == [1, 2, 3, 8, 4, 7, 6, 5]
    ensures CountLess(6, [5]) == 1 && CountLess(7, [6, 5]) == 2
    ensures CountLess(4, [7, 6, 5]) == 0 && CountLess(8, [4, 7, 6, 5]) == 4
    ensures CountLess(3, s[3..]) == 0 && CountLess(2, s[2..]) == 0 && CountLess(1, s[1..]) == 0
  {
    CountLessZero(4, [7, 6, 5]);
    CountLessZero(3, s[3..]);
    CountLessZero(2, s[2..]);
    CountLessZero(1, s[1..]);
    assert [5][..0] == [] && [6, 5][..1] == [6] && [6][..0] == [];
    CountLessConcat(8, [4, 7], [6, 5]);
    assert [4, 7] + [6, 5] == [4, 7, 6, 5];
    assert [4, 7][..1] == [4] && [4][..0] == [];
  }

  /** The board {1,2,3},{4,5,6},{7,8,0}. */
  const Ordenado: Board := [1, 2, 3, 4, 5, 6, 7, 8, 0]

  lemma {:induction false} OrdenadoNonBlank(b: seq<int>, s: seq<int>)
    requires b == [1, 2, 3, 4, 5, 6, 7, 8, 0] && s == [1, 2, 3, 4, 5, 6, 7, 8]
    ensures NonBlank(b) == s
  {
    NonBlankConcat(s, [0]);
    assert b == s + [0];
    assert [0][..0] == [];
    NonBlankNoZero(s);
  }

  lemma {:induction false} OrdenadoInversions(s: seq<int>)
    requires s == [1, 2, 3, 4, 5, 6, 7, 8]
    ensures InversionCount(s) == 0
  {
    forall k | 0 <= k < |s| ensures s[k] == k + 1 { }
    InversionZero(s);
  }

  /** The ordered board has no inversions, so the gate turns it away from the goal
      (actividad1.cpp:212-214, 248-253). */
  lemma {:induction false} SortedBoardRejected()
    ensures NonBlank(Ordenado) == [1, 2, 3, 4, 5, 6, 7, 8]
    ensures InversionCount(NonBlank(Ordenado)) == 0
    ensures !SameParity(Ordenado, Goal)
  {
    OrdenadoNonBlank(Ordenado, [1, 2, 3, 4, 5, 6, 7, 8]);
    OrdenadoInversions([1, 2, 3, 4, 5, 6, 7, 8]);
    GoalInversions();
  }
}
