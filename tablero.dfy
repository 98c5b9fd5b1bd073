/** The 8-puzzle board, the move catalogue and the board operations of actividad1.cpp:
    blank moves, replaying a move sequence, the canonical key and cell-wise equality. */
module Tablero {

  datatype Option<T> = None | Some(value: T)

  /** A 3x3 grid flattened row by row: cell (i, j) is b[3 * i + j]; 0 is the blank. */
  type Board = seq<int>

  /** The fixed goal {1,2,3},{8,0,4},{7,6,5} that main builds. */
  const Goal: Board := [1, 2, 3, 8, 0, 4, 7, 6, 5]

  /** A board holding each of 0..8 exactly once. */
  predicate ValidBoard(b: Board)
  {
    && |b| == 9
    && (forall p :: 0 <= p < 9 ==> 0 <= b[p] <= 8)
    && (forall p, q :: 0 <= p < q < 9 ==> b[p] != b[q])
    && (forall v :: 0 <= v <= 8 ==> v in b)
  }

  /** Every cell is a single decimal digit, so to_string yields one character per cell. */
  predicate Digits(b: seq<int>) {
    forall p :: 0 <= p < |b| ==> 0 <= b[p] <= 9
  }

  /** Position of the first cell holding v. */
  function IndexOf(b: seq<int>, v: int): (r: nat)
    requires v in b
    ensures r < |b| && b[r] == v
    ensures forall k :: 0 <= k < r ==> b[k] != v
  {
    if b[0] == v then 0 else 1 + IndexOf(b[1..], v)
  }

  lemma {:induction false} IndexOfUnique(b: Board, k: int)
    requires ValidBoard(b) && 0 <= k < 9
    ensures IndexOf(b, b[k]) == k
  {
  }

  lemma {:induction false} RowCol(i: int, j: int)
    requires 0 <= i < 3 && 0 <= j < 3
    ensures (3 * i + j) / 3 == i && (3 * i + j) % 3 == j
  {
  }

  /** The four blank moves, in the order the source tries them. */
  datatype Move = Arriba | Abajo | Izquierda | Derecha

  /** Row displacement of the blank (dx[] in the source): one row up or down for the vertical
      moves, none for the horizontal ones. */
  function Dx(m: Move): (r: int)
    ensures -1 <= r <= 1
    ensures r == 0 <==> m == Izquierda || m == Derecha
  {
    match m
    case Arriba => -1
    case Abajo => 1
    case Izquierda => 0
    case Derecha => 0
  }

  /** Column displacement of the blank (dy[] in the source): one column left or right for the
      horizontal moves, none for the vertical ones, so every move shifts the blank by one cell. */
  function Dy(m: Move): (r: int)
    ensures -1 <= r <= 1
    ensures r == 0 <==> m == Arriba || m == Abajo
    ensures Dx(m) * Dx(m) + r * r == 1
  {
    match m
    case Arriba => 0
    case Abajo => 0
    case Izquierda => -1
    case Derecha => 1
  }

  /** The label the source appends to the path (movimientos[]): a non-empty word of capital
      letters, so it never contains the separator " -> ". */
  function Label(m: Move): (r: string)
    ensures |r| > 0 && forall c :: c in r ==> 'A' <= c <= 'Z'
  {
    match m
    case Arriba => "ARRIBA"
    case Abajo => "ABAJO"
    case Izquierda => "IZQUIERDA"
    case Derecha => "DERECHA"
  }

  /** Different moves have different labels, so a path string names its moves unambiguously. */
  lemma {:induction false} LabelInjective(m: Move, n: Move)
    ensures Label(m) == Label(n) <==> m == n
  {
    if m != n {
      assert Label(m)[..2] != Label(n)[..2] || |Label(m)| != |Label(n)|;
    }
  }

  /** The move table, indexed like dx[], dy[] and movimientos[]. */
  const Moves: seq<Move> := [Arriba, Abajo, Izquierda, Derecha]

  /** The copied board with cells p and q exchanged. */
  function Swap(b: Board, p: int, q: int): (r: Board)
    requires 0 <= p < |b| && 0 <= q < |b|
    ensures |r| == |b| && r[p] == b[q] && r[q] == b[p]
    ensures forall k :: 0 <= k < |b| && k != p && k != q ==> r[k] == b[k]
  {
    b[p := b[q]][q := b[p]]
  }

  lemma {:induction false} SwapValid(b: Board, p: int, q: int)
    requires ValidBoard(b) && 0 <= p < 9 && 0 <= q < 9
    ensures ValidBoard(Swap(b, p, q))
  {
    var c := Swap(b, p, q);
    forall v | 0 <= v <= 8 ensures v in c {
      var k := IndexOf(b, v);
      var k' := if k == p then q else if k == q then p else k;
      assert c[k'] == v;
    }
  }

  /** Moving the blank of b one cell in direction m: the bounds check and swap of the search loop.
      None when the blank would leave the grid. */
  function Step(b: Board, m: Move): (r: Option<Board>)
    requires ValidBoard(b)
    ensures r.Some? ==> ValidBoard(r.value)
    ensures r.Some? <==> (0 <= IndexOf(b, 0) / 3 + Dx(m) < 3 && 0 <= IndexOf(b, 0) % 3 + Dy(m) < 3)
  {
    var p := IndexOf(b, 0);
    var nx, ny := p / 3 + Dx(m), p % 3 + Dy(m);
    if 0 <= nx < 3 && 0 <= ny < 3 then
      SwapValid(b, p, 3 * nx + ny);
      Some(Swap(b, p, 3 * nx + ny))
    else
      None
  }

  /** The blank of b moves from p to q = p + 3 * Dx(m) + Dy(m). */
  lemma {:induction false} StepShape(b: Board, m: Move)
    requires ValidBoard(b) && Step(b, m).Some?
    ensures var p := IndexOf(b, 0);
            var q := 3 * (p / 3 + Dx(m)) + (p % 3 + Dy(m));
            && 0 <= q < 9 && q != p && b[q] != 0
            && Step(b, m).value == Swap(b, p, q)
            && (q / 3 == p / 3 + Dx(m)) && (q % 3 == p % 3 + Dy(m))
  {
    var p := IndexOf(b, 0);
    RowCol(p / 3 + Dx(m), p % 3 + Dy(m));
    var q := 3 * (p / 3 + Dx(m)) + (p % 3 + Dy(m));
    assert p == 3 * (p / 3) + p % 3;
    if b[q] == 0 {
      IndexOfUnique(b, q);
    }
  }

  /** Splitting a board around two exchanged cells lo < hi. */
  lemma {:induction false} SwapSplit(b: Board, lo: int, hi: int)
    requires 0 <= lo < hi < |b|
    ensures b == b[..lo] + [b[lo]] + b[lo + 1..hi] + [b[hi]] + b[hi + 1..]
    ensures Swap(b, lo, hi) == Swap(b, hi, lo) == b[..lo] + [b[hi]] + b[lo + 1..hi] + [b[lo]] + b[hi + 1..]
  {
  }

  /** The board reached from b by playing ms in order, or None if some move leaves the grid. */
  function Replay(b: Board, ms: seq<Move>): (r: Option<Board>)
    requires ValidBoard(b)
    ensures r.Some? ==> ValidBoard(r.value)
    decreases |ms|
  {
    if ms == [] then Some(b)
    else
      match Step(b, ms[0])
      case None => None
      case Some(c) => Replay(c, ms[1..])
  }

  /** Replaying a concatenation replays the first part, then the second. */
  lemma {:induction false} ReplaySplit(b: Board, xs: seq<Move>, ys: seq<Move>)
    requires ValidBoard(b)
    ensures Replay(b, xs + ys) ==
            (if Replay(b, xs).Some? then Replay(Replay(b, xs).value, ys) else None)
    decreases |xs|
  {
    if xs == [] {
      assert xs + ys == ys;
    } else {
      assert (xs + ys)[0] == xs[0];
      assert (xs + ys)[1..] == xs[1..] + ys;
      match Step(b, xs[0])
      case None =>
      case Some(c) => ReplaySplit(c, xs[1..], ys);
    }
  }

  /** Extending a path by one move applies that move to the board the path reaches. */
  lemma {:induction false} ReplayOne(b: Board, m: Move)
    requires ValidBoard(b)
    ensures Replay(b, []) == Some(b)
    ensures Replay(b, [m]) == Step(b, m)
  {
    assert [m][1..] == [];
  }

  lemma {:induction false} ReplayAppend(b: Board, ms: seq<Move>, m: Move)
    requires ValidBoard(b)
    ensures Replay(b, ms + [m]) ==
            (if Replay(b, ms).Some? then Step(Replay(b, ms).value, m) else None)
  {
    ReplaySplit(b, ms, [m]);
    if Replay(b, ms).Some? {
      var c := Replay(b, ms).value;
      assert [m][1..] == [];
      match Step(c, m)
      case None =>
      case Some(d) =>
    }
  }

  /** The i-th move of q, played on the board the first i - 1 moves reach. */
  lemma {:induction false} ReplayStepAt(b: Board, q: seq<Move>, i: int)
    requires ValidBoard(b) && 0 < i <= |q| && Replay(b, q[..i]).Some?
    ensures Replay(b, q[..i - 1]).Some?
    ensures Step(Replay(b, q[..i - 1]).value, q[i - 1]) == Replay(b, q[..i])
  {
    assert q[..i] == q[..i - 1] + [q[i - 1]];
    ReplayAppend(b, q[..i - 1], q[i - 1]);
  }

  /** Every prefix of a playable path is playable, and the rest of the path continues from there. */
  lemma {:induction false} ReplayPrefix(b: Board, ms: seq<Move>, i: int)
    requires ValidBoard(b) && 0 <= i <= |ms| && Replay(b, ms).Some?
    ensures Replay(b, ms[..i]).Some?
    ensures Replay(Replay(b, ms[..i]).value, ms[i..]) == Replay(b, ms)
  {
    assert ms == ms[..i] + ms[i..];
    ReplaySplit(b, ms[..i], ms[i..]);
  }

  /** to_string of a single digit. */
  function DigitChar(v: int): char
    requires 0 <= v <= 9
  {
    (('0' as int) + v) as char
  }

  /** estadoAString: the cells' digits concatenated in row-major order. */
  function Key(b: seq<int>): string
    requires Digits(b)
  {
    if b == [] then "" else Key(b[..|b| - 1]) + [DigitChar(b[|b| - 1])]
  }

  /** The key has one character per cell, and character k is the digit of cell k. */
  lemma {:induction false} KeyAt(b: seq<int>)
    requires Digits(b)
    ensures |Key(b)| == |b|
    ensures forall k :: 0 <= k < |b| ==> Key(b)[k] == DigitChar(b[k])
  {
    if b != [] {
      KeyAt(b[..|b| - 1]);
    }
  }

  /** Two digit boards get the same key exactly when they are the same board. */
  lemma {:induction false} KeyInjective(a: seq<int>, b: seq<int>)
    requires Digits(a) && Digits(b)
    ensures Key(a) == Key(b) <==> a == b
  {
    KeyAt(a);
    KeyAt(b);
    if Key(a) == Key(b) {
      forall k | 0 <= k < |a| ensures a[k] == b[k] {
        assert Key(a)[k] == Key(b)[k];
      }
    }
  }

  lemma {:induction false} ValidDigits(b: Board)
    requires ValidBoard(b)
    ensures Digits(b)
  {
  }

  /** estadoAString (actividad1.cpp:48-56): the loops append to_string of each cell. */
  method EstadoAString(tablero: Board) returns (s: string)
    requires |tablero| == 9 && Digits(tablero)
    ensures s == Key(tablero)
    ensures |s| == 9
  {
    s := "";
    for i := 0 to 3
      invariant s == Key(tablero[..3 * i])
    {
      for j := 0 to 3
        invariant s == Key(tablero[..3 * i + j])
      {
        var p := 3 * i + j;
        assert tablero[..p + 1][..p] == tablero[..p];
        s := s + [DigitChar(tablero[p])];
      }
    }
    assert tablero[..9] == tablero;
    KeyAt(tablero);
  }

  /** sonIguales (actividad1.cpp:104-111): cell-wise comparison with early exit. */
  method SonIguales(a: Board, b: Board) returns (r: bool)
    requires |a| == 9 && |b| == 9
    ensures r <==> a == b
  {
    for i := 0 to 3
      invariant forall k :: 0 <= k < 3 * i ==> a[k] == b[k]
    {
      for j := 0 to 3
        invariant forall k :: 0 <= k < 3 * i + j ==> a[k] == b[k]
      {
        if a[3 * i + j] != b[3 * i + j] {
          return false;
        }
      }
    }
    return true;
  }

  /** The blank search at the start of resolverPuzzle (actividad1.cpp:121-129): the loops keep
      overwriting (x0, y0), so the last 0 in row-major order wins. */
  method LocalizarBlanco(tablero: Board) returns (x0: int, y0: int)
    requires |tablero| == 9 && 0 in tablero
    ensures 0 <= x0 < 3 && 0 <= y0 < 3 && tablero[3 * x0 + y0] == 0
    ensures forall k :: 3 * x0 + y0 < k < 9 ==> tablero[k] != 0
  {
    x0, y0 := 0, 0;
    ghost var found := false;
    for i := 0 to 3
      invariant 0 <= x0 < 3 && 0 <= y0 < 3
      invariant found <==> 0 in tablero[..3 * i]
      invariant found ==> tablero[3 * x0 + y0] == 0 && 3 * x0 + y0 < 3 * i
      invariant found ==> forall k :: 3 * x0 + y0 < k < 3 * i ==> tablero[k] != 0
    {
      for j := 0 to 3
        invariant 0 <= x0 < 3 && 0 <= y0 < 3
        invariant found <==> 0 in tablero[..3 * i + j]
        invariant found ==> tablero[3 * x0 + y0] == 0 && 3 * x0 + y0 < 3 * i + j
        invariant found ==> forall k :: 3 * x0 + y0 < k < 3 * i + j ==> tablero[k] != 0
      {
        assert tablero[..3 * i + j + 1] == tablero[..3 * i + j] + [tablero[3 * i + j]];
        if tablero[3 * i + j] == 0 {
          x0, y0 := i, j;
          found := true;
        }
      }
    }
    assert tablero[..9] == tablero;
  }

  /** In a valid board the blank found by LocalizarBlanco is the blank Step moves. */
  lemma {:induction false} BlankIsIndexOf(b: Board, x: int, y: int)
    requires ValidBoard(b) && 0 <= x < 3 && 0 <= y < 3 && b[3 * x + y] == 0
    ensures IndexOf(b, 0) == 3 * x + y
    ensures IndexOf(b, 0) / 3 == x && IndexOf(b, 0) % 3 == y
  {
    IndexOfUnique(b, 3 * x + y);
    RowCol(x, y);
  }
}
