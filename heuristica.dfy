/** calcularHeuristica of actividad1.cpp: the Manhattan distance of a board to the goal, with its
    properties: zero exactly at the goal, a change of exactly one per blank move, and hence a
    lower bound on the number of moves still needed. */
module Heuristica {
  import opened Tablero

  function Abs(z: int): nat {
    if z < 0 then -z else z
  }

  /** Grid distance between cells p and q of the flattened board. */
  function Dist(p: int, q: int): nat {
    Abs(p / 3 - q / 3) + Abs(p % 3 - q % 3)
  }

  /** The inner loops over (x, y) for a tile v standing at cell p: distance to every goal cell
      among the first k that holds v. */
  function TileSum(v: int, p: int, goal: Board, k: nat): nat
    requires k <= |goal|
  {
    if k == 0 then 0
    else TileSum(v, p, goal, k - 1) + (if v == goal[k - 1] then Dist(p, k - 1) else 0)
  }

  /** What cell p adds to the distance: nothing for the blank. */
  function CellCost(b: Board, goal: Board, p: nat): nat
    requires p < |b| && |goal| == 9
  {
    if b[p] != 0 then TileSum(b[p], p, goal, 9) else 0
  }

  /** The outer loops over (i, j), after the first k cells. */
  function ManhattanPrefix(b: Board, goal: Board, k: nat): nat
    requires k <= |b| && |goal| == 9
  {
    if k == 0 then 0 else ManhattanPrefix(b, goal, k - 1) + CellCost(b, goal, k - 1)
  }

  function Manhattan(b: Board, goal: Board): nat
    requires |b| == 9 && |goal| == 9
  {
    ManhattanPrefix(b, goal, 9)
  }

  /** calcularHeuristica (actividad1.cpp:28-45). */
  method CalcularHeuristica(tablero: Board, objetivo: Board) returns (dist: int)
    requires |tablero| == 9 && |objetivo| == 9
    ensures dist == Manhattan(tablero, objetivo)
  {
    dist := 0;
    for i := 0 to 3
      invariant dist == ManhattanPrefix(tablero, objetivo, 3 * i)
    {
      for j := 0 to 3
        invariant dist == ManhattanPrefix(tablero, objetivo, 3 * i + j)
      {
        var p := 3 * i + j;
        RowCol(i, j);
        if tablero[p] != 0 {
          ghost var base := dist;
          for x := 0 to 3
            invariant dist == base + TileSum(tablero[p], p, objetivo, 3 * x)
          {
            for y := 0 to 3
              invariant dist == base + TileSum(tablero[p], p, objetivo, 3 * x + y)
            {
              RowCol(x, y);
              if tablero[p] == objetivo[3 * x + y] {
                dist := dist + Abs(i - x) + Abs(j - y);
              }
            }
          }
        }
      }
    }
  }

  /** Against a goal holding v once, the inner loops find v's goal cell exactly once. */
  lemma {:induction false} TileSumAt(v: int, p: int, goal: Board, k: nat)
    requires ValidBoard(goal) && v in goal && k <= 9
    ensures TileSum(v, p, goal, k) == if IndexOf(goal, v) < k then Dist(p, IndexOf(goal, v)) else 0
  {
    if k > 0 {
      TileSumAt(v, p, goal, k - 1);
      if goal[k - 1] == v {
        IndexOfUnique(goal, k - 1);
      }
    }
  }

  lemma {:induction false} CellCostAt(b: Board, goal: Board, p: nat)
    requires ValidBoard(b) && ValidBoard(goal) && p < 9
    ensures b[p] != 0 ==> CellCost(b, goal, p) == Dist(p, IndexOf(goal, b[p]))
    ensures b[p] == 0 ==> CellCost(b, goal, p) == 0
  {
    if b[p] != 0 {
      TileSumAt(b[p], p, goal, 9);
    }
  }

  lemma {:induction false} DistZero(p: int, q: int)
    requires 0 <= p < 9 && 0 <= q < 9
    ensures Dist(p, q) == 0 <==> p == q
  {
    if Dist(p, q) == 0 {
      assert p == 3 * (p / 3) + p % 3;
      assert q == 3 * (q / 3) + q % 3;
    }
  }

  lemma {:induction false} PrefixZero(b: Board, goal: Board, k: nat)
    requires |b| == 9 && |goal| == 9 && k <= 9
    ensures ManhattanPrefix(b, goal, k) == 0 <==> forall p :: 0 <= p < k ==> CellCost(b, goal, p) == 0
  {
    if k > 0 {
      PrefixZero(b, goal, k - 1);
    }
  }

  /** The heuristic is zero exactly on the goal (actividad1.cpp:28-45). */
  lemma {:induction false} ManhattanZero(b: Board, goal: Board)
    requires ValidBoard(b) && ValidBoard(goal)
    ensures Manhattan(b, goal) == 0 <==> b == goal
  {
    PrefixZero(b, goal, 9);
    if Manhattan(b, goal) == 0 {
      // every tile sits on its goal cell
      forall p | 0 <= p < 9 && b[p] != 0 ensures goal[p] == b[p] {
        CellCostAt(b, goal, p);
        DistZero(p, IndexOf(goal, b[p]));
      }
      // so the goal's blank is b's blank too
      forall p | 0 <= p < 9 ensures goal[p] == b[p] {
        if b[p] == 0 && goal[p] != 0 {
          var k := IndexOf(b, goal[p]);
          IndexOfUnique(goal, p);
          assert false;
        }
      }
    } else {
      if b == goal {
        forall p | 0 <= p < 9 ensures CellCost(b, goal, p) == 0 {
          CellCostAt(b, goal, p);
          if b[p] != 0 {
            IndexOfUnique(goal, p);
          }
        }
        assert false;
      }
    }
  }

  /** Exchanging the blank at p with tile t at q changes the partial sums only at p and q. */
  lemma {:induction false} SwapPrefix(b: Board, goal: Board, p: int, q: int, k: nat)
    requires |b| == 9 && |goal| == 9 && 0 <= p < 9 && 0 <= q < 9 && p != q && k <= 9
    requires b[p] == 0 && b[q] != 0
    ensures ManhattanPrefix(Swap(b, p, q), goal, k)
            + (if q < k then TileSum(b[q], q, goal, 9) else 0)
            == ManhattanPrefix(b, goal, k)
            + (if p < k then TileSum(b[q], p, goal, 9) else 0)
  {
    if k > 0 {
      SwapPrefix(b, goal, p, q, k - 1);
    }
  }

  /** One legal blank move changes the heuristic by exactly one: only the swapped tile moves,
      and it moves one cell (actividad1.cpp:28-45, 177, 181). */
  lemma {:induction false} ManhattanStep(b: Board, m: Move, goal: Board)
    requires ValidBoard(b) && ValidBoard(goal) && Step(b, m).Some?
    ensures var c := Step(b, m).value;
            Manhattan(c, goal) == Manhattan(b, goal) + 1 || Manhattan(c, goal) + 1 == Manhattan(b, goal)
  {
    StepShape(b, m);
    var p := IndexOf(b, 0);
    var q := 3 * (p / 3 + Dx(m)) + (p % 3 + Dy(m));
    var t := b[q];
    SwapPrefix(b, goal, p, q, 9);
    TileSumAt(t, p, goal, 9);
    TileSumAt(t, q, goal, 9);
    DistNeighbour(p, q, IndexOf(goal, t), m);
  }

  /** Moving one cell changes the distance to any fixed cell by exactly one. */
  lemma {:induction false} DistNeighbour(p: int, q: int, g: int, m: Move)
    requires q / 3 == p / 3 + Dx(m) && q % 3 == p % 3 + Dy(m)
    ensures Dist(q, g) == Dist(p, g) + 1 || Dist(q, g) + 1 == Dist(p, g)
  {
  }

  /** Consistency along a path: the heuristic drops by at most one per move. */
  lemma {:induction false} ManhattanPath(b: Board, ms: seq<Move>, goal: Board)
    requires ValidBoard(b) && ValidBoard(goal) && Replay(b, ms).Some?
    ensures Manhattan(b, goal) <= |ms| + Manhattan(Replay(b, ms).value, goal)
    decreases |ms|
  {
    if ms != [] {
      var c := Step(b, ms[0]).value;
      ManhattanStep(b, ms[0], goal);
      ManhattanPath(c, ms[1..], goal);
    }
  }

  /** Admissibility: the heuristic never exceeds the length of any path to the goal. */
  lemma {:induction false} ManhattanAdmissible(b: Board, ms: seq<Move>, goal: Board)
    requires ValidBoard(b) && ValidBoard(goal) && Replay(b, ms) == Some(goal)
    ensures Manhattan(b, goal) <= |ms|
  {
    ManhattanPath(b, ms, goal);
    ManhattanZero(goal, goal);
  }
}
