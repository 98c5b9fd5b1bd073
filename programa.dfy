/** The driver of actividad1.cpp: main reads a start board, fixes the goal, applies the parity
    gate, runs the search and counts the moves of the path it returns. Reading from the console
    and printing are left out; the board is a parameter and the outcome is a value. */
module Programa {
  import opened Tablero
  import opened Inversiones
  import opened Camino
  import opened Heuristica
  import opened Busqueda

  /** The three outcomes main reports: "IMPOSIBLE RESOLVER", "NO SE ENCONTRO SOLUCION", and
      "SOLUCION ENCONTRADA" with the move count and the path. */
  datatype Resultado = Imposible | SinSolucion | Solucion(movimientos: int, camino: string)

  lemma {:induction false} GoalValid()
    ensures ValidBoard(Goal)
  {
    assert Goal[1] == 2 && Goal[2] == 3 && Goal[4] == 0 && Goal[5] == 4;
  }

  /** main (actividad1.cpp:196-282) on start board inicial and the fixed goal. The ghost outputs
      say whether the search stopped on its pop budget, and which boards it expanded. */
  method Ejecutar(inicial: Board) returns (r: Resultado, ghost agotado: bool, ghost expandidos: seq<Board>)
    requires ValidBoard(inicial)
    ensures r.Imposible? <==> !SameParity(inicial, Goal)
    ensures r.Imposible? ==> Unreachable(inicial, Goal)
    ensures r.SinSolucion? && !agotado ==> Unreachable(inicial, Goal)
    ensures r.Solucion? ==> Solves(inicial, Goal, r.camino)
    ensures r.Solucion? ==> r.movimientos == |Parse(r.camino).value|
    ensures r.Solucion? ==> Shortest(inicial, Goal, Parse(r.camino).value)
    ensures inicial == Goal ==> r == Solucion(0, "")
    ensures agotado ==> r.SinSolucion?
    ensures r.Imposible? ==> expandidos == []
    ensures Distinct(expandidos) && forall b :: b in expandidos ==> b != Goal && Reachable(inicial, b)
    ensures forall b :: b in expandidos ==> ReachedWithin(inicial, Goal, b)
    ensures agotado ==> |expandidos| >= 50000
  {
    GoalValid();
    var compatibles := PuedenConectarse(inicial, Goal);
    if !compatibles {
      GateSound(inicial, Goal);
      return Imposible, false, [];
    }
    var solucion, visitados, pops, budget := ResolverPuzzle(inicial, Goal);
    expandidos := visitados;
    if solucion == [] {
      return SinSolucion, budget, expandidos;
    }
    var numMovimientos := ContarMovimientos(solucion[0]);
    r, agotado := Solucion(numMovimientos, solucion[0]), false;
  }

  /** The board {1,2,3},{8,4,0},{7,6,5}: one blank move left away from the goal. */
  const OneAway: Board := [1, 2, 3, 8, 4, 0, 7, 6, 5]

  lemma {:induction false} OneAwayValid()
    ensures ValidBoard(OneAway)
  {
    assert OneAway[1] == 2 && OneAway[2] == 3 && OneAway[4] == 4 && OneAway[5] == 0;
  }

  /** The only move that takes OneAway to the goal is IZQUIERDA. */
  lemma {:induction false} OneAwayMoves(m: Move)
    requires ValidBoard(OneAway)
    ensures Step(OneAway, m) == Some(Goal) <==> m == Izquierda
  {
    IndexOfUnique(OneAway, 5);
    assert IndexOf(OneAway, 0) == 5;
    match m
    case Izquierda =>
      assert Swap(OneAway, 5, 4) == Goal;
    case Arriba =>
      assert Swap(OneAway, 5, 2)[5] == 3;
    case Abajo =>
      assert Swap(OneAway, 5, 8)[5] == 5;
    case Derecha =>
  }

  /** The shortest move sequences from OneAway to the goal: exactly [IZQUIERDA]. */
  lemma {:induction false} OneAwayShortest(ms: seq<Move>)
    requires ValidBoard(OneAway)
    ensures Replay(OneAway, ms) == Some(Goal) && Shortest(OneAway, Goal, ms) <==> ms == [Izquierda]
  {
    OneAwayMoves(Izquierda);
    ReplayOne(OneAway, Izquierda);
    assert OneAway != Goal by {
      assert OneAway[5] != Goal[5];
    }
    if ms == [Izquierda] {
      forall q | Replay(OneAway, q) == Some(Goal) ensures 1 <= |q| {
        if q == [] {
          ReplayOne(OneAway, Izquierda);
        }
      }
    }
    if Replay(OneAway, ms) == Some(Goal) && Shortest(OneAway, Goal, ms) {
      assert |ms| <= 1;
      if ms == [] {
        ReplayOne(OneAway, Izquierda);
      } else {
        var m := ms[0];
        assert ms == [m];
        ReplayOne(OneAway, m);
        OneAwayMoves(m);
      }
    }
  }

  lemma {:induction false} RenderIzquierda()
    ensures Render([Izquierda]) == "IZQUIERDA -> "
  {
    assert [Izquierda][..0] == [];
  }

  /** Any shortest solution for OneAway is the single move IZQUIERDA, so main reports one move and
      the path "IZQUIERDA -> " whenever it reports a solution. */
  lemma {:induction false} OneAwaySolution(camino: string)
    ensures ValidBoard(OneAway)
    ensures Solves(OneAway, Goal, camino) && Shortest(OneAway, Goal, Parse(camino).value) ==>
              Parse(camino) == Some([Izquierda]) && camino == "IZQUIERDA -> "
  {
    OneAwayValid();
    if Solves(OneAway, Goal, camino) && Shortest(OneAway, Goal, Parse(camino).value) {
      OneAwayShortest(Parse(camino).value);
      RenderParse(camino);
      RenderIzquierda();
    }
  }

  /** When one move m solves inicial, the only board A* may expand besides the goal is inicial: a
      board off the goal has heuristic at least 1, so its path within the one-move bound is empty. */
  lemma {:induction false} OneMoveExpanded(inicial: Board, m: Move, b: Board)
    requires ValidBoard(inicial) && ValidBoard(Goal) && Replay(inicial, [m]) == Some(Goal)
    requires b != Goal && ReachedWithin(inicial, Goal, b)
    ensures b == inicial
  {
    var p :| Replay(inicial, p) == Some(b) &&
             forall q :: Replay(inicial, q) == Some(Goal) ==> |p| + Manhattan(b, Goal) <= |q|;
    assert |p| + Manhattan(b, Goal) <= |[m]|;
    ManhattanZero(b, Goal);
    assert p == [];
  }

  lemma {:induction false} OneAwayToGoal()
    requires ValidBoard(OneAway)
    ensures Replay(OneAway, [Izquierda]) == Some(Goal)
  {
    OneAwayMoves(Izquierda);
    ReplayOne(OneAway, Izquierda);
  }

  /** Two entries of a duplicate-free sequence differ, so not all of them equal x. */
  lemma {:induction false} DistinctNotConstant<T>(e: seq<T>, x: T)
    requires Distinct(e)
    ensures |e| >= 2 ==> exists i :: 0 <= i < |e| && e[i] != x
  {
    if |e| >= 2 {
      assert e[0] != e[1];
      if e[0] == x {
        assert e[1] != x;
      }
    }
  }

  /** What Ejecutar promises on OneAway pins its outcome down: the expanded boards are at most
      OneAway itself, so the pop budget was not spent; the goal is reachable, so the search found a
      shortest path, the single move IZQUIERDA. */
  lemma {:induction false} OneAwayOutcome(r: Resultado, agotado: bool, expandidos: seq<Board>)
    requires ValidBoard(OneAway)
    requires r.Imposible? ==> Unreachable(OneAway, Goal)
    requires r.SinSolucion? && !agotado ==> Unreachable(OneAway, Goal)
    requires r.Solucion? ==> Solves(OneAway, Goal, r.camino)
    requires r.Solucion? ==> r.movimientos == |Parse(r.camino).value|
    requires r.Solucion? ==> Shortest(OneAway, Goal, Parse(r.camino).value)
    requires Distinct(expandidos) && forall b :: b in expandidos ==> b != Goal
    requires forall b :: b in expandidos ==> ReachedWithin(OneAway, Goal, b)
    requires agotado ==> |expandidos| >= 50000
    ensures r == Solucion(1, "IZQUIERDA -> ")
  {
    GoalValid();
    OneAwayToGoal();
    forall i | 0 <= i < |expandidos| ensures expandidos[i] == OneAway {
      assert expandidos[i] in expandidos;
      OneMoveExpanded(OneAway, Izquierda, expandidos[i]);
    }
    DistinctNotConstant(expandidos, OneAway);
    assert !agotado;
    assert !Unreachable(OneAway, Goal);
    assert r.Solucion?;
    OneAwaySolution(r.camino);
  }

  /** main on the board OneAway reports one move along "IZQUIERDA -> ". */
  method EjecutarOneAway() returns (r: Resultado)
    ensures r == Solucion(1, "IZQUIERDA -> ")
  {
    OneAwayValid();
    ghost var agotado: bool;
    ghost var expandidos: seq<Board>;
    r, agotado, expandidos := Ejecutar(OneAway);
    OneAwayOutcome(r, agotado, expandidos);
  }
}
