/** resolverPuzzle of actividad1.cpp: A* search over boards with a min-priority frontier keyed on
    f = g + h, a set of expanded keys checked at pop time, the goal test at pop time and a cap of
    200000 pops. The frontier is a sequence from which any node of least f is taken, since the
    order std::priority_queue gives to equal keys is unspecified. */
module Busqueda {
  import opened Tablero
  import opened Heuristica
  import opened Camino

  /** A search node (struct Estado): board, blank position, cost so far, heuristic, path string. */
  datatype Estado = Estado(tablero: Board, x: int, y: int, g: int, h: int, camino: string) {
    /** The priority of the node in the queue. */
    function F(): int {
      g + h
    }
  }

  const MaxIteraciones: int := 200000

  /** Node k has the least f in the queue, so pq.top() may return it. */
  predicate IsMin(pq: seq<Estado>, k: int)
    requires 0 <= k < |pq|
  {
    forall j :: 0 <= j < |pq| ==> pq[k].F() <= pq[j].F()
  }

  lemma {:induction false} MinExists(pq: seq<Estado>)
    requires pq != []
    ensures exists k :: 0 <= k < |pq| && IsMin(pq, k)
  {
    if |pq| == 1 {
      assert IsMin(pq, 0);
    } else {
      MinExists(pq[1..]);
      var k :| 0 <= k < |pq[1..]| && IsMin(pq[1..], k);
      assert forall j :: 1 <= j < |pq| ==> pq[j] == pq[1..][j - 1];
      if pq[0].F() <= pq[k + 1].F() {
        assert IsMin(pq, 0);
      } else {
        assert IsMin(pq, k + 1);
      }
    }
  }

  predicate Distinct<T(==)>(s: seq<T>) {
    forall i, j :: 0 <= i < j < |s| ==> s[i] != s[j]
  }

  /** The path string names moves that lead from inicial to objetivo. */
  ghost predicate Solves(inicial: Board, objetivo: Board, camino: string)
    requires ValidBoard(inicial)
  {
    Parse(camino).Some? && Replay(inicial, Parse(camino).value) == Some(objetivo)
  }

  /** No move sequence from inicial to objetivo is shorter than ms. */
  ghost predicate Shortest(inicial: Board, objetivo: Board, ms: seq<Move>)
    requires ValidBoard(inicial)
  {
    forall q :: Replay(inicial, q) == Some(objetivo) ==> |ms| <= |q|
  }

  /** Some move sequence turns inicial into b. */
  ghost predicate Reachable(inicial: Board, b: Board)
    requires ValidBoard(inicial)
  {
    exists q :: Replay(inicial, q) == Some(b)
  }

  /** Some path p reaches b, and b's f along p, |p| plus the heuristic, is at most the length of
      every solution: the boards A* may expand. */
  ghost predicate ReachedWithin(inicial: Board, objetivo: Board, b: Board)
    requires ValidBoard(inicial)
  {
    && |objetivo| == 9
    && exists p :: (Replay(inicial, p) == Some(b) &&
                   forall q :: Replay(inicial, q) == Some(objetivo) ==> |p| + Manhattan(b, objetivo) <= |q|)
  }

  ghost predicate Unreachable(inicial: Board, objetivo: Board)
    requires ValidBoard(inicial)
  {
    forall q :: Replay(inicial, q) != Some(objetivo)
  }

  /** What every node pushed to the queue satisfies (actividad1.cpp:131-137, 170-182): a valid
      board with the blank at (x, y), h the heuristic, and a path string whose g moves replay
      from inicial to the board. */
  ghost predicate NodeOk(inicial: Board, objetivo: Board, n: Estado)
    requires ValidBoard(inicial) && |objetivo| == 9
  {
    && ValidBoard(n.tablero)
    && 0 <= n.x < 3 && 0 <= n.y < 3 && n.tablero[3 * n.x + n.y] == 0
    && n.h == Manhattan(n.tablero, objetivo)
    && Parse(n.camino).Some?
    && n.g == |Parse(n.camino).value|
    && Replay(inicial, Parse(n.camino).value) == Some(n.tablero)
  }

  /** The priority f = g + h of a well-formed node never overestimates: continuing its path by any
      q that reaches the goal gives a solution of n.g + |q| moves, and f is at most that. */
  lemma {:induction false} FLowerBound(inicial: Board, objetivo: Board, n: Estado, q: seq<Move>)
    requires ValidBoard(inicial) && ValidBoard(objetivo) && NodeOk(inicial, objetivo, n)
    requires Replay(n.tablero, q) == Some(objetivo)
    ensures Replay(inicial, Parse(n.camino).value + q) == Some(objetivo)
    ensures n.F() <= n.g + |q| == |Parse(n.camino).value + q|
  {
    ReplaySplit(inicial, Parse(n.camino).value, q);
    ManhattanAdmissible(n.tablero, q, objetivo);
  }

  /** Some queued node holds board b with cost at most bound. */
  ghost predicate InFrontier(pq: seq<Estado>, b: Board, bound: int) {
    exists i :: 0 <= i < |pq| && pq[i].tablero == b && pq[i].g <= bound
  }

  ghost predicate AllOk(inicial: Board, objetivo: Board, pq: seq<Estado>)
    requires ValidBoard(inicial) && |objetivo| == 9
  {
    forall i :: 0 <= i < |pq| ==> NodeOk(inicial, objetivo, pq[i])
  }

  /** G maps each expanded board to the g it was expanded with; visitados holds their keys. */
  ghost predicate KeysMatch(visitados: set<string>, G: map<Board, int>) {
    && (forall v :: v in G ==> ValidBoard(v))
    && (forall b :: ValidBoard(b) ==> (Key(b) in visitados <==> b in G))
  }

  /** Every board was expanded with the length of a shortest path to it. */
  ghost predicate ShortestClosed(inicial: Board, G: map<Board, int>)
    requires ValidBoard(inicial)
  {
    forall v, q :: v in G && Replay(inicial, q) == Some(v) ==> G[v] <= |q|
  }

  /** Every unexpanded neighbour of an expanded board waits in the queue with cost G[v] + 1 or less. */
  ghost predicate ChildrenQueued(pq: seq<Estado>, G: map<Board, int>)
    requires forall v :: v in G ==> ValidBoard(v)
  {
    forall v, m :: v in G && Step(v, m).Some? && Step(v, m).value !in G ==>
      InFrontier(pq, Step(v, m).value, G[v] + 1)
  }

  ghost predicate StartQueued(inicial: Board, pq: seq<Estado>, G: map<Board, int>) {
    inicial !in G ==> InFrontier(pq, inicial, 0)
  }

  /** The loop invariant of the search. */
  ghost predicate SearchInv(inicial: Board, objetivo: Board, pq: seq<Estado>, visitados: set<string>,
                            G: map<Board, int>)
    requires ValidBoard(inicial) && ValidBoard(objetivo)
  {
    && AllOk(inicial, objetivo, pq)
    && KeysMatch(visitados, G)
    && objetivo !in G
    && StartQueued(inicial, pq, G)
    && ShortestClosed(inicial, G)
    && ChildrenQueued(pq, G)
  }

  /** Path q passes through expanded boards at its first j moves. */
  ghost predicate ClosedAt(inicial: Board, G: map<Board, int>, q: seq<Move>, j: int)
    requires ValidBoard(inicial) && 0 <= j <= |q|
  {
    Replay(inicial, q[..j]).Some? && Replay(inicial, q[..j]).value in G
  }

  /** The first board along q that has not been expanded. */
  lemma {:induction false} FirstOpen(inicial: Board, G: map<Board, int>, q: seq<Move>, start: nat) returns (i: nat)
    requires ValidBoard(inicial) && Replay(inicial, q).Some? && Replay(inicial, q).value !in G
    requires start <= |q|
    requires forall j :: 0 <= j < start ==> ClosedAt(inicial, G, q, j)
    ensures start <= i <= |q|
    ensures forall j :: 0 <= j < i ==> ClosedAt(inicial, G, q, j)
    ensures Replay(inicial, q[..i]).Some? && Replay(inicial, q[..i]).value !in G
    decreases |q| - start
  {
    if start == |q| {
      assert q[..start] == q;
      i := start;
    } else {
      ReplayPrefix(inicial, q, start);
      if Replay(inicial, q[..start]).value !in G {
        i := start;
      } else {
        ClosedExtend(inicial, G, q, start);
        i := FirstOpen(inicial, G, q, start + 1);
      }
    }
  }

  lemma {:induction false} ClosedExtend(inicial: Board, G: map<Board, int>, q: seq<Move>, n: int)
    requires ValidBoard(inicial) && 0 <= n < |q|
    requires forall j :: 0 <= j < n ==> ClosedAt(inicial, G, q, j)
    requires Replay(inicial, q[..n]).Some? && Replay(inicial, q[..n]).value in G
    ensures forall j :: 0 <= j < n + 1 ==> ClosedAt(inicial, G, q, j)
  {
    assert ClosedAt(inicial, G, q, n);
  }

  /** The queue holds the first unexpanded board of any path, with cost at most its position. */
  lemma {:induction false} FrontierWitness(inicial: Board, pq: seq<Estado>, G: map<Board, int>, q: seq<Move>, i: nat)
    requires ValidBoard(inicial) && forall v :: v in G ==> ValidBoard(v)
    requires StartQueued(inicial, pq, G) && ShortestClosed(inicial, G) && ChildrenQueued(pq, G)
    requires i <= |q|
    requires forall j :: 0 <= j < i ==> ClosedAt(inicial, G, q, j)
    requires Replay(inicial, q[..i]).Some? && Replay(inicial, q[..i]).value !in G
    ensures InFrontier(pq, Replay(inicial, q[..i]).value, i)
  {
    if i == 0 {
      assert q[..0] == [];
    } else {
      assert ClosedAt(inicial, G, q, i - 1);
      ReplayStepAt(inicial, q, i);
      var v := Replay(inicial, q[..i - 1]).value;
      UseShortest(inicial, G, v, q[..i - 1]);
      UseChildren(pq, G, v, q[i - 1]);
      Weaken(pq, Replay(inicial, q[..i]).value, G[v] + 1, i);
    }
  }

  lemma {:induction false} UseShortest(inicial: Board, G: map<Board, int>, v: Board, q: seq<Move>)
    requires ValidBoard(inicial) && ShortestClosed(inicial, G)
    requires v in G && Replay(inicial, q) == Some(v)
    ensures G[v] <= |q|
  {
  }

  lemma {:induction false} UseChildren(pq: seq<Estado>, G: map<Board, int>, v: Board, m: Move)
    requires (forall w :: w in G ==> ValidBoard(w)) && ChildrenQueued(pq, G)
    requires v in G && Step(v, m).Some? && Step(v, m).value !in G
    ensures InFrontier(pq, Step(v, m).value, G[v] + 1)
  {
  }

  lemma {:induction false} Weaken(pq: seq<Estado>, b: Board, lo: int, hi: int)
    requires InFrontier(pq, b, lo) && lo <= hi
    ensures InFrontier(pq, b, hi)
  {
    var j :| 0 <= j < |pq| && pq[j].tablero == b && pq[j].g <= lo;
    assert pq[j].g <= hi;
  }

  /** A node of least f whose board is not yet expanded carries a shortest path to its board:
      the heuristic is consistent, so the first unexpanded board of any other path has f no
      smaller. */
  lemma {:induction false} PoppedOptimal(inicial: Board, objetivo: Board, pq: seq<Estado>, visitados: set<string>,
                      G: map<Board, int>, k: int)
    requires ValidBoard(inicial) && ValidBoard(objetivo)
    requires SearchInv(inicial, objetivo, pq, visitados, G)
    requires 0 <= k < |pq| && IsMin(pq, k) && pq[k].tablero !in G
    ensures forall q :: Replay(inicial, q) == Some(pq[k].tablero) ==> pq[k].g <= |q|
  {
    var v := pq[k].tablero;
    assert NodeOk(inicial, objetivo, pq[k]);
    forall q | Replay(inicial, q) == Some(v) ensures pq[k].g <= |q| {
      var i := FirstOpen(inicial, G, q, 0);
      FrontierWitness(inicial, pq, G, q, i);
      var bi := Replay(inicial, q[..i]).value;
      var j :| 0 <= j < |pq| && pq[j].tablero == bi && pq[j].g <= i;
      assert NodeOk(inicial, objetivo, pq[j]);
      ReplayPrefix(inicial, q, i);
      ManhattanPath(bi, q[i..], objetivo);
      assert pq[k].F() <= pq[j].F();
    }
  }
  /** A popped node of least f has f no larger than the length of any solution: the first board not
      yet expanded on a solution path waits in the queue, and its f is at most the path's length. */
  lemma {:induction false} PoppedBound(inicial: Board, objetivo: Board, pq: seq<Estado>, visitados: set<string>,
                                       G: map<Board, int>, k: int)
    requires ValidBoard(inicial) && ValidBoard(objetivo)
    requires SearchInv(inicial, objetivo, pq, visitados, G)
    requires 0 <= k < |pq| && IsMin(pq, k)
    ensures forall q :: Replay(inicial, q) == Some(objetivo) ==> pq[k].F() <= |q|
  {
    ManhattanZero(objetivo, objetivo);
    forall q | Replay(inicial, q) == Some(objetivo) ensures pq[k].F() <= |q| {
      var i := FirstOpen(inicial, G, q, 0);
      FrontierWitness(inicial, pq, G, q, i);
      var bi := Replay(inicial, q[..i]).value;
      var j :| 0 <= j < |pq| && pq[j].tablero == bi && pq[j].g <= i;
      assert NodeOk(inicial, objetivo, pq[j]);
      ReplayPrefix(inicial, q, i);
      ManhattanPath(bi, q[i..], objetivo);
      assert pq[k].F() <= pq[j].F();
    }
  }


  /** The queue without its k-th node, as pq.pop() leaves it. */
  function Remove(pq: seq<Estado>, k: int): (r: seq<Estado>)
    requires 0 <= k < |pq|
    ensures |r| == |pq| - 1
    ensures forall i :: 0 <= i < |r| ==> r[i] == (if i < k then pq[i] else pq[i + 1])
  {
    pq[..k] + pq[k + 1..]
  }

  lemma {:induction false} RemoveKeeps(pq: seq<Estado>, k: int, b: Board, bound: int)
    requires 0 <= k < |pq| && InFrontier(pq, b, bound) && pq[k].tablero != b
    ensures InFrontier(Remove(pq, k), b, bound)
  {
    var i :| 0 <= i < |pq| && pq[i].tablero == b && pq[i].g <= bound;
    var r := Remove(pq, k);
    if i < k {
      assert r[i] == pq[i];
    } else {
      assert r[i - 1] == pq[i];
    }
  }

  lemma {:induction false} ExtendKeeps(pq: seq<Estado>, pq': seq<Estado>, b: Board, bound: int)
    requires pq <= pq' && InFrontier(pq, b, bound)
    ensures InFrontier(pq', b, bound)
  {
    var i :| 0 <= i < |pq| && pq[i].tablero == b && pq[i].g <= bound;
    assert pq'[i] == pq[i];
  }

  lemma {:induction false} InitInv(inicial: Board, objetivo: Board, inicio: Estado)
    requires ValidBoard(inicial) && ValidBoard(objetivo)
    requires inicio.tablero == inicial && inicio.g == 0 && inicio.camino == ""
    requires 0 <= inicio.x < 3 && 0 <= inicio.y < 3 && inicial[3 * inicio.x + inicio.y] == 0
    requires inicio.h == Manhattan(inicial, objetivo)
    ensures SearchInv(inicial, objetivo, [inicio], {}, map[])
  {
    assert Parse("") == Some([]);
    assert NodeOk(inicial, objetivo, inicio);
    assert [inicio][0] == inicio;
  }

  lemma {:induction false} AllOkRemove(inicial: Board, objetivo: Board, pq: seq<Estado>, k: int)
    requires ValidBoard(inicial) && |objetivo| == 9
    requires AllOk(inicial, objetivo, pq) && 0 <= k < |pq|
    ensures AllOk(inicial, objetivo, Remove(pq, k))
  {
  }

  lemma {:induction false} ChildrenRemove(pq: seq<Estado>, G: map<Board, int>, k: int)
    requires forall v :: v in G ==> ValidBoard(v)
    requires ChildrenQueued(pq, G) && 0 <= k < |pq| && pq[k].tablero in G
    ensures ChildrenQueued(Remove(pq, k), G)
  {
    forall v, m | v in G && Step(v, m).Some? && Step(v, m).value !in G
      ensures InFrontier(Remove(pq, k), Step(v, m).value, G[v] + 1)
    {
      RemoveKeeps(pq, k, Step(v, m).value, G[v] + 1);
    }
  }

  /** Dropping a popped node whose board is already expanded (actividad1.cpp:164). */
  lemma {:induction false} SkipKeeps(inicial: Board, objetivo: Board, pq: seq<Estado>, visitados: set<string>,
                  G: map<Board, int>, k: int)
    requires ValidBoard(inicial) && ValidBoard(objetivo)
    requires SearchInv(inicial, objetivo, pq, visitados, G)
    requires 0 <= k < |pq| && pq[k].tablero in G
    ensures SearchInv(inicial, objetivo, Remove(pq, k), visitados, G)
  {
    AllOkRemove(inicial, objetivo, pq, k);
    ChildrenRemove(pq, G, k);
    if inicial !in G {
      RemoveKeeps(pq, k, inicial, 0);
    }
  }

  lemma {:induction false} AllOkExpand(inicial: Board, objetivo: Board, pq: seq<Estado>, k: int, pq': seq<Estado>)
    requires ValidBoard(inicial) && |objetivo| == 9
    requires AllOk(inicial, objetivo, pq) && 0 <= k < |pq|
    requires Remove(pq, k) <= pq'
    requires forall i :: |pq| - 1 <= i < |pq'| ==> NodeOk(inicial, objetivo, pq'[i])
    ensures AllOk(inicial, objetivo, pq')
  {
    AllOkRemove(inicial, objetivo, pq, k);
    var r := Remove(pq, k);
    forall i | 0 <= i < |pq'| ensures NodeOk(inicial, objetivo, pq'[i]) {
      if i < |r| {
        assert pq'[i] == r[i];
      }
    }
  }

  lemma {:induction false} KeysExpand(visitados: set<string>, G: map<Board, int>, v: Board, gv: int)
    requires KeysMatch(visitados, G) && ValidBoard(v)
    ensures KeysMatch(visitados + {Key(v)}, G[v := gv])
  {
    forall b | ValidBoard(b) ensures Key(b) in visitados + {Key(v)} <==> b in G[v := gv] {
      KeyInjective(b, v);
    }
  }

  lemma {:induction false} ShortestExpand(inicial: Board, G: map<Board, int>, v: Board, gv: int)
    requires ValidBoard(inicial) && ShortestClosed(inicial, G)
    requires forall q :: Replay(inicial, q) == Some(v) ==> gv <= |q|
    ensures ShortestClosed(inicial, G[v := gv])
  {
  }

  lemma {:induction false} ChildrenExpand(pq: seq<Estado>, G: map<Board, int>, k: int, pq': seq<Estado>, vis': set<string>)
    requires forall v :: v in G ==> ValidBoard(v)
    requires ChildrenQueued(pq, G) && 0 <= k < |pq| && pq[k].tablero !in G
    requires KeysMatch(vis', G[pq[k].tablero := pq[k].g])
    requires Remove(pq, k) <= pq'
    requires var v := pq[k].tablero;
             forall m :: Step(v, m).Some? && Key(Step(v, m).value) !in vis' ==>
               InFrontier(pq', Step(v, m).value, pq[k].g + 1)
    ensures ChildrenQueued(pq', G[pq[k].tablero := pq[k].g])
  {
    var v, G' := pq[k].tablero, G[pq[k].tablero := pq[k].g];
    forall w, m | w in G' && Step(w, m).Some? && Step(w, m).value !in G'
      ensures InFrontier(pq', Step(w, m).value, G'[w] + 1)
    {
      var c := Step(w, m).value;
      if w != v {
        RemoveKeeps(pq, k, c, G[w] + 1);
        ExtendKeeps(Remove(pq, k), pq', c, G[w] + 1);
      } else {
        assert Key(c) !in vis';
      }
    }
  }

  /** Expanding the popped node k: its key joins visitados, its board joins G with its cost,
      and the queue becomes the rest plus the new children (actividad1.cpp:166-189). */
  lemma {:induction false} ExpandKeeps(inicial: Board, objetivo: Board, pq: seq<Estado>, visitados: set<string>,
                    G: map<Board, int>, k: int, pq': seq<Estado>)
    requires ValidBoard(inicial) && ValidBoard(objetivo)
    requires SearchInv(inicial, objetivo, pq, visitados, G)
    requires 0 <= k < |pq| && IsMin(pq, k) && pq[k].tablero !in G && pq[k].tablero != objetivo
    requires Remove(pq, k) <= pq'
    requires forall i :: |pq| - 1 <= i < |pq'| ==> NodeOk(inicial, objetivo, pq'[i])
    requires var v := pq[k].tablero;
             forall m :: Step(v, m).Some? && Key(Step(v, m).value) !in visitados + {Key(v)} ==>
               InFrontier(pq', Step(v, m).value, pq[k].g + 1)
    ensures SearchInv(inicial, objetivo, pq', visitados + {Key(pq[k].tablero)}, G[pq[k].tablero := pq[k].g])
  {
    var v, gv := pq[k].tablero, pq[k].g;
    assert NodeOk(inicial, objetivo, pq[k]);
    AllOkExpand(inicial, objetivo, pq, k, pq');
    KeysExpand(visitados, G, v, gv);
    if inicial !in G && inicial != v {
      RemoveKeeps(pq, k, inicial, 0);
      ExtendKeeps(Remove(pq, k), pq', inicial, 0);
    }
    PoppedOptimal(inicial, objetivo, pq, visitados, G, k);
    ShortestExpand(inicial, G, v, gv);
    ChildrenExpand(pq, G, k, pq', visitados + {Key(v)});
  }

  /** An empty queue with the goal never expanded means no path reaches the goal. */
  lemma {:induction false} FrontierEmpty(inicial: Board, objetivo: Board, visitados: set<string>, G: map<Board, int>)
    requires ValidBoard(inicial) && ValidBoard(objetivo)
    requires SearchInv(inicial, objetivo, [], visitados, G)
    ensures Unreachable(inicial, objetivo)
  {
    forall q | Replay(inicial, q) == Some(objetivo) ensures false {
      var i := FirstOpen(inicial, G, q, 0);
      FrontierWitness(inicial, [], G, q, i);
    }
  }

  /** The child's path string spells the parent's moves plus mv, and they replay to the child. */
  lemma {:induction false} ChildPath(inicial: Board, camino: string, mv: Move, b: Board, c: Board)
    requires ValidBoard(inicial) && ValidBoard(b)
    requires Parse(camino).Some? && Replay(inicial, Parse(camino).value) == Some(b)
    requires Step(b, mv) == Some(c)
    ensures var s := camino + Label(mv) + " -> ";
            && Parse(s) == Some(Parse(camino).value + [mv])
            && Replay(inicial, Parse(s).value) == Some(c)
  {
    assert camino + Label(mv) + " -> " == camino + Chunk(mv);
    ParseExtend(camino, mv);
    ReplayAppend(inicial, Parse(camino).value, mv);
  }

  /** The board the expansion loop builds for a direction that passes the bounds check. */
  lemma {:induction false} ChildStep(actual: Estado, mv: Move, nx: int, ny: int)
    requires ValidBoard(actual.tablero)
    requires 0 <= actual.x < 3 && 0 <= actual.y < 3 && actual.tablero[3 * actual.x + actual.y] == 0
    requires nx == actual.x + Dx(mv) && ny == actual.y + Dy(mv) && 0 <= nx < 3 && 0 <= ny < 3
    ensures var c := Swap(actual.tablero, 3 * actual.x + actual.y, 3 * nx + ny);
            Step(actual.tablero, mv) == Some(c) && c[3 * nx + ny] == 0
  {
    BlankIsIndexOf(actual.tablero, actual.x, actual.y);
    RowCol(nx, ny);
  }

  /** A child built as the expansion loop builds it is a well-formed node one move further on. */
  lemma {:induction false} ChildOk(inicial: Board, objetivo: Board, actual: Estado, mv: Move, nx: int, ny: int)
    requires ValidBoard(inicial) && ValidBoard(objetivo) && NodeOk(inicial, objetivo, actual)
    requires nx == actual.x + Dx(mv) && ny == actual.y + Dy(mv) && 0 <= nx < 3 && 0 <= ny < 3
    ensures var c := Swap(actual.tablero, 3 * actual.x + actual.y, 3 * nx + ny);
            && Step(actual.tablero, mv) == Some(c)
            && NodeOk(inicial, objetivo, Estado(c, nx, ny, actual.g + 1, Manhattan(c, objetivo),
                                                 actual.camino + Label(mv) + " -> "))
  {
    var c := Swap(actual.tablero, 3 * actual.x + actual.y, 3 * nx + ny);
    ChildStep(actual, mv, nx, ny);
    ChildPath(inicial, actual.camino, mv, actual.tablero, c);
  }

  /** The nodes after the first n of pq are well formed. */
  ghost predicate NewOk(inicial: Board, objetivo: Board, pq: seq<Estado>, n: int)
    requires ValidBoard(inicial) && |objetivo| == 9
  {
    forall t :: n <= t < |pq| ==> 0 <= t && NodeOk(inicial, objetivo, pq[t])
  }

  /** The bounds check of the expansion loop is exactly the legality of the move. */
  lemma {:induction false} BoundsCheck(actual: Estado, mv: Move, nx: int, ny: int)
    requires ValidBoard(actual.tablero)
    requires 0 <= actual.x < 3 && 0 <= actual.y < 3 && actual.tablero[3 * actual.x + actual.y] == 0
    requires nx == actual.x + Dx(mv) && ny == actual.y + Dy(mv)
    ensures Step(actual.tablero, mv).Some? <==> 0 <= nx < 3 && 0 <= ny < 3
  {
    BlankIsIndexOf(actual.tablero, actual.x, actual.y);
  }

  /** Direction t of the move table yields a legal child whose key has not been seen. */
  ghost predicate Wanted(b: Board, visitados: set<string>, t: int)
    requires ValidBoard(b)
  {
    0 <= t < 4 && Step(b, Moves[t]).Some? && Key(Step(b, Moves[t]).value) !in visitados
  }

  /** n is the child the loop builds for move m: the moved board, with a key not yet seen, cost one
      more than the parent, and the parent's path plus the move's label and " -> ". */
  ghost predicate ChildBy(actual: Estado, visitados: set<string>, m: Move, n: Estado)
    requires ValidBoard(actual.tablero)
  {
    && Step(actual.tablero, m) == Some(n.tablero)
    && Key(n.tablero) !in visitados
    && n.g == actual.g + 1
    && n.camino == actual.camino + Label(m) + " -> "
  }

  /** dirs is a strictly increasing list of directions below i. */
  ghost predicate DirsOk(dirs: seq<int>, i: int) {
    && |dirs| <= i
    && (forall j :: 0 <= j < |dirs| ==> 0 <= dirs[j] < i)
    && (forall j, k :: 0 <= j < k < |dirs| ==> dirs[j] < dirs[k])
  }

  /** Among directions 0..i-1, dirs holds exactly the wanted ones. */
  ghost predicate DirsWanted(b: Board, visitados: set<string>, dirs: seq<int>, i: int)
    requires ValidBoard(b)
  {
    forall t :: 0 <= t < i ==> (t in dirs <==> Wanted(b, visitados, t))
  }

  /** pq' is pq followed by one child per entry of dirs, in the same order. */
  ghost predicate ChildrenAt(actual: Estado, visitados: set<string>, pq: seq<Estado>, pq': seq<Estado>, dirs: seq<int>)
    requires ValidBoard(actual.tablero)
  {
    && pq <= pq' && |pq'| == |pq| + |dirs|
    && (forall j :: 0 <= j < |dirs| ==> 0 <= dirs[j] < 4 && ChildBy(actual, visitados, Moves[dirs[j]], pq'[|pq| + j]))
  }

  /** After directions 0..i-1, the nodes appended to pq are the children of the wanted directions
      among them, listed in table order; dirs holds those directions. */
  ghost predicate Pushed(actual: Estado, visitados: set<string>, pq: seq<Estado>, pq': seq<Estado>,
                         dirs: seq<int>, i: int)
    requires ValidBoard(actual.tablero)
  {
    DirsOk(dirs, i) && DirsWanted(actual.tablero, visitados, dirs, i) && ChildrenAt(actual, visitados, pq, pq', dirs)
  }

  lemma {:induction false} PushedSkip(actual: Estado, visitados: set<string>, pq: seq<Estado>, pq': seq<Estado>,
                                      dirs: seq<int>, i: int)
    requires ValidBoard(actual.tablero) && 0 <= i < 4 && Pushed(actual, visitados, pq, pq', dirs, i)
    requires !Wanted(actual.tablero, visitados, i)
    ensures Pushed(actual, visitados, pq, pq', dirs, i + 1)
  {
  }

  lemma {:induction false} DirsPush(dirs: seq<int>, i: int)
    requires DirsOk(dirs, i)
    ensures DirsOk(dirs + [i], i + 1)
    ensures forall t :: t in dirs + [i] <==> t in dirs || t == i
  {
    var d2 := dirs + [i];
    assert forall j :: 0 <= j < |dirs| ==> d2[j] == dirs[j];
    assert d2[|dirs|] == i;
  }

  lemma {:induction false} ChildrenPush(actual: Estado, visitados: set<string>, pq: seq<Estado>, pq': seq<Estado>,
                                        dirs: seq<int>, i: int, nuevo: Estado)
    requires ValidBoard(actual.tablero) && 0 <= i < 4 && ChildrenAt(actual, visitados, pq, pq', dirs)
    requires ChildBy(actual, visitados, Moves[i], nuevo)
    ensures ChildrenAt(actual, visitados, pq, pq' + [nuevo], dirs + [i])
  {
    var pq2, dirs2 := pq' + [nuevo], dirs + [i];
    assert forall j :: 0 <= j < |dirs| ==> dirs2[j] == dirs[j] && pq2[|pq| + j] == pq'[|pq| + j];
    assert pq2[|pq| + |dirs|] == nuevo && dirs2[|dirs|] == i;
  }

  lemma {:induction false} PushedPush(actual: Estado, visitados: set<string>, pq: seq<Estado>, pq': seq<Estado>,
                                      dirs: seq<int>, i: int, nuevo: Estado)
    requires ValidBoard(actual.tablero) && 0 <= i < 4 && Pushed(actual, visitados, pq, pq', dirs, i)
    requires ChildBy(actual, visitados, Moves[i], nuevo)
    ensures Pushed(actual, visitados, pq, pq' + [nuevo], dirs + [i], i + 1)
  {
    DirsPush(dirs, i);
    ChildrenPush(actual, visitados, pq, pq', dirs, i, nuevo);
    assert Wanted(actual.tablero, visitados, i);
  }

  /** The wanted direction t, once done, has its child queued with cost one more than the parent. */
  lemma {:induction false} PushedCoversOne(actual: Estado, visitados: set<string>, pq: seq<Estado>, pq': seq<Estado>,
                                           dirs: seq<int>, t: int)
    requires ValidBoard(actual.tablero) && DirsWanted(actual.tablero, visitados, dirs, 4)
    requires ChildrenAt(actual, visitados, pq, pq', dirs)
    requires Wanted(actual.tablero, visitados, t)
    ensures InFrontier(pq', Step(actual.tablero, Moves[t]).value, actual.g + 1)
  {
    assert t in dirs;
    var j :| 0 <= j < |dirs| && dirs[j] == t;
    assert ChildBy(actual, visitados, Moves[dirs[j]], pq'[|pq| + j]);
  }

  /** Once every direction is done, each wanted child is queued with cost one more than the parent. */
  lemma {:induction false} PushedCovers(actual: Estado, visitados: set<string>, pq: seq<Estado>, pq': seq<Estado>,
                                        dirs: seq<int>)
    requires ValidBoard(actual.tablero) && Pushed(actual, visitados, pq, pq', dirs, 4)
    ensures forall m :: Step(actual.tablero, m).Some? && Key(Step(actual.tablero, m).value) !in visitados ==>
              InFrontier(pq', Step(actual.tablero, m).value, actual.g + 1)
  {
    forall m | Step(actual.tablero, m).Some? && Key(Step(actual.tablero, m).value) !in visitados
      ensures InFrontier(pq', Step(actual.tablero, m).value, actual.g + 1)
    {
      var t := match m case Arriba => 0 case Abajo => 1 case Izquierda => 2 case Derecha => 3;
      assert Moves[t] == m;
      PushedCoversOne(actual, visitados, pq, pq', dirs, t);
    }
  }

  /** Child generation (actividad1.cpp:168-189): for each direction in table order, bounds check,
      swap on a copy, g + 1, recomputed h, path plus label and " -> ", pushed unless its key is
      in visitados. The ghost output dirs lists the directions pushed, so the appended nodes are
      exactly the children of the legal directions with unseen keys, in table order. */
  method GenerarVecinos(actual: Estado, objetivo: Board, visitados: set<string>, pq: seq<Estado>,
                        ghost inicial: Board) returns (pq': seq<Estado>, ghost dirs: seq<int>)
    requires ValidBoard(inicial) && ValidBoard(objetivo) && NodeOk(inicial, objetivo, actual)
    ensures Pushed(actual, visitados, pq, pq', dirs, 4)
    ensures forall i :: |pq| <= i < |pq'| ==> NodeOk(inicial, objetivo, pq'[i])
    ensures forall m :: Step(actual.tablero, m).Some? && Key(Step(actual.tablero, m).value) !in visitados ==>
              InFrontier(pq', Step(actual.tablero, m).value, actual.g + 1)
  {
    pq', dirs := pq, [];
    var b := actual.tablero;
    for i := 0 to 4
      invariant Pushed(actual, visitados, pq, pq', dirs, i)
      invariant NewOk(inicial, objetivo, pq', |pq|)
    {
      var mv := Moves[i];
      var nx := actual.x + Dx(mv);
      var ny := actual.y + Dy(mv);
      BoundsCheck(actual, mv, nx, ny);
      if 0 <= nx < 3 && 0 <= ny < 3 {
        var tablero := Swap(b, 3 * actual.x + actual.y, 3 * nx + ny);
        var h := CalcularHeuristica(tablero, objetivo);
        var nuevo := Estado(tablero, nx, ny, actual.g + 1, h, actual.camino + Label(mv) + " -> ");
        ChildOk(inicial, objetivo, actual, mv, nx, ny);
        ValidDigits(tablero);
        var newKey := EstadoAString(tablero);
        if newKey !in visitados {
          PushedPush(actual, visitados, pq, pq', dirs, i, nuevo);
          pq', dirs := pq' + [nuevo], dirs + [i];
        } else {
          PushedSkip(actual, visitados, pq, pq', dirs, i);
        }
      } else {
        PushedSkip(actual, visitados, pq, pq', dirs, i);
      }
    }
    PushedCovers(actual, visitados, pq, pq', dirs);
  }

  /** The record of the work done: expandidos lists the expanded boards once each, in step with G;
      each pop expands at most one board, and each expansion queues at most four nodes; every
      expanded board is reachable and is not the goal. */
  ghost predicate WorkInv(inicial: Board, objetivo: Board, pq: seq<Estado>, G: map<Board, int>,
                          expandidos: seq<Board>, iteraciones: int)
    requires ValidBoard(inicial)
  {
    && |expandidos| <= iteraciones && Distinct(expandidos)
    && (forall b :: b in G <==> b in expandidos)
    && iteraciones + |pq| <= 1 + 4 * |expandidos|
    && (forall b :: b in expandidos ==> b != objetivo && Reachable(inicial, b))
    && (forall b :: b in expandidos ==> ReachedWithin(inicial, objetivo, b))
  }

  /** The invariant of the main loop of resolverPuzzle after iteraciones pops. */
  ghost predicate LoopInv(inicial: Board, objetivo: Board, inicio: Estado, pq: seq<Estado>, visitados: set<string>,
                          G: map<Board, int>, expandidos: seq<Board>, iteraciones: int)
    requires ValidBoard(inicial) && ValidBoard(objetivo)
  {
    && 0 <= iteraciones <= MaxIteraciones
    && SearchInv(inicial, objetivo, pq, visitados, G)
    && WorkInv(inicial, objetivo, pq, G, expandidos, iteraciones)
    && (iteraciones == 0 ==> pq == [inicio])
    && (inicial == objetivo ==> iteraciones == 0)
    && inicio.tablero == inicial && inicio.camino == ""
  }

  lemma {:induction false} LoopInit(inicial: Board, objetivo: Board, inicio: Estado)
    requires ValidBoard(inicial) && ValidBoard(objetivo)
    requires inicio.tablero == inicial && inicio.g == 0 && inicio.camino == ""
    requires 0 <= inicio.x < 3 && 0 <= inicio.y < 3 && inicial[3 * inicio.x + inicio.y] == 0
    requires inicio.h == Manhattan(inicial, objetivo)
    ensures LoopInv(inicial, objetivo, inicio, [inicio], {}, map[], [], 0)
  {
    InitInv(inicial, objetivo, inicio);
  }

  /** What the loop body knows of the node it pops. */
  lemma {:induction false} LoopPop(inicial: Board, objetivo: Board, inicio: Estado, pq: seq<Estado>, visitados: set<string>,
                G: map<Board, int>, expandidos: seq<Board>, iteraciones: int, k: int)
    requires ValidBoard(inicial) && ValidBoard(objetivo)
    requires LoopInv(inicial, objetivo, inicio, pq, visitados, G, expandidos, iteraciones)
    requires 0 <= k < |pq|
    ensures NodeOk(inicial, objetivo, pq[k]) && ValidBoard(pq[k].tablero)
    ensures Key(pq[k].tablero) in visitados <==> pq[k].tablero in G
  {
    assert AllOk(inicial, objetivo, pq);
  }

  /** The goal popped: its path string is a shortest solution, and the empty one when the start
      is the goal (actividad1.cpp:155-159). */
  lemma {:induction false} LoopGoal(inicial: Board, objetivo: Board, inicio: Estado, pq: seq<Estado>, visitados: set<string>,
                 G: map<Board, int>, expandidos: seq<Board>, iteraciones: int, k: int)
    requires ValidBoard(inicial) && ValidBoard(objetivo)
    requires LoopInv(inicial, objetivo, inicio, pq, visitados, G, expandidos, iteraciones)
    requires 0 <= k < |pq| && IsMin(pq, k) && pq[k].tablero == objetivo
    ensures Solves(inicial, objetivo, pq[k].camino)
    ensures Shortest(inicial, objetivo, Parse(pq[k].camino).value)
    ensures inicial == objetivo ==> pq[k].camino == ""
  {
    assert NodeOk(inicial, objetivo, pq[k]);
    PoppedOptimal(inicial, objetivo, pq, visitados, G, k);
  }

  /** A popped node other than the start was not the only one queued, so the start is not the goal. */
  lemma {:induction false} StartNotGoal(inicial: Board, objetivo: Board, inicio: Estado, pq: seq<Estado>, visitados: set<string>,
                     G: map<Board, int>, expandidos: seq<Board>, iteraciones: int, k: int)
    requires ValidBoard(inicial) && ValidBoard(objetivo)
    requires LoopInv(inicial, objetivo, inicio, pq, visitados, G, expandidos, iteraciones)
    requires 0 <= k < |pq| && pq[k].tablero != objetivo
    ensures inicial != objetivo
  {
  }

  /** A popped board already expanded is dropped (actividad1.cpp:162-164). */
  lemma {:induction false} LoopSkip(inicial: Board, objetivo: Board, inicio: Estado, pq: seq<Estado>, visitados: set<string>,
                 G: map<Board, int>, expandidos: seq<Board>, iteraciones: int, k: int)
    requires ValidBoard(inicial) && ValidBoard(objetivo)
    requires LoopInv(inicial, objetivo, inicio, pq, visitados, G, expandidos, iteraciones)
    requires iteraciones < MaxIteraciones && 0 <= k < |pq| && pq[k].tablero != objetivo && pq[k].tablero in G
    ensures LoopInv(inicial, objetivo, inicio, Remove(pq, k), visitados, G, expandidos, iteraciones + 1)
  {
    StartNotGoal(inicial, objetivo, inicio, pq, visitados, G, expandidos, iteraciones, k);
    SkipKeeps(inicial, objetivo, pq, visitados, G, k);
  }

  /** A popped board not yet expanded is marked and its children are queued (actividad1.cpp:166-189). */
  lemma {:induction false} LoopExpand(inicial: Board, objetivo: Board, inicio: Estado, pq: seq<Estado>, visitados: set<string>,
                   G: map<Board, int>, expandidos: seq<Board>, iteraciones: int, k: int, hijos: seq<Estado>)
    requires ValidBoard(inicial) && ValidBoard(objetivo)
    requires LoopInv(inicial, objetivo, inicio, pq, visitados, G, expandidos, iteraciones)
    requires iteraciones < MaxIteraciones && 0 <= k < |pq| && IsMin(pq, k)
    requires pq[k].tablero != objetivo && pq[k].tablero !in G
    requires Remove(pq, k) <= hijos && |hijos| <= |pq| + 3
    requires forall i :: |pq| - 1 <= i < |hijos| ==> NodeOk(inicial, objetivo, hijos[i])
    requires var v := pq[k].tablero;
             forall m :: Step(v, m).Some? && Key(Step(v, m).value) !in visitados + {Key(v)} ==>
               InFrontier(hijos, Step(v, m).value, pq[k].g + 1)
    ensures LoopInv(inicial, objetivo, inicio, hijos, visitados + {Key(pq[k].tablero)},
                    G[pq[k].tablero := pq[k].g], expandidos + [pq[k].tablero], iteraciones + 1)
  {
    StartNotGoal(inicial, objetivo, inicio, pq, visitados, G, expandidos, iteraciones, k);
    assert SearchInv(inicial, objetivo, pq, visitados, G);
    ExpandKeeps(inicial, objetivo, pq, visitados, G, k, hijos);
    assert NodeOk(inicial, objetivo, pq[k]);
    PoppedBound(inicial, objetivo, pq, visitados, G, k);
    WorkExpand(inicial, objetivo, pq, G, expandidos, iteraciones, pq[k], hijos);
    LoopAssemble(inicial, objetivo, inicio, hijos, visitados + {Key(pq[k].tablero)},
                 G[pq[k].tablero := pq[k].g], expandidos + [pq[k].tablero], iteraciones + 1);
  }

  lemma {:induction false} LoopAssemble(inicial: Board, objetivo: Board, inicio: Estado, pq: seq<Estado>,
                                        visitados: set<string>, G: map<Board, int>, expandidos: seq<Board>,
                                        iteraciones: int)
    requires ValidBoard(inicial) && ValidBoard(objetivo)
    requires 0 < iteraciones <= MaxIteraciones && inicial != objetivo
    requires SearchInv(inicial, objetivo, pq, visitados, G)
    requires WorkInv(inicial, objetivo, pq, G, expandidos, iteraciones)
    requires inicio.tablero == inicial && inicio.camino == ""
    ensures LoopInv(inicial, objetivo, inicio, pq, visitados, G, expandidos, iteraciones)
  {
  }

  /** Recording a newly expanded board keeps the record duplicate-free and in step with G. */
  lemma {:induction false} Expanded(G: map<Board, int>, expandidos: seq<Board>, v: Board, gv: int)
    requires (forall b :: b in G <==> b in expandidos) && Distinct(expandidos) && v !in G
    ensures (forall b :: b in G[v := gv] <==> b in expandidos + [v]) && Distinct(expandidos + [v])
  {
    var e' := expandidos + [v];
    assert forall j :: 0 <= j < |expandidos| ==> e'[j] == expandidos[j];
  }

  /** An expansion uses one pop, removes one node, adds at most four and records one board. */
  lemma {:induction false} WorkStep(pops: int, queued: int, queued': int, expanded: int)
    requires pops + queued <= 1 + 4 * expanded && queued' <= queued + 3
    ensures (pops + 1) + queued' <= 1 + 4 * (expanded + 1)
  {
  }

  /** The newly expanded board is reachable, through the path its node carries, and is not the goal. */
  lemma {:induction false} ExpandedReachable(inicial: Board, objetivo: Board, expandidos: seq<Board>, n: Estado)
    requires ValidBoard(inicial) && ValidBoard(objetivo) && NodeOk(inicial, objetivo, n)
    requires n.tablero != objetivo
    requires forall b :: b in expandidos ==> b != objetivo && Reachable(inicial, b)
    requires forall b :: b in expandidos ==> ReachedWithin(inicial, objetivo, b)
    requires forall q :: Replay(inicial, q) == Some(objetivo) ==> n.F() <= |q|
    ensures forall b :: b in expandidos + [n.tablero] ==> b != objetivo && Reachable(inicial, b)
    ensures forall b :: b in expandidos + [n.tablero] ==> ReachedWithin(inicial, objetivo, b)
  {
    var p := Parse(n.camino).value;
    assert Replay(inicial, p) == Some(n.tablero);
    assert |p| + Manhattan(n.tablero, objetivo) == n.F();
  }

  /** Expanding the popped node n keeps the record of the work done. */
  lemma {:induction false} WorkExpand(inicial: Board, objetivo: Board, pq: seq<Estado>, G: map<Board, int>,
                                      expandidos: seq<Board>, iteraciones: int, n: Estado, hijos: seq<Estado>)
    requires ValidBoard(inicial) && ValidBoard(objetivo) && NodeOk(inicial, objetivo, n)
    requires WorkInv(inicial, objetivo, pq, G, expandidos, iteraciones)
    requires n.tablero != objetivo && n.tablero !in G && |hijos| <= |pq| + 3
    requires forall q :: Replay(inicial, q) == Some(objetivo) ==> n.F() <= |q|
    ensures WorkInv(inicial, objetivo, hijos, G[n.tablero := n.g], expandidos + [n.tablero], iteraciones + 1)
  {
    Expanded(G, expandidos, n.tablero, n.g);
    ExpandedReachable(inicial, objetivo, expandidos, n);
    WorkStep(iteraciones, |pq|, |hijos|, |expandidos|);
    assert |expandidos + [n.tablero]| == |expandidos| + 1;
  }

  /** The loop stopped: either the budget is spent, or the queue is empty and the goal unreachable. */
  lemma {:induction false} LoopExit(inicial: Board, objetivo: Board, inicio: Estado, pq: seq<Estado>, visitados: set<string>,
                 G: map<Board, int>, expandidos: seq<Board>, iteraciones: int)
    requires ValidBoard(inicial) && ValidBoard(objetivo)
    requires LoopInv(inicial, objetivo, inicio, pq, visitados, G, expandidos, iteraciones)
    requires pq == [] || iteraciones == MaxIteraciones
    ensures pq == [] ==> Unreachable(inicial, objetivo)
    ensures inicial != objetivo
  {
    if pq == [] {
      FrontierEmpty(inicial, objetivo, visitados, G);
    }
  }

  /** resolverPuzzle (actividad1.cpp:115-194). The result holds one path string when the goal is
      popped, and is empty when the queue runs dry or the 200000-pop budget is spent. The ghost
      outputs record the expanded boards in order, the pops made, and whether the budget ran out. */
  method ResolverPuzzle(inicial: Board, objetivo: Board)
    returns (resultado: seq<string>, ghost expandidos: seq<Board>, ghost pops: nat, ghost agotado: bool)
    requires ValidBoard(inicial) && ValidBoard(objetivo)
    ensures |resultado| <= 1
    ensures |resultado| == 1 ==> Solves(inicial, objetivo, resultado[0])
    ensures |resultado| == 1 ==> Shortest(inicial, objetivo, Parse(resultado[0]).value)
    ensures inicial == objetivo ==> resultado == [""]
    ensures resultado == [] && !agotado ==> Unreachable(inicial, objetivo)
    ensures |resultado| == 1 ==> !agotado
    ensures agotado ==> pops == MaxIteraciones
    ensures pops <= MaxIteraciones && |expandidos| <= pops && Distinct(expandidos)
    ensures pops <= 1 + 4 * |expandidos|
    ensures forall b :: b in expandidos ==> b != objetivo && Reachable(inicial, b)
    ensures forall b :: b in expandidos ==> ReachedWithin(inicial, objetivo, b)
    ensures agotado ==> |expandidos| >= 50000
  {
    var x0, y0 := LocalizarBlanco(inicial);
    var h0 := CalcularHeuristica(inicial, objetivo);
    var inicio := Estado(inicial, x0, y0, 0, h0, "");
    var pq := [inicio];
    var visitados: set<string> := {};
    ghost var G: map<Board, int> := map[];
    expandidos := [];
    LoopInit(inicial, objetivo, inicio);
    var iteraciones := 0;
    while pq != [] && iteraciones < MaxIteraciones
      invariant LoopInv(inicial, objetivo, inicio, pq, visitados, G, expandidos, iteraciones)
      decreases MaxIteraciones - iteraciones
    {
      MinExists(pq);
      var k :| 0 <= k < |pq| && IsMin(pq, k);
      var actual := pq[k];
      var resto := Remove(pq, k);
      LoopPop(inicial, objetivo, inicio, pq, visitados, G, expandidos, iteraciones, k);
      var esObjetivo := SonIguales(actual.tablero, objetivo);
      if esObjetivo {
        LoopGoal(inicial, objetivo, inicio, pq, visitados, G, expandidos, iteraciones, k);
        resultado, pops, agotado := [actual.camino], iteraciones + 1, false;
        return;
      }
      ValidDigits(actual.tablero);
      var key := EstadoAString(actual.tablero);
      if key in visitados {
        LoopSkip(inicial, objetivo, inicio, pq, visitados, G, expandidos, iteraciones, k);
        pq := resto;
      } else {
        var hijos, dirs := GenerarVecinos(actual, objetivo, visitados + {key}, resto, inicial);
        LoopExpand(inicial, objetivo, inicio, pq, visitados, G, expandidos, iteraciones, k, hijos);
        pq, visitados := hijos, visitados + {key};
        G := G[actual.tablero := actual.g];
        expandidos := expandidos + [actual.tablero];
      }
      iteraciones := iteraciones + 1;
    }
    LoopExit(inicial, objetivo, inicio, pq, visitados, G, expandidos, iteraciones);
    resultado, pops, agotado := [], iteraciones, pq != [];
  }
}
