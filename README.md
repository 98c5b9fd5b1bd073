# 8-puzzle solver and digit rules, modelled in Dafny

This project models the discrete core of two C++ programs. The first is the 8-puzzle solver of
`actividad1.cpp`. It covers the board and its four blank moves, the Manhattan heuristic
`calcularHeuristica`, the set key `estadoAString`, the comparison `sonIguales`, and the inversion
parity gate (`contarInversiones`, `puedenConectarse`). It also covers the A* search
`resolverPuzzle` and the outcome decision of `main`. The second is a pair of integer-level rules
of `actividad3.cpp`: the target flags of `obtenerClasesObjetivo`, and the nearest-pattern
recognition of `reconocerDigito` against the ten reference digits.

Modules, one file each:

- `Tablero` (`tablero.dfy`): the board, flattened row by row into a `seq<int>` of nine cells.
  - `ValidBoard` says the board is a permutation of 0..8.
  - `Step` is one blank move: the bounds check plus the swap. `Replay` plays a whole move sequence.
  - `Key` is the string key. Also here: the methods `EstadoAString`, `SonIguales` and
    `LocalizarBlanco`, the blank search at the top of `resolverPuzzle`.
- `Heuristica` (`heuristica.dfy`): the method `CalcularHeuristica`, with its four nested loops. It
  is proved equal to the function `Manhattan`.
  - `Manhattan` is zero exactly at the goal.
  - It changes by exactly one per move.
  - So it is admissible.
- `Inversiones` (`inversiones.dfy`): the methods `ContarInversiones` and `PuedenConectarse`, and the
  proof that every blank move keeps the inversion parity. The parity gate is therefore sound.
- `Camino` (`camino.dfy`): the path string. Each move appends `label + " -> "`.
  - `Parse` reads the moves back, with round trips both ways.
  - `ContarMovimientos` is main's count of `'>'` characters.
- `Busqueda` (`busqueda.dfy`): the A* loop as the method `ResolverPuzzle`.
  - The frontier is a `seq<Estado>`. Each pop takes any node of least `f = g + h`.
  - Expanded keys are a `set<string>`, and the pop budget is 200000.
  - Its contract: a returned path solves the puzzle and is a shortest one; an empty result
    without budget exhaustion means the goal is unreachable; no board is expanded twice.
  - The work bound: each pop queues at most four nodes, so the pops number at most one more than
    four times the expanded boards.
- `Programa` (`programa.dfy`): `main` without its console I/O. It has the fixed goal, the gate, the
  search and the three outcomes (`Imposible`, `SinSolucion`, `Solucion`). It also works through one
  concrete board, one move away from the goal, and proves the outcome `main` reports for it.
- `Digitos` (`digitos.dfy`): `ObtenerClasesObjetivo`, `ReconocerDigito` and the ten 7x5 reference
  patterns.

The program reports a spent budget and an empty queue with the same empty vector and the same
message (actividad1.cpp:192-193, 260-262). The model does the same, and it records which one
happened in a ghost output `agotado`. Only the case without exhaustion carries the proof of
unreachability. An exhausted budget is tied to the work done: it takes at least 50000 distinct
expanded boards, each reachable and each with f no larger than the length of any solution.

## Model

| member | source | states |
|---|---|---|
| Tablero.Dx | actividad1.cpp:142 | Each entry of `dx[]` is -1, 0 or 1, and it is 0 exactly for IZQUIERDA and DERECHA. |
| Tablero.Dy | actividad1.cpp:142-143 | Each entry of `dy[]` is -1, 0 or 1, and it is 0 exactly for ARRIBA and ABAJO. With `dx[]`, every move shifts the blank by exactly one cell. |
| Tablero.Label | actividad1.cpp:144 | Each label is a non-empty word of capital letters, so it cannot contain the separator `" -> "`. |
| Tablero.LabelInjective | actividad1.cpp:144 | Different moves have different labels. |
| Tablero.Swap | actividad1.cpp:176-177 | The copy has the two cells exchanged and every other cell unchanged. |
| Tablero.SwapValid | actividad1.cpp:176-177 | Exchanging two cells of a permutation board gives a permutation board. |
| Tablero.Step | actividad1.cpp:169-179 | A move is legal exactly when the blank stays inside the grid. The board it yields is again a permutation of 0..8. |
| Tablero.StepShape | actividad1.cpp:170-177 | A legal move swaps the blank with a non-blank tile at a different cell, one row or column away in the move's direction. |
| Tablero.Replay | actividad1.cpp:169-182 | A playable move sequence ends on a permutation board. |
| Tablero.ReplaySplit | actividad1.cpp:182 | Replaying a concatenated path replays its first part, then its second. |
| Tablero.ReplayAppend | actividad1.cpp:182 | Appending one move to a path applies that move to the board the path reaches. |
| Tablero.ReplayPrefix | actividad1.cpp:182 | Every prefix of a playable path is playable, and the rest of the path continues from where the prefix ends. |
| Tablero.KeyAt | actividad1.cpp:48-56 | The key has one character per cell, and character k is the digit of cell k. |
| Tablero.KeyInjective | actividad1.cpp:48-56 | Two digit boards get equal keys exactly when the boards are equal, so the key set tracks the set of expanded boards. |
| Tablero.EstadoAString | actividad1.cpp:48-56 | The loop builds the row-major key, nine characters long. |
| Tablero.SonIguales | actividad1.cpp:104-111 | Returns true exactly when the two boards are equal cell by cell. |
| Tablero.LocalizarBlanco | actividad1.cpp:120-129 | Returns an in-grid position holding 0, with no 0 after it in row-major order (the last blank wins). |
| Tablero.BlankIsIndexOf | actividad1.cpp:121-134 | On a permutation board, the blank found by the loop is the blank that moves. |
| Heuristica.CalcularHeuristica | actividad1.cpp:28-45 | The nested loops return the Manhattan distance: the sum, over non-blank tiles, of the grid distance to the tile's goal cell. |
| Heuristica.CellCostAt | actividad1.cpp:32-40 | The blank adds nothing. A tile adds the distance from its cell to its one goal cell. |
| Heuristica.ManhattanZero | actividad1.cpp:28-45 | For permutation boards, the heuristic is 0 exactly when the board equals the goal. |
| Heuristica.ManhattanStep | actividad1.cpp:28-45 | A legal blank move changes the heuristic by exactly one, up or down. |
| Heuristica.ManhattanPath | actividad1.cpp:181 | Consistency along a path: the heuristic drops by at most one per move. |
| Heuristica.ManhattanAdmissible | actividad1.cpp:28-45 | The heuristic never exceeds the length of any move sequence that reaches the goal. |
| Inversiones.ContarInversiones | actividad1.cpp:76-94 | Returns the number of pairs i < j of the row-major non-blank sequence whose values are out of order. |
| Inversiones.PuedenConectarse | actividad1.cpp:96-101 | Returns true exactly when the two inversion counts have equal parity. |
| Inversiones.NonBlankLength | actividad1.cpp:77-84 | A permutation board has exactly eight non-blank cells. |
| Inversiones.BoardInversionBound | actividad1.cpp:76-94 | The inversion count of a permutation board lies in 0..28. |
| Inversiones.InversionZero | actividad1.cpp:86-91 | The count is 0 exactly when the sequence is sorted. |
| Inversiones.SwapAdjacent | actividad1.cpp:86-91 | Exchanging two adjacent distinct values changes the count by exactly one. |
| Inversiones.HorizontalParity | actividad1.cpp:170-177 | A horizontal blank move leaves the non-blank sequence unchanged. |
| Inversiones.VerticalBoardParity | actividad1.cpp:170-177 | A vertical blank move moves one tile past two others and keeps the parity. |
| Inversiones.StepParity | actividad1.cpp:170-177 | Every legal blank move keeps the inversion parity. |
| Inversiones.ReplayParity | actividad1.cpp:170-177 | Every playable move sequence keeps the inversion parity. |
| Inversiones.GateSound | actividad1.cpp:248-253 | When the parities differ, no move sequence turns the start board into the goal. |
| Inversiones.GoalInversions | actividad1.cpp:212-214 | The goal {1,2,3},{8,0,4},{7,6,5} has non-blank sequence 1,2,3,8,4,7,6,5 and 7 inversions. |
| Inversiones.SortedBoardRejected | actividad1.cpp:212-253 | {1,2,3},{4,5,6},{7,8,0} has 0 inversions, so the gate rejects it against the goal. |
| Camino.FirstChunkOf | actividad1.cpp:144 | No move's chunk is a prefix of another move's chunk, so the first move of a path string is determined. |
| Camino.RenderCons | actividad1.cpp:182 | The rendered path of m followed by ms is m's chunk followed by the rendering of ms. |
| Camino.ParseRender | actividad1.cpp:182 | Parsing a rendered path gives back its moves. |
| Camino.RenderParse | actividad1.cpp:182 | A string that parses is the rendering of its moves. |
| Camino.ParseExtend | actividad1.cpp:182 | Appending `label + " -> "` to a parsable path appends that move. |
| Camino.RenderArrows | actividad1.cpp:266-270 | A rendered path contains one `'>'` per move. |
| Camino.ContarMovimientos | actividad1.cpp:266-270 | The loop counts the `'>'` characters. On a path string this equals the number of moves. |
| Busqueda.FLowerBound | actividad1.cpp:18 | For a well-formed node, its path followed by any q that reaches the goal is a solution of g plus the length of q moves, and f = g + h is at most that length. |
| Busqueda.MinExists | actividad1.cpp:149-152 | A non-empty queue has a node of least f, which the pop takes. |
| Busqueda.Remove | actividad1.cpp:152 | Popping node k leaves every other node, in order. |
| Busqueda.FirstOpen | actividad1.cpp:161-166 | A path to an unexpanded board has a first unexpanded board along it, and every board before that one was expanded. |
| Busqueda.FrontierWitness | actividad1.cpp:168-189 | Under the search invariant, the first unexpanded board on any path waits in the queue with g no larger than its position on the path. |
| Busqueda.PoppedOptimal | actividad1.cpp:149-166 | A popped node of least f whose board has not been expanded carries a shortest path to its board. This uses admissibility, consistency and the invariant. |
| Busqueda.PoppedBound | actividad1.cpp:149-152 | A popped node of least f has f no larger than the length of any solution. |
| Busqueda.InitInv | actividad1.cpp:131-139 | The initial queue, holding only the start node, satisfies the search invariant. |
| Busqueda.SkipKeeps | actividad1.cpp:161-164 | Dropping a popped board that was already expanded keeps the search invariant. |
| Busqueda.ExpandKeeps | actividad1.cpp:166-189 | Marking a popped least-f board and queueing its unvisited children keeps the search invariant. |
| Busqueda.FrontierEmpty | actividad1.cpp:149-193 | An empty queue under the invariant means the goal is unreachable from the start. |
| Busqueda.ChildOk | actividad1.cpp:170-182 | A generated child is a valid node: blank at (nx, ny), g one more, h recomputed, and its path replays to its board. |
| Busqueda.BoundsCheck | actividad1.cpp:170-174 | The bounds check on (nx, ny) is exactly the legality of the move. |
| Busqueda.GenerarVecinos | actividad1.cpp:168-189 | Only appends to the queue, and in table order appends exactly one node per direction whose move is legal and whose child key is not in `visitados`. That node is the child by that move, with g one more and `label + " -> "` appended to the path. So at most four nodes are appended, each valid, and every legal unvisited child is queued. |
| Busqueda.PushedCovers | actividad1.cpp:168-189 | Once all four directions are done, every legal child whose key is not in `visitados` waits in the queue with g at most one more. |
| Busqueda.WorkExpand | actividad1.cpp:149-189 | Expanding a popped least-f board off the goal keeps the work record: one more pop, one more expanded board, at most four more queued nodes, and the new board is reachable within the solution bound. |
| Busqueda.LoopGoal | actividad1.cpp:155-159 | A popped goal carries a path that solves the puzzle and is shortest, and the empty path when start and goal coincide. |
| Busqueda.LoopExit | actividad1.cpp:149-193 | On leaving the loop: an empty queue means unreachable, and the start was not the goal. |
| Busqueda.ResolverPuzzle | actividad1.cpp:115-194 | At most one result. A returned path solves the puzzle and is shortest; when start equals goal it is the empty string. An empty result without exhausting the budget means the goal is unreachable. At most 200000 pops, and no board is expanded twice. A found path means the budget was not spent. The pops number at most one more than four times the expanded boards, so an exhausted budget means at least 50000 expanded boards. Every expanded board is reachable, is not the goal, and has, along some path, f no larger than any solution's length. |
| Programa.GoalValid | actividad1.cpp:211-214 | The fixed goal is a permutation of 0..8. |
| Programa.Ejecutar | actividad1.cpp:248-278 | `Imposible` exactly when the parities differ, and then the goal is unreachable. `SinSolucion` without budget exhaustion means unreachable. A `Solucion` solves the puzzle with a shortest path, and its move count is the path's length. The solved board gives `Solucion(0, "")`. An exhausted budget ends in `SinSolucion`, after at least 50000 distinct expanded boards, each reachable, off the goal and within the solution bound. |
| Programa.OneAwayMoves | actividad1.cpp:142-177 | From {1,2,3},{8,4,0},{7,6,5}, IZQUIERDA is the only move that reaches the goal. |
| Programa.OneAwayShortest | actividad1.cpp:115-194 | From that board, the shortest move sequences to the goal are exactly [IZQUIERDA]. |
| Programa.OneAwaySolution | actividad1.cpp:260-278 | Any shortest solution string for that board is `"IZQUIERDA -> "`. |
| Programa.OneMoveExpanded | actividad1.cpp:149-189 | When one move solves the start board, the only board off the goal that the search can expand is the start itself. |
| Programa.OneAwayOutcome | actividad1.cpp:248-278 | For that board, the outcome promised by `Ejecutar` can only be `Solucion(1, "IZQUIERDA -> ")`: at most one board is expanded, so the budget is not spent. |
| Programa.EjecutarOneAway | actividad1.cpp:196-282 | `main` on {1,2,3},{8,4,0},{7,6,5} reports one move along `"IZQUIERDA -> "`. |
| Digitos.SmallPrimes | actividad3.cpp:298-302 | Among 0..9, the source's lists {2,3,5,7} and {4,6,8,9} are exactly the primes and the composites. |
| Digitos.ObtenerClasesObjetivo | actividad3.cpp:289-305 | Four flags, each 0.0 or 1.0. Even and odd follow C++'s truncating `digito % 2`, so a negative odd digit gets neither. Prime and composite are set exactly for {2,3,5,7} and {4,6,8,9}, never both, and neither for 0 and 1. |
| Digitos.MatchesFull | actividad3.cpp:389-392 | All cells match exactly when the pattern equals the reference on those cells. |
| Digitos.ReconocerDigito | actividad3.cpp:384-402 | Returns the first index in 0..9 of greatest match count: no reference matches more, and every earlier one matches fewer. |
| Digitos.FirstArgmaxUnique | actividad3.cpp:395-398 | The strict comparison determines the result uniquely. |
| Digitos.ExactMatchWins | actividad3.cpp:390-397 | A reference equal to the pattern, with no earlier one equal, is the result. |
| Digitos.EmptyPattern | actividad3.cpp:385-399 | An empty pattern is recognised as 0. |
| Digitos.PatronesShape | actividad3.cpp:168-282 | Ten reference patterns, 35 cells each, every cell 0 or 1. |
| Digitos.PatronesDistinct | actividad3.cpp:168-282 | The ten reference patterns are pairwise different. |
| Digitos.PatronRecognised | actividad3.cpp:459-474 | Every reference pattern is recognised as its own digit. |

## Left out

- Console I/O: `imprimirTablero`, the reading of the start board, and every message of `main`
  (actividad1.cpp:60-72, 196-247, 255-282). The board is a parameter, and the outcome is the value
  of `Ejecutar`.
- Malformed start boards: a board without 0 leaves `x0, y0` uninitialised, and duplicate or
  out-of-range cells give undefined results. Such boards are ruled out by the precondition
  `ValidBoard`. `LocalizarBlanco` and `SonIguales` still take any nine cells, with at least one 0
  for `LocalizarBlanco`.
- The tie order of `std::priority_queue` among equal `f`: the model pops any node of least `f`,
  so every property holds for whichever tie order the library uses.
- The nested `vector<vector<int>>` board: it is flattened row by row, cell (i, j) at index 3i + j.
- The converse of the gate: that every board of matching parity can reach the goal is not proved.
  Neither is a bound on the number of reachable boards. So `SinSolucion` after an exhausted budget
  says only how much work was done; exhaustion is ruled out for the one-move board, not in general.
- The 32-bit width of `int`: integers are unbounded. The search's g stays below 200000, h below
  33 and the inversion count below 29, so the C++ values never overflow.
- Digitos.ReconocerDigito: `similitud / patron.size()` is compared as a match count. For a fixed
  positive size the division keeps the order. For an empty pattern the source compares NaN, every
  comparison fails, and it returns 0, which is also what the counts give. Cells are compared as
  exact reals, matching the source's `==` on doubles; NaN cells in a pattern are not modelled.
- Digitos.CRem: its contract gives only the sign and range of C++'s truncating remainder. The
  value itself is its definition.
- The neural network of `actividad3.cpp` (`RedNeuronal`, `sigmoid`, training with `rand`, `time`
  and `random_shuffle`, the mean squared error), and `leerDigitosDesdeArchivo`, `mostrarDigito`
  and `interpretarClases`: floating point, randomness, file reading and printing.
- `actividad2.cpp` (a floating-point control simulation with console and file output) and the
  plotting script under `output/`.
