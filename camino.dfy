/** The path string of resolverPuzzle: each move appends its label and " -> " (actividad1.cpp:182),
    and main counts the '>' characters to report the number of moves (actividad1.cpp:266-270).
    Parse reads the moves back, so the string determines the move sequence. */
module Camino {
  import opened Tablero

  const Sep: string := " -> "

  /** What one move appends to the path. */
  function Chunk(m: Move): string {
    Label(m) + Sep
  }

  /** The path string after playing ms from the start, built the way the search builds it. */
  function Render(ms: seq<Move>): string {
    if ms == [] then "" else Render(ms[..|ms| - 1]) + Chunk(ms[|ms| - 1])
  }

  /** The move whose chunk opens s, if any. */
  function FirstChunk(s: string): (r: Option<Move>)
    ensures r.Some? ==> Chunk(r.value) <= s
  {
    if Chunk(Arriba) <= s then Some(Arriba)
    else if Chunk(Abajo) <= s then Some(Abajo)
    else if Chunk(Izquierda) <= s then Some(Izquierda)
    else if Chunk(Derecha) <= s then Some(Derecha)
    else None
  }

  /** The moves a path string spells, or None if it is not a sequence of chunks. */
  function Parse(s: string): Option<seq<Move>>
    decreases |s|
  {
    if s == "" then Some([])
    else
      match FirstChunk(s)
      case None => None
      case Some(m) =>
        match Parse(s[|Chunk(m)|..])
        case None => None
        case Some(rest) => Some([m] + rest)
  }

  /** Number of occurrences of c in s (the counting loop of main). */
  function CountChar(s: string, c: char): nat {
    if s == "" then 0 else CountChar(s[..|s| - 1], c) + (if s[|s| - 1] == c then 1 else 0)
  }

  /** No chunk is a prefix of another chunk followed by anything. */
  lemma {:induction false} FirstChunkOf(m: Move, rest: string)
    ensures FirstChunk(Chunk(m) + rest) == Some(m)
  {
    var s := Chunk(m) + rest;
    assert s[..|Chunk(m)|] == Chunk(m);
    assert s[0] == Label(m)[0] && s[1] == Label(m)[1];
  }

  lemma {:induction false} RenderLast(ms: seq<Move>)
    requires ms != []
    ensures Render(ms) == Render(ms[..|ms| - 1]) + Chunk(ms[|ms| - 1])
  {
  }

  lemma {:induction false} Assoc(a: string, b: string, c: string)
    ensures (a + b) + c == a + (b + c)
  {
  }

  lemma {:induction false} RenderCons(m: Move, ms: seq<Move>)
    ensures Render([m] + ms) == Chunk(m) + Render(ms)
    decreases |ms|
  {
    if ms == [] {
      assert [m] + ms == [m];
      assert [m][..0] == [];
    } else {
      var init, last := ms[..|ms| - 1], ms[|ms| - 1];
      var whole := [m] + ms;
      assert whole[..|whole| - 1] == [m] + init;
      assert whole[|whole| - 1] == last;
      RenderCons(m, init);
      RenderLast(whole);
      RenderLast(ms);
      Assoc(Chunk(m), Render(init), Chunk(last));
    }
  }

  /** Reading back a rendered path gives the moves that produced it. */
  lemma {:induction false} ParseRender(ms: seq<Move>)
    ensures Parse(Render(ms)) == Some(ms)
    decreases |ms|
  {
    if ms != [] {
      var m, rest := ms[0], ms[1..];
      assert ms == [m] + rest;
      RenderCons(m, rest);
      FirstChunkOf(m, Render(rest));
      ParseRender(rest);
      assert (Chunk(m) + Render(rest))[|Chunk(m)|..] == Render(rest);
    }
  }

  /** One step of Parse on a non-empty parsable string. */
  lemma {:induction false} ParseUnfold(s: string)
    requires s != "" && Parse(s).Some?
    ensures FirstChunk(s).Some?
    ensures var m := FirstChunk(s).value;
            && Parse(s[|Chunk(m)|..]).Some?
            && Parse(s) == Some([m] + Parse(s[|Chunk(m)|..]).value)
  {
  }

  lemma {:induction false} PrefixSplit(a: string, s: string)
    requires a <= s
    ensures s == a + s[|a|..]
  {
  }

  /** A string that parses is the rendering of its moves: rendering is onto the parsable strings. */
  lemma {:induction false} RenderParse(s: string)
    requires Parse(s).Some?
    ensures Render(Parse(s).value) == s
    decreases |s|
  {
    if s != "" {
      ParseUnfold(s);
      var m := FirstChunk(s).value;
      var tail := s[|Chunk(m)|..];
      RenderParse(tail);
      RenderCons(m, Parse(tail).value);
      PrefixSplit(Chunk(m), s);
    }
  }

  /** Appending a chunk to a parsable path appends its move (actividad1.cpp:182). */
  lemma {:induction false} ParseExtend(s: string, m: Move)
    requires Parse(s).Some?
    ensures Parse(s + Chunk(m)) == Some(Parse(s).value + [m])
  {
    var ms := Parse(s).value;
    RenderParse(s);
    assert (ms + [m])[..|ms + [m]| - 1] == ms;
    ParseRender(ms + [m]);
  }

  lemma {:induction false} CountCharConcat(a: string, b: string, c: char)
    ensures CountChar(a + b, c) == CountChar(a, c) + CountChar(b, c)
    decreases |b|
  {
    if b == "" {
      assert a + b == a;
    } else {
      assert (a + b)[..|a + b| - 1] == a + b[..|b| - 1];
      CountCharConcat(a, b[..|b| - 1], c);
    }
  }

  lemma {:induction false} CountCharAbsent(s: string, c: char)
    requires c !in s
    ensures CountChar(s, c) == 0
  {
    if s != "" {
      assert s == s[..|s| - 1] + [s[|s| - 1]];
      CountCharAbsent(s[..|s| - 1], c);
    }
  }

  lemma {:induction false} ChunkArrows(m: Move)
    ensures CountChar(Chunk(m), '>') == 1
  {
    CountCharConcat(Label(m), Sep, '>');
    CountCharAbsent(Label(m), '>');
    CountCharConcat(" -", ">", '>');
    CountCharConcat(" ->", " ", '>');
    assert " -" + ">" == " ->" && " ->" + " " == Sep;
    CountCharAbsent(" -", '>');
    CountCharAbsent(" ", '>');
    assert ">"[..0] == "";
  }

  /** Each move contributes exactly one '>', so main's count is the number of moves. */
  lemma {:induction false} RenderArrows(ms: seq<Move>)
    ensures CountChar(Render(ms), '>') == |ms|
    decreases |ms|
  {
    if ms != [] {
      RenderArrows(ms[..|ms| - 1]);
      CountCharConcat(Render(ms[..|ms| - 1]), Chunk(ms[|ms| - 1]), '>');
      ChunkArrows(ms[|ms| - 1]);
    }
  }

  /** The loop of main that counts the '>' characters of the solution (actividad1.cpp:266-270). */
  method ContarMovimientos(camino: string) returns (numMovimientos: int)
    ensures numMovimientos == CountChar(camino, '>')
    ensures Parse(camino).Some? ==> numMovimientos == |Parse(camino).value|
  {
    numMovimientos := 0;
    for k := 0 to |camino|
      invariant numMovimientos == CountChar(camino[..k], '>')
    {
      assert camino[..k + 1][..k] == camino[..k];
      if camino[k] == '>' {
        numMovimientos := numMovimientos + 1;
      }
    }
    assert camino[..|camino|] == camino;
    if Parse(camino).Some? {
      RenderParse(camino);
      RenderArrows(Parse(camino).value);
    }
  }
}
