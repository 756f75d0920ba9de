/**
 From positions in the generated program text back to the elements of the model: the program is a sequence of
 chunks of text, some of which carry information about where they come from.
 */
module ChunkInfos {
  datatype Chunk<I> = Chunk(text: string, infos: seq<I>)

  datatype Position = Position(row: int, col: int)

  predicate Before(a: Position, b: Position) {
    a.row < b.row || (a.row == b.row && a.col < b.col)
  }

  predicate NotAfter(a: Position, b: Position) {
    !Before(b, a)
  }

  // ----- Positions in the text, character by character

  function Advance(p: Position, c: char): Position {
    if c == '\n' then Position(p.row + 1, 1) else Position(p.row, p.col + 1)
  }

  function After(p: Position, text: string): Position {
    if text == "" then p else Advance(After(p, text[..|text| - 1]), text[|text| - 1])
  }

  function TextOf<I>(chunks: seq<Chunk<I>>): string {
    if chunks == [] then "" else TextOf(chunks[..|chunks| - 1]) + chunks[|chunks| - 1].text
  }

  /** Where the `k`-th chunk starts in the concatenated program. */
  function StartOf<I>(chunks: seq<Chunk<I>>, origin: Position, k: nat): Position
    requires k <= |chunks|
  {
    After(origin, TextOf(chunks[..k]))
  }

  /** The chunk carries information and its text, ends included, meets the range. */
  predicate Meets<I>(chunks: seq<Chunk<I>>, origin: Position, from: Position, to: Position, k: nat)
    requires k < |chunks|
  {
    chunks[k].infos != [] && NotAfter(from, StartOf(chunks, origin, k + 1)) && NotAfter(StartOf(chunks, origin, k), to)
  }

  type Found<I> = seq<(seq<I>, Position)>

  /** Of the first `k` chunks, in order, those that meet the range, with their true positions. */
  function Meeting<I>(chunks: seq<Chunk<I>>, origin: Position, from: Position, to: Position, k: nat): Found<I>
    requires k <= |chunks|
  {
    if k == 0 then []
    else
      Meeting(chunks, origin, from, to, k - 1)
      + if Meets(chunks, origin, from, to, k - 1) then [(chunks[k - 1].infos, StartOf(chunks, origin, k - 1))] else []
  }

  // ----- Positions line by line

  /** The lines of a text, as its breaks separate them. */
  function Lines(text: string): (r: seq<string>)
    ensures r != []
  {
    if text == "" then [""]
    else
      var front := Lines(text[..|text| - 1]);
      var c := text[|text| - 1];
      if c == '\n' then front + [""] else front[..|front| - 1] + [front[|front| - 1] + [c]]
  }

  /** Counting lines and the length of the last one gives the position after the text. */
  lemma {:induction false} LinesCount(p: Position, text: string)
    ensures After(p, text)
         == if |Lines(text)| > 1 then Position(p.row + |Lines(text)| - 1, |Lines(text)[|Lines(text)| - 1]| + 1)
                              else Position(p.row, p.col + |text|)
    ensures |Lines(text)| == 1 ==> |Lines(text)[0]| == |text|
    decreases |text|
  {
    if text != "" {
      LinesCount(p, text[..|text| - 1]);
    }
  }

  lemma {:induction false} AfterConcat(p: Position, a: string, b: string)
    ensures After(p, a + b) == After(After(p, a), b)
    decreases |b|
  {
    if b == "" {
      assert a + b == a;
    } else {
      assert (a + b)[..|a + b| - 1] == a + b[..|b| - 1];
      AfterConcat(p, a, b[..|b| - 1]);
    }
  }

  lemma {:induction false} AfterAdvances(p: Position, text: string)
    ensures NotAfter(p, After(p, text))
    decreases |text|
  {
    if text != "" {
      AfterAdvances(p, text[..|text| - 1]);
    }
  }

  lemma NextStart<I>(chunks: seq<Chunk<I>>, origin: Position, k: nat)
    requires k < |chunks|
    ensures StartOf(chunks, origin, k + 1) == After(StartOf(chunks, origin, k), chunks[k].text)
    ensures NotAfter(StartOf(chunks, origin, k), StartOf(chunks, origin, k + 1))
  {
    assert chunks[..k + 1][..k] == chunks[..k];
    AfterConcat(origin, TextOf(chunks[..k]), chunks[k].text);
    AfterAdvances(StartOf(chunks, origin, k), chunks[k].text);
  }

  /** Once a chunk ends after the range, no later one meets it. */
  lemma {:induction false} NoneLater<I>(chunks: seq<Chunk<I>>, origin: Position, from: Position, to: Position, k: nat,
          n: nat)
    requires 0 < k <= n <= |chunks| && Before(to, StartOf(chunks, origin, k))
    ensures Before(to, StartOf(chunks, origin, n))
    ensures Meeting(chunks, origin, from, to, n) == Meeting(chunks, origin, from, to, k)
    decreases n
  {
    if k < n {
      NoneLater(chunks, origin, from, to, k, n - 1);
      NextStart(chunks, origin, n - 1);
    }
  }

  /**
   Returns the information of the chunks that meet the range, with their positions in the program shifted down
   by the offset. The first chunk is taken without regard to the end of the range, which matters only for a
   range that ends before the program starts.
   */
  method GetChunkInfos<I>(chunks: seq<Chunk<I>>, offset: int, from: Position, to: Position) returns (infos: Found<I>)
    ensures var origin := Position(offset + 1, 1);
            infos == if NotAfter(origin, to) then Meeting(chunks, origin, from, to, |chunks|)
                     else if chunks != [] && chunks[0].infos != [] && NotAfter(from, StartOf(chunks, origin, 1))
                     then [(chunks[0].infos, origin)]
                     else []
  {
    ghost var origin := Position(offset + 1, 1);
    var row, col := offset + 1, 1;
    infos := [];
    for k := 0 to |chunks|
      invariant Position(row, col) == StartOf(chunks, origin, k)
      invariant k > 0 ==> NotAfter(StartOf(chunks, origin, k), to) && NotAfter(origin, to)
      invariant infos == Meeting(chunks, origin, from, to, k)
    {
      NextStart(chunks, origin, k);
      LinesCount(Position(row, col), chunks[k].text);
      var lines := Lines(chunks[k].text);
      var nextRow, nextCol := row, col + |chunks[k].text|;
      if |lines| > 1 {
        nextRow, nextCol := row + |lines| - 1, |lines[|lines| - 1]| + 1;
      }
      if (nextRow > from.row || (nextRow == from.row && nextCol >= from.col)) && |chunks[k].infos| > 0 {
        infos := infos + [(chunks[k].infos, Position(row, col))];
      }
      if (nextRow == to.row && nextCol > to.col) || nextRow > to.row {
        if NotAfter(origin, to) {
          NoneLater(chunks, origin, from, to, k + 1, |chunks|);
        }
        return;
      }
      row, col := nextRow, nextCol;
    }
  }

  /** What is found are the chunks that meet the range, each once and in order. */
  lemma {:induction false} MeetingExact<I>(chunks: seq<Chunk<I>>, origin: Position, from: Position, to: Position,
          n: nat)
    returns (at: seq<nat>)
    requires n <= |chunks|
    ensures |at| == |Meeting(chunks, origin, from, to, n)|
    ensures forall i, j :: 0 <= i < j < |at| ==> at[i] < at[j]
    ensures forall i :: 0 <= i < |at| ==>
              && at[i] < n
              && Meeting(chunks, origin, from, to, n)[i] == (chunks[at[i]].infos, StartOf(chunks, origin, at[i]))
    ensures forall k :: 0 <= k < n ==> (Meets(chunks, origin, from, to, k) <==> k in at)
    decreases n
  {
    if n == 0 {
      return [];
    }
    at := MeetingExact(chunks, origin, from, to, n - 1);
    if Meets(chunks, origin, from, to, n - 1) {
      at := at + [n - 1];
    }
  }
}
