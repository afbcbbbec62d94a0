/** The streamed reply: a finite, ordered sequence of chunks, each with a list of choices
    whose first element may carry a text delta. */
module Stream {
  import opened Options

  /** One choice of a chunk; `delta` is its `delta.content`, absent or a string. */
  datatype Choice = Choice(delta: Option<string>)

  datatype Chunk = Chunk(choices: seq<Choice>)

  /** A chunk whose first choice carries a non-empty delta (Python's `if delta.content:`). */
  predicate HasText(c: Chunk)
  {
    c.choices != [] && c.choices[0].delta.Some? && c.choices[0].delta.value != ""
  }

  /** The non-empty deltas of the chunks, in arrival order. */
  function Deltas(cs: seq<Chunk>): (ds: seq<string>)
    ensures forall i :: 0 <= i < |ds| ==> ds[i] != ""
    ensures |ds| <= |cs|
  {
    if cs == [] then []
    else
      var last := cs[|cs| - 1];
      Deltas(cs[..|cs| - 1]) + if HasText(last) then [last.choices[0].delta.value] else []
  }

  /** The strings concatenated in order. */
  function Flatten(ss: seq<string>): string
  {
    if ss == [] then "" else Flatten(ss[..|ss| - 1]) + ss[|ss| - 1]
  }

  /** How many chunks are read before one without choices (where `chunk.choices[0]` raises
      an `IndexError`); all of them when there is none. */
  function ReadableCount(cs: seq<Chunk>): (n: nat)
    ensures n <= |cs|
    ensures forall j :: 0 <= j < n ==> cs[j].choices != []
    ensures n < |cs| ==> cs[n].choices == []
  {
    if cs == [] then 0
    else if cs[0].choices == [] then 0
    else
      var n := 1 + ReadableCount(cs[1..]);
      assert forall j :: 1 <= j < n ==> cs[j] == cs[1..][j - 1];
      n
  }

  /** The `for chunk in stream` loop of `process_query`: each non-empty delta is printed and
      appended to the accumulator, in arrival order, until the stream ends or a chunk without
      choices stops it. `printed` lists the print calls; `complete` says the stream ended. */
  method StreamReply(response: seq<Chunk>) returns (printed: seq<string>, content: string, complete: bool)
    ensures printed == Deltas(response[..ReadableCount(response)])
    ensures content == Flatten(printed)
    ensures complete == (ReadableCount(response) == |response|)
  {
    printed := [];
    content := "";
    var i := 0;
    while i < |response|
      invariant i <= |response|
      invariant forall j :: 0 <= j < i ==> response[j].choices != []
      invariant printed == Deltas(response[..i])
      invariant content == Flatten(printed)
    {
      var chunk := response[i];
      if chunk.choices == [] {
        return printed, content, false;
      }
      var delta := chunk.choices[0].delta;
      if delta.Some? && delta.value != "" {
        printed := printed + [delta.value];
        content := content + delta.value;
      }
      assert response[..i + 1][..i] == response[..i];
      i := i + 1;
    }
    assert response[..i] == response;
    return printed, content, true;
  }

  lemma {:induction false} FlattenAppend(a: seq<string>, b: seq<string>)
    ensures Flatten(a + b) == Flatten(a) + Flatten(b)
  {
    if b == [] {
      assert a + b == a;
    } else {
      assert (a + b)[..|a + b| - 1] == a + b[..|b| - 1];
      assert (a + b)[|a + b| - 1] == b[|b| - 1];
      FlattenAppend(a, b[..|b| - 1]);
    }
  }

  lemma {:induction false} DeltasAppend(a: seq<Chunk>, b: seq<Chunk>)
    ensures Deltas(a + b) == Deltas(a) + Deltas(b)
  {
    if b == [] {
      assert a + b == a;
    } else {
      assert (a + b)[..|a + b| - 1] == a + b[..|b| - 1];
      assert (a + b)[|a + b| - 1] == b[|b| - 1];
      DeltasAppend(a, b[..|b| - 1]);
    }
  }

  /** The accumulated reply of two consecutive runs of chunks is the reply of the first
      followed by the reply of the second, so accumulation does not depend on how the
      stream is divided. */
  lemma AccumulatedAppend(a: seq<Chunk>, b: seq<Chunk>)
    ensures Flatten(Deltas(a + b)) == Flatten(Deltas(a)) + Flatten(Deltas(b))
  {
    DeltasAppend(a, b);
    FlattenAppend(Deltas(a), Deltas(b));
  }

  /** A chunk with an absent or empty delta, wherever it arrives, contributes nothing. */
  lemma TextlessChunkContributesNothing(before: seq<Chunk>, c: Chunk, after: seq<Chunk>)
    requires !HasText(c)
    ensures Deltas(before + [c] + after) == Deltas(before + after)
    ensures Flatten(Deltas(before + [c] + after)) == Flatten(Deltas(before + after))
  {
    DeltasAppend(before + [c], after);
    DeltasAppend(before, [c]);
    DeltasAppend(before, after);
    assert Deltas([c]) == [] by {
      assert [c][..0] == [];
    }
  }

  /** Nothing is dropped or reordered: when every chunk carries text, the deltas are the
      chunks' texts one for one. */
  lemma {:induction false} EveryTextKept(cs: seq<Chunk>)
    requires forall j :: 0 <= j < |cs| ==> HasText(cs[j])
    ensures |Deltas(cs)| == |cs|
    ensures forall j :: 0 <= j < |cs| ==> HasText(cs[j]) ==> Deltas(cs)[j] == cs[j].choices[0].delta.value
  {
    if cs != [] {
      EveryTextKept(cs[..|cs| - 1]);
    }
  }
}
