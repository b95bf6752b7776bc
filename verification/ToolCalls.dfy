/** Tool calls put together from the pieces of a stream. */
module ToolCalls {
  import opened Text

  datatype ToolCall = ToolCall(id: string, name: string, arguments: string)

  /** One piece; `index` says which call it belongs to. */
  datatype Delta = Delta(index: Option<int>, id: string, name: string, arguments: string)

  /** The pieces of one call, in order. */
  function Pieces(deltas: seq<Delta>, index: int): (own: seq<Delta>)
    ensures own == [] <==> forall k :: 0 <= k < |deltas| ==> deltas[k].index != Some(index)
  {
    if deltas == [] then []
    else
      var last, before := deltas[|deltas| - 1], Pieces(deltas[..|deltas| - 1], index);
      if last.index == Some(index) then before + [last] else before
  }

  function LastName(pieces: seq<Delta>): string {
    if pieces == [] then ""
    else if pieces[|pieces| - 1].name != "" then pieces[|pieces| - 1].name
    else LastName(pieces[..|pieces| - 1])
  }

  function AllArguments(pieces: seq<Delta>): string {
    if pieces == [] then "" else AllArguments(pieces[..|pieces| - 1]) + pieces[|pieces| - 1].arguments
  }

  /** The id comes from the first piece, the name from the last one that has one, the arguments from all of them in
      order. */
  function CallOf(pieces: seq<Delta>): ToolCall
    requires pieces != []
  {
    ToolCall(pieces[0].id, LastName(pieces), AllArguments(pieces))
  }

  /** The calls with indices below `n`, in the order of their indices. */
  function CallsBelow(deltas: seq<Delta>, n: nat): seq<ToolCall> {
    if n == 0 then []
    else
      var own := Pieces(deltas, n - 1);
      CallsBelow(deltas, n - 1) + (if own == [] then [] else [CallOf(own)])
  }

  function Highest(deltas: seq<Delta>): (n: nat)
    ensures forall k :: 0 <= k < |deltas| && deltas[k].index.Some? ==> deltas[k].index.value <= n
  {
    if deltas == [] then 0
    else
      var last, before := deltas[|deltas| - 1], Highest(deltas[..|deltas| - 1]);
      if last.index.Some? && last.index.value > before then last.index.value else before
  }

  function Collected(deltas: seq<Delta>): seq<ToolCall> {
    CallsBelow(deltas, Highest(deltas) + 1)
  }

  ghost predicate Holds(calls: map<int, ToolCall>, deltas: seq<Delta>) {
    forall i :: (i in calls <==> Pieces(deltas, i) != []) && (i in calls ==> calls[i] == CallOf(Pieces(deltas, i)))
  }

  lemma PiecesNext(deltas: seq<Delta>, k: nat, index: int)
    requires k < |deltas|
    ensures Pieces(deltas[..k + 1], index) ==
      Pieces(deltas[..k], index) + (if deltas[k].index == Some(index) then [deltas[k]] else [])
  {
    assert deltas[..k + 1][..k] == deltas[..k];
  }

  lemma CallNext(pieces: seq<Delta>, d: Delta)
    ensures var all := pieces + [d];
      CallOf(all) == if pieces == [] then ToolCall(d.id, d.name, d.arguments)
        else ToolCall(CallOf(pieces).id, if d.name != "" then d.name else CallOf(pieces).name,
          CallOf(pieces).arguments + d.arguments)
  {
    var all := pieces + [d];
    assert all[..|all| - 1] == pieces && all[|all| - 1] == d;
    assert AllArguments(all) == AllArguments(pieces) + d.arguments;
    assert LastName(all) == if d.name != "" then d.name else LastName(pieces);
    if pieces == [] {
      assert AllArguments(pieces) + d.arguments == d.arguments;
      assert d.name == "" ==> LastName(all) == d.name;
    }
  }

  lemma {:induction false} CallsAboveHighest(deltas: seq<Delta>, n: nat)
    requires n > Highest(deltas)
    ensures CallsBelow(deltas, n) == Collected(deltas)
  {
    hide Pieces, Highest;
    if n > Highest(deltas) + 1 {
      CallsAboveHighest(deltas, n - 1);
      assert Pieces(deltas, n - 1) == [];
    }
  }

  method AddDelta(calls: map<int, ToolCall>, d: Delta) returns (after: map<int, ToolCall>)
    ensures d.index.None? ==> after == calls
    ensures d.index.Some? ==> after == calls[d.index.value :=
      if d.index.value !in calls then ToolCall(d.id, d.name, d.arguments)
      else ToolCall(calls[d.index.value].id, if d.name != "" then d.name else calls[d.index.value].name,
        calls[d.index.value].arguments + d.arguments)]
  {
    after := calls;
    if d.index.None? {
      return;
    }
    var i := d.index.value;
    if i !in after {
      after := after[i := ToolCall(d.id, d.name, d.arguments)];
    } else {
      if d.name != "" {
        after := after[i := after[i].(name := d.name)];
      }
      if d.arguments != "" {
        after := after[i := after[i].(arguments := after[i].arguments + d.arguments)];
      }
      assert calls[i].arguments + "" == calls[i].arguments;
    }
  }

  lemma HoldsNext(calls: map<int, ToolCall>, after: map<int, ToolCall>, deltas: seq<Delta>, k: nat)
    requires k < |deltas| && Holds(calls, deltas[..k])
    requires var d := deltas[k]; if d.index.None? then after == calls
      else after == calls[d.index.value :=
        if d.index.value !in calls then ToolCall(d.id, d.name, d.arguments)
        else ToolCall(calls[d.index.value].id, if d.name != "" then d.name else calls[d.index.value].name,
          calls[d.index.value].arguments + d.arguments)]
    ensures Holds(after, deltas[..k + 1])
  {
    hide CallOf, Pieces;
    forall i
      ensures i in after <==> Pieces(deltas[..k + 1], i) != []
      ensures i in after ==> after[i] == CallOf(Pieces(deltas[..k + 1], i))
    {
      PiecesNext(deltas, k, i);
      CallNext(Pieces(deltas[..k], i), deltas[k]);
      if deltas[k].index != Some(i) {
        assert Pieces(deltas[..k + 1], i) == Pieces(deltas[..k], i);
      }
    }
  }

  method HighestKey(calls: map<int, ToolCall>) returns (maxIdx: int)
    ensures maxIdx >= 0 && forall i :: i in calls ==> i <= maxIdx
  {
    maxIdx := 0;
    var left := calls.Keys;
    while exists i :: i in left
      invariant maxIdx >= 0
      invariant forall i :: i in calls && i !in left ==> i <= maxIdx
      decreases |left|
    {
      var i :| i in left;
      left := left - {i};
      if i > maxIdx {
        maxIdx := i;
      }
    }
  }

  /** Fills a map as the pieces arrive, then reads it from index 0 up; negative indices are never read. */
  method CollectToolCalls(deltas: seq<Delta>) returns (collected: seq<ToolCall>)
    ensures collected == Collected(deltas)
  {
    hide Pieces, CallOf;
    var calls: map<int, ToolCall> := map[];
    assert forall i :: Pieces(deltas[..0], i) == [] by { NoPieces(); assert deltas[..0] == []; }
    for k := 0 to |deltas|
      invariant Holds(calls, deltas[..k])
    {
      var after := AddDelta(calls, deltas[k]);
      HoldsNext(calls, after, deltas, k);
      calls := after;
    }
    assert deltas[..|deltas|] == deltas;
    var maxIdx := HighestKey(calls);
    collected := [];
    for i := 0 to maxIdx + 1
      invariant collected == CallsBelow(deltas, i)
    {
      if i in calls {
        collected := collected + [calls[i]];
      }
    }
    assert forall i :: i > maxIdx ==> Pieces(deltas, i) == [];
    CallsAbove(deltas, maxIdx + 1);
  }

  lemma NoPieces()
    ensures forall i :: Pieces([], i) == []
  {
  }

  /** Reading up to any index beyond which there is no piece gives the whole list. */
  lemma CallsAbove(deltas: seq<Delta>, n: nat)
    requires forall i :: i >= n ==> Pieces(deltas, i) == []
    ensures CallsBelow(deltas, n) == Collected(deltas)
  {
    if n > Highest(deltas) {
      CallsAboveHighest(deltas, n);
    } else {
      CallsStop(deltas, n, Highest(deltas) + 1);
    }
  }

  lemma {:induction false} CallsStop(deltas: seq<Delta>, n: nat, m: nat)
    requires n <= m && forall i :: i >= n ==> Pieces(deltas, i) == []
    ensures CallsBelow(deltas, m) == CallsBelow(deltas, n)
  {
    hide Pieces;
    if n < m {
      CallsStop(deltas, n, m - 1);
    }
  }

  lemma {:induction false} CallsBelowSame(a: seq<Delta>, b: seq<Delta>, n: nat)
    requires forall i: nat :: Pieces(a, i) == Pieces(b, i)
    ensures CallsBelow(a, n) == CallsBelow(b, n)
  {
    if n > 0 {
      CallsBelowSame(a, b, n - 1);
    }
  }

  /** However the pieces of different calls are interleaved, only the order of pieces within each call matters; pieces
      without an index, or with a negative one, do not matter at all. */
  lemma InterleavingDoesNotMatter(a: seq<Delta>, b: seq<Delta>)
    requires forall i: nat :: Pieces(a, i) == Pieces(b, i)
    ensures Collected(a) == Collected(b)
  {
    var n := Highest(a) + Highest(b) + 1;
    CallsAboveHighest(a, n);
    CallsAboveHighest(b, n);
    CallsBelowSame(a, b, n);
  }

  /** The indices that a list of calls comes from. */
  function Indices(deltas: seq<Delta>, n: nat): seq<nat> {
    if n == 0 then [] else Indices(deltas, n - 1) + (if Pieces(deltas, n - 1) == [] then [] else [n - 1])
  }

  lemma {:induction false} IndicesAscend(deltas: seq<Delta>, n: nat)
    ensures forall k :: 0 <= k < |Indices(deltas, n)| ==> Indices(deltas, n)[k] < n
    ensures forall j, k :: 0 <= j < k < |Indices(deltas, n)| ==> Indices(deltas, n)[j] < Indices(deltas, n)[k]
    ensures forall i: nat :: i in Indices(deltas, n) <==> i < n && Pieces(deltas, i) != []
  {
    hide Pieces;
    if n > 0 {
      IndicesAscend(deltas, n - 1);
    }
  }

  /** One call for each index seen, in increasing order of the indices. */
  lemma {:induction false} CallsAreInIndexOrder(deltas: seq<Delta>, n: nat)
    ensures |CallsBelow(deltas, n)| == |Indices(deltas, n)|
    ensures forall k :: 0 <= k < |Indices(deltas, n)| ==>
      Pieces(deltas, Indices(deltas, n)[k]) != []
        && CallsBelow(deltas, n)[k] == CallOf(Pieces(deltas, Indices(deltas, n)[k]))
  {
    hide Pieces, CallOf;
    if n > 0 {
      CallsAreInIndexOrder(deltas, n - 1);
    }
  }

  /** Every call that was begun is collected, once, in the order of the indices; pieces without an index or with a
      negative one give none. */
  lemma CollectedIs(deltas: seq<Delta>)
    ensures var indices := Indices(deltas, Highest(deltas) + 1);
      && (forall j, k :: 0 <= j < k < |indices| ==> indices[j] < indices[k])
      && (forall i: nat :: i in indices <==> exists k :: 0 <= k < |deltas| && deltas[k].index == Some(i))
      && |Collected(deltas)| == |indices|
      && forall j :: 0 <= j < |indices| ==>
           Pieces(deltas, indices[j]) != [] && Collected(deltas)[j] == CallOf(Pieces(deltas, indices[j]))
  {
    hide Pieces, CallOf, Highest;
    var n := Highest(deltas) + 1;
    IndicesAscend(deltas, n);
    CallsAreInIndexOrder(deltas, n);
  }
}
