/**
 * The parts of the BalancedGo library that the worker calls, kept abstract.
 * Hypergraphs and edge sets are passed through untouched; the balance predicate and
 * GetSubset are function values supplied by the caller; the generator of candidate
 * index combinations is a class holding the combinations it has still to offer and a
 * ghost log of the calls made on it.
 */
module BalancedGo {

  /** An edge of a hypergraph: its name and the vertices it connects. */
  datatype Edge = Edge(name: int, vertices: seq<int>)

  /** An ordered collection of edges. */
  datatype Edges = Edges(slice: seq<Edge>)

  /** A hypergraph: its edges and its special edges. */
  datatype Graph = Graph(edges: Edges, special: seq<Edges>)

  /** A balance predicate: does this edge subset separate the subgraph within the balance factor? */
  type Predicate = (Graph, Edges, int) -> bool

  /** GetSubset: the edges of an edge set picked out by a combination of indices. */
  type Subset = (Edges, seq<int>) -> Edges

  /** A call made on a generator, as recorded in its ghost log. */
  datatype Call = GetNext(comb: seq<int>) | Found(comb: seq<int>) | Confirm

  /**
   * A generator of candidate index combinations. GetNext shows the head of the
   * remaining combinations without consuming it; Confirm consumes it; Found marks it
   * as a hit.
   */
  class Generator {
    var remaining: seq<seq<int>>
    ghost var calls: seq<Call>

    constructor (combinations: seq<seq<int>>)
      ensures remaining == combinations && calls == []
    {
      remaining := combinations;
      calls := [];
    }

    function HasNext(): (more: bool)
      reads this
      ensures more <==> remaining != []
    {
      |remaining| > 0
    }

    method GetNext() returns (comb: seq<int>)
      requires remaining != []
      modifies this`calls
      ensures comb == remaining[0]
      ensures calls == old(calls) + [Call.GetNext(comb)]
    {
      comb := remaining[0];
      calls := calls + [Call.GetNext(comb)];
    }

    method Found()
      requires remaining != []
      modifies this`calls
      ensures calls == old(calls) + [Call.Found(remaining[0])]
    {
      calls := calls + [Call.Found(remaining[0])];
    }

    method Confirm()
      requires remaining != []
      modifies this
      ensures remaining == old(remaining)[1..]
      ensures calls == old(calls) + [Call.Confirm]
    {
      remaining := remaining[1..];
      calls := calls + [Call.Confirm];
    }
  }

  /**
   * A call log made of whole rounds: every GetNext(c) is followed either directly by
   * one Confirm, or by Found(c) for the same combination and then one Confirm.
   */
  ghost predicate Rounds(calls: seq<Call>)
    decreases |calls|
  {
    if calls == [] then true
    else if |calls| >= 2 && calls[0].GetNext? && calls[1] == Confirm then Rounds(calls[2..])
    else if |calls| >= 3 && calls[0].GetNext? && calls[1] == Found(calls[0].comb) && calls[2] == Confirm then Rounds(calls[3..])
    else false
  }

  /** The combinations a log of whole rounds enumerated, in order. */
  ghost function Enumerated(calls: seq<Call>): seq<seq<int>>
    requires Rounds(calls)
    decreases |calls|
  {
    if calls == [] then []
    else if calls[1] == Confirm then [calls[0].comb] + Enumerated(calls[2..])
    else [calls[0].comb] + Enumerated(calls[3..])
  }

  /** The calls of one round for a combination: GetNext, Found when it was a hit, then Confirm. */
  function Round(comb: seq<int>, found: bool): seq<Call>
  {
    [GetNext(comb)] + (if found then [Found(comb)] else []) + [Confirm]
  }

  /** A log extended call by call through one round is the log extended by that round. */
  lemma RoundAppend(before: seq<Call>, done: seq<Call>, comb: seq<int>, found: bool)
    ensures (if found then before + done + [GetNext(comb)] + [Found(comb)] + [Confirm]
             else before + done + [GetNext(comb)] + [Confirm]) == before + (done + Round(comb, found))
  {
  }

  /** One round followed by a log of whole rounds is again a log of whole rounds, with one more combination enumerated. */
  lemma RoundsPrepend(comb: seq<int>, found: bool, rest: seq<Call>)
    requires Rounds(rest)
    ensures Rounds(Round(comb, found) + rest)
    ensures Enumerated(Round(comb, found) + rest) == [comb] + Enumerated(rest)
  {
    var calls := Round(comb, found) + rest;
    if found {
      assert calls[..3] == [GetNext(comb), Found(comb), Confirm];
      assert calls[3..] == rest;
    } else {
      assert calls[..2] == [GetNext(comb), Confirm];
      assert calls[2..] == rest;
    }
  }
}
