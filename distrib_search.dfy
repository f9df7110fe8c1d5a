/**
 * The shared library of the distributed search: the envelopes exchanged with the
 * workers and the DistributedSearch search-state record.
 */
module DistribSearch {
  import opened BalancedGo

  /**
   * A request sent to a worker: the subgraph to separate, the balance predicate, the
   * generator positioned where the search is to resume, the candidate edges, the
   * balance factor and the correlation id.
   */
  datatype Request = Request(subgraph: Graph, pred: Predicate, gen: Generator, edges: Edges, balFactor: int, id: int)

  /**
   * The reply of a worker: whether a separator was found, its selection of edge
   * indices, the generator as the worker left it and the id of the request.
   */
  datatype Solution = Solution(valid: bool, selection: seq<int>, gen: Generator, id: int)

  /** A reply is valid exactly when a separator was found, and its selection is empty exactly when it is not valid. */
  predicate WellFormed(s: Solution)
  {
    s.valid <==> s.selection != []
  }

  /** Search state of a search whose separators are looked for by workers elsewhere. */
  class DistributedSearch {
    var h: Graph
    var edges: Edges
    var balFactor: int
    var result: seq<int>
    var generators: seq<Generator>
    var exhaustedSearch: bool

    /** DistSearchGen.GetSearch: a fresh search over the given graph, edges, balance factor and generators. */
    constructor GetSearch(h: Graph, edges: Edges, balFactor: int, gens: seq<Generator>)
      ensures this.h == h && this.edges == edges && this.balFactor == balFactor
      ensures generators == gens
      ensures result == []
      ensures !exhaustedSearch
    {
      this.h := h;
      this.edges := edges;
      this.balFactor := balFactor;
      result := [];
      generators := gens;
      exhaustedSearch := false;
    }

    /** Meant to run the search up to the next separator; as written it does nothing. */
    method FindNext(pred: Predicate)
      modifies this
      ensures unchanged(this)
    {
    }

    method SearchEnded() returns (ended: bool)
      ensures ended == exhaustedSearch
    {
      ended := exhaustedSearch;
    }

    method GetResult() returns (sep: seq<int>)
      ensures sep == result
    {
      sep := result;
    }
  }

  /**
   * A search just built and then driven once through FindNext is still not ended and
   * holds no result: FindNext as written never advances the search.
   */
  method FreshSearchAfterFindNext(h: Graph, edges: Edges, balFactor: int, gens: seq<Generator>, pred: Predicate)
    returns (ended: bool, sep: seq<int>)
    ensures !ended
    ensures sep == []
  {
    var search := new DistributedSearch.GetSearch(h, edges, balFactor, gens);
    search.FindNext(pred);
    ended := search.SearchEnded();
    sep := search.GetResult();
  }
}
