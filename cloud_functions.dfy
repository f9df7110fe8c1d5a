/**
 * The cloud function run by a worker: it takes a decoded request, drives the request's
 * generator against the balance predicate until a separator is found or the generator
 * is exhausted, and builds the reply that is published back.
 */
module CloudFunction {
  import opened Wrappers
  import opened BalancedGo
  import opened DistribSearch

  /**
   * A combination the search stops at: it passes the check and its copy is a non-empty
   * selection. The loop guard and the reply test the selection's length, so a passing
   * empty combination does not stop the search.
   */
  predicate Hit(comb: seq<int>, accept: seq<int> -> bool)
  {
    accept(comb) && comb != []
  }

  /** What a run of the loop leaves behind: the selection, the combinations not consumed and the calls made. */
  datatype Outcome = Outcome(selection: seq<int>, rest: seq<seq<int>>, calls: seq<Call>)

  /**
   * The loop run over the remaining combinations of a generator, with `accept` as the
   * test of a candidate.
   */
  function Search(combs: seq<seq<int>>, accept: seq<int> -> bool): Outcome
    decreases |combs|
  {
    if combs == [] then Outcome([], [], [])
    else
      var comb := combs[0];
      if Hit(comb, accept) then Outcome(comb, combs[1..], Round(comb, accept(comb)))
      else
        var o := Search(combs[1..], accept);
        Outcome(o.selection, o.rest, Round(comb, accept(comb)) + o.calls)
  }

  /** The position of the first hit among the combinations, or their number when there is none. */
  function FirstHit(combs: seq<seq<int>>, accept: seq<int> -> bool): (k: nat)
    ensures k <= |combs|
    ensures forall i :: 0 <= i < k ==> !Hit(combs[i], accept)
    ensures k < |combs| ==> Hit(combs[k], accept)
    decreases |combs|
  {
    if combs == [] || Hit(combs[0], accept) then 0
    else 1 + FirstHit(combs[1..], accept)
  }

  /** How many combinations the loop enumerates: those up to and including the first hit, or all of them when there is none. */
  function Examined(combs: seq<seq<int>>, accept: seq<int> -> bool): (m: nat)
    ensures m <= |combs|
  {
    var k := FirstHit(combs, accept);
    if k < |combs| then k + 1 else |combs|
  }

  /** A run that made the calls in `done` and then goes on as `o`. */
  function Resume(done: seq<Call>, o: Outcome): Outcome
  {
    Outcome(o.selection, o.rest, done + o.calls)
  }

  /**
   * How far the loop is: having made the calls in `done`, it either holds the selection of
   * the whole run, with `remaining` what the run leaves, or holds nothing yet and the rest of
   * the run is the run over `remaining`.
   */
  ghost predicate Progress(start: seq<seq<int>>, accept: seq<int> -> bool, selection: seq<int>, remaining: seq<seq<int>>, done: seq<Call>)
  {
    Search(start, accept) == if selection == [] then Resume(done, Search(remaining, accept)) else Outcome(selection, remaining, done)
  }

  /** One round of the loop keeps Progress: the next combination is taken, tested, and confirmed. */
  lemma ProgressStep(start: seq<seq<int>>, accept: seq<int> -> bool, remaining: seq<seq<int>>, done: seq<Call>)
    requires remaining != [] && Progress(start, accept, [], remaining, done)
    ensures var comb := remaining[0];
            Progress(start, accept, if accept(comb) then comb else [], remaining[1..], done + Round(comb, accept(comb)))
  {
    var comb := remaining[0];
    var round := Round(comb, accept(comb));
    if !Hit(comb, accept) {
      var o := Search(remaining[1..], accept);
      assert done + (round + o.calls) == (done + round) + o.calls;
    }
  }

  /** The loop selects the first hit and leaves the generator just past it; with no hit it selects nothing and exhausts the generator. */
  lemma {:induction false} SearchSelectsFirstHit(combs: seq<seq<int>>, accept: seq<int> -> bool)
    ensures var k := FirstHit(combs, accept); var o := Search(combs, accept);
            if k < |combs| then o.selection == combs[k] && o.rest == combs[k + 1..]
            else o.selection == [] && o.rest == []
    decreases |combs|
  {
    if combs != [] && !Hit(combs[0], accept) {
      SearchSelectsFirstHit(combs[1..], accept);
      var k' := FirstHit(combs[1..], accept);
      if k' < |combs| - 1 {
        assert combs[1..][k'] == combs[k' + 1];
        assert combs[1..][k' + 1..] == combs[k' + 2..];
      }
    }
  }

  /** A selection is made exactly when some remaining combination is a hit. */
  lemma SearchFindsAnyHit(combs: seq<seq<int>>, accept: seq<int> -> bool)
    ensures Search(combs, accept).selection != [] <==> exists i :: 0 <= i < |combs| && Hit(combs[i], accept)
  {
    SearchSelectsFirstHit(combs, accept);
  }

  /**
   * The calls of the loop come in whole rounds (GetNext, possibly Found, then Confirm),
   * and the combinations enumerated are those up to and including the first hit, or all
   * of them when there is none; so the loop runs at most once per combination.
   */
  lemma {:induction false} SearchFollowsRounds(combs: seq<seq<int>>, accept: seq<int> -> bool)
    ensures Rounds(Search(combs, accept).calls)
    ensures Enumerated(Search(combs, accept).calls) == combs[..Examined(combs, accept)]
    decreases |combs|
  {
    if combs != [] {
      var comb := combs[0];
      var round := Round(comb, accept(comb));
      if Hit(comb, accept) {
        assert Search(combs, accept).calls == round + [];
        RoundsPrepend(comb, accept(comb), []);
        assert Examined(combs, accept) == 1;
      } else {
        var tail := combs[1..];
        SearchFollowsRounds(tail, accept);
        var rest := Search(tail, accept).calls;
        assert Search(combs, accept).calls == round + rest;
        RoundsPrepend(comb, accept(comb), rest);
        var m := Examined(tail, accept);
        assert Examined(combs, accept) == m + 1;
        assert [comb] + tail[..m] == combs[..m + 1];
      }
    }
  }

  /** In the calls of a run, Found on a non-empty combination is only on the selection, and only immediately before the final Confirm. */
  ghost predicate FoundOnlyLast(o: Outcome)
  {
    forall i :: 0 <= i < |o.calls| && o.calls[i].Found? && o.calls[i].comb != [] ==>
      i == |o.calls| - 2 && o.calls[i].comb == o.selection
  }

  /** Found is called on a non-empty combination at most once: on the selection, immediately before the final Confirm. */
  lemma {:induction false} SearchFoundOnlyLast(combs: seq<seq<int>>, accept: seq<int> -> bool)
    ensures FoundOnlyLast(Search(combs, accept))
    decreases |combs|
  {
    if combs != [] && !Hit(combs[0], accept) {
      SearchFoundOnlyLast(combs[1..], accept);
      var round := Round(combs[0], accept(combs[0]));
      var tail := Search(combs[1..], accept);
      var calls := round + tail.calls;
      assert Search(combs, accept) == Outcome(tail.selection, tail.rest, calls);
      forall i | 0 <= i < |calls| && calls[i].Found? && calls[i].comb != []
        ensures i == |calls| - 2 && calls[i].comb == tail.selection
      {
        assert i >= |round|;
        assert calls[i] == tail.calls[i - |round|];
      }
    }
  }

  /** When a selection is made, the run ends with Found on it followed by Confirm. */
  lemma {:induction false} SearchEndsWithFound(combs: seq<seq<int>>, accept: seq<int> -> bool)
    ensures var o := Search(combs, accept);
            o.selection != [] ==> |o.calls| >= 2 && o.calls[|o.calls| - 2] == Found(o.selection) && o.calls[|o.calls| - 1] == Confirm
    decreases |combs|
  {
    if combs != [] && !Hit(combs[0], accept) {
      SearchEndsWithFound(combs[1..], accept);
      var round := Round(combs[0], accept(combs[0]));
      var tail := Search(combs[1..], accept);
      assert Search(combs, accept) == Outcome(tail.selection, tail.rest, round + tail.calls);
    }
  }

  /** An empty combination that passes the check is marked Found, yet the search goes on as if it had failed. */
  lemma EmptyAcceptedKeepsSearching(combs: seq<seq<int>>, accept: seq<int> -> bool)
    requires combs != [] && combs[0] == [] && accept([])
    ensures var o := Search(combs, accept); var o' := Search(combs[1..], accept);
            o.calls == [GetNext([]), Found([]), Confirm] + o'.calls && o.selection == o'.selection && o.rest == o'.rest
  {
  }

  /** Immediate hit: of [0,1] and [0,2], a passing [0,1] is selected and the generator resumes at [0,2]. */
  lemma ScenarioImmediateHit(accept: seq<int> -> bool)
    requires accept([0, 1])
    ensures var o := Search([[0, 1], [0, 2]], accept);
            o.selection == [0, 1] && o.rest == [[0, 2]]
  {
  }

  /** Full exhaustion: when neither [0,1] nor [1,2] passes, nothing is selected and nothing is left. */
  lemma ScenarioExhaustion(accept: seq<int> -> bool)
    requires !accept([0, 1]) && !accept([1, 2])
    ensures var o := Search([[0, 1], [1, 2]], accept);
            o.selection == [] && o.rest == []
  {
    assert [[0, 1], [1, 2]][1..] == [[1, 2]];
  }

  /** The test the worker applies to a combination: the request's predicate on the chosen edges, with the request's subgraph and balance factor. */
  function Accepts(request: Request, subset: Subset): seq<int> -> bool
  {
    j => request.pred(request.subgraph, subset(request.edges, j), request.balFactor)
  }

  /**
   * The separator-search loop and the reply built from it. The reply carries the selection
   * of the specification run, is valid exactly when that selection is non-empty, passes
   * back the request's generator and id, and the generator is left where the run stops.
   */
  method SeparatorSearch(request: Request, subset: Subset) returns (sol: Solution)
    modifies request.gen
    ensures var o := Search(old(request.gen.remaining), Accepts(request, subset));
            && sol.selection == o.selection
            && request.gen.remaining == o.rest
            && request.gen.calls == old(request.gen.calls) + o.calls
    ensures sol.valid == (|sol.selection| > 0)
    ensures WellFormed(sol)
    ensures sol.gen == request.gen && sol.id == request.id
    ensures sol.valid ==> request.pred(request.subgraph, subset(request.edges, sol.selection), request.balFactor)
    ensures var combs := old(request.gen.remaining); var k := FirstHit(combs, Accepts(request, subset));
            if sol.valid then k < |combs| && sol.selection == combs[k] && request.gen.remaining == combs[k + 1..]
            else k == |combs| && request.gen.remaining == []
  {
    var gen := request.gen;
    var solution: seq<int> := [];
    ghost var accept := Accepts(request, subset);
    ghost var start, before := gen.remaining, gen.calls;
    ghost var rest, done: seq<Call> := start, [];
    while gen.HasNext() && |solution| == 0
      invariant gen.remaining == rest && gen.calls == before + done
      invariant Progress(start, accept, solution, rest, done)
      decreases |rest|
    {
      ProgressStep(start, accept, rest, done);
      var j := gen.GetNext();
      var sep := subset(request.edges, j);
      if request.pred(request.subgraph, sep, request.balFactor) {
        gen.Found();
        solution := j;
      }
      gen.Confirm();
      RoundAppend(before, done, j, accept(j));
      rest, done := rest[1..], done + Round(j, accept(j));
    }
    assert Search(start, accept) == Outcome(solution, rest, done);
    SearchSelectsFirstHit(start, accept);
    sol := Solution(|solution| > 0, solution, gen, request.id);
  }

  /**
   * The immediate hit driven on a generator built from [0,1] then [0,2], with a predicate
   * that passes everything: the reply selects [0,1], the generator is left offering [0,2],
   * and one round GetNext, Found, Confirm was made on it.
   */
  method RunImmediateHit(subgraph: Graph, edges: Edges, balFactor: int, id: int, subset: Subset)
    returns (valid: bool, selection: seq<int>, left: seq<seq<int>>, ghost log: seq<Call>)
    ensures valid && selection == [0, 1] && left == [[0, 2]]
    ensures log == [GetNext([0, 1]), Found([0, 1]), Confirm]
  {
    var gen := new Generator([[0, 1], [0, 2]]);
    var request := Request(subgraph, (g: Graph, e: Edges, b: int) => true, gen, edges, balFactor, id);
    var sol := SeparatorSearch(request, subset);
    valid, selection, left, log := sol.valid, sol.selection, gen.remaining, gen.calls;
  }

  /**
   * Exhaustion driven on a generator built from [0,1] then [1,2], with a predicate that
   * rejects everything: the reply is not valid, the generator is left empty, and each
   * combination got GetNext and Confirm, in order, with no Found.
   */
  method RunExhaustion(subgraph: Graph, edges: Edges, balFactor: int, id: int, subset: Subset)
    returns (valid: bool, selection: seq<int>, left: seq<seq<int>>, ghost log: seq<Call>)
    ensures !valid && selection == [] && left == []
    ensures log == [GetNext([0, 1]), Confirm, GetNext([1, 2]), Confirm]
  {
    var gen := new Generator([[0, 1], [1, 2]]);
    var request := Request(subgraph, (g: Graph, e: Edges, b: int) => false, gen, edges, balFactor, id);
    var sol := SeparatorSearch(request, subset);
    valid, selection, left, log := sol.valid, sol.selection, gen.remaining, gen.calls;
  }

  /**
   * The worker's entry point, given what decoding the incoming message produced. A
   * message that failed to decode gets no reply and no search is run; otherwise the
   * reply is the one the search loop builds.
   */
  method WorkerDistributedSearch(message: Option<Request>, subset: Subset) returns (reply: Option<Solution>)
    modifies if message.Some? then {message.value.gen} else {}
    ensures message.None? ==> reply.None?
    ensures message.Some? ==>
      var request := message.value;
      var o := Search(old(request.gen.remaining), Accepts(request, subset));
      && reply.Some?
      && reply.value == Solution(o.selection != [], o.selection, request.gen, request.id)
      && request.gen.remaining == o.rest
      && request.gen.calls == old(request.gen.calls) + o.calls
  {
    if message.None? {
      return None;
    }
    var sol := SeparatorSearch(message.value, subset);
    reply := Some(sol);
  }
}
