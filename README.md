# GHDDistributedSearch: the worker's separator search, in Dafny

GHDDistributedSearch hands the search for a balanced separator of a hypergraph to
cloud workers reached over Pub/Sub. A worker receives a request holding a subgraph, the
candidate edges, a balance predicate, a balance factor, a correlation id and a
*generator* of candidate index combinations. It drives the generator against the
predicate until one combination passes or the generator runs dry. Its reply carries
whether a separator was found, the selected combination, the generator as it was left
(so that the search can resume there) and the request's id.

This project models that worker loop and the reply it builds (`cloud_functions.go`), and
the `DistributedSearch` search-state record of the shared library
(`lib/distrib-search.go`). It proves what the loop selects, that it stops at the first
hit, that it stops at all, how it drives the generator, and what the reply says.

Modules:

- `BalancedGo` holds the parts of the external BalancedGo library the worker calls.
  `Edge`, `Edges` and `Graph` are passed through untouched. The balance predicate
  (`Predicate`) and `GetSubset` (`Subset`) are modelled as pure, total, deterministic
  functions; nothing else is assumed about what they return. The generator is the class `Generator`, holding the combinations it has
  still to offer. `HasNext` asks whether any are left. `GetNext` shows the first one
  without consuming it. `Found` marks it as a hit. `Confirm` consumes it. A ghost log
  `calls` records every `GetNext`, `Found` and `Confirm`. `Rounds` and `Enumerated`
  read that log as rounds: GetNext, an optional Found, then Confirm.
- `DistribSearch` holds the `Request` and `Solution` envelopes, the reply invariant
  `WellFormed`, and the class `DistributedSearch`.
- `CloudFunction` holds the worker. `Search` is the loop written as a function over the
  remaining combinations. It gives the selection, the combinations left over and the
  call log. `FirstHit` is an independent description: the position of the first
  combination that passes and is non-empty. The lemmas tie the two together.
  `SeparatorSearch` is the loop itself, a `while` loop over a `Generator`, proved to
  behave as `Search` says. `WorkerDistributedSearch` is the entry point, given the
  outcome of decoding the message.
- `Wrappers` holds `Option`.

Where the versions in the source disagree: the `Request` and `Solution` structs in
`lib/distrib-search.go:41-53` are an older revision. They lack the `Gen`, `Edges`,
`BalFactor` and `ID` fields that `cloud_functions.go:59-112` and
`test/decoding_test.go:67-100` use. The envelopes here carry the fields as
`cloud_functions.go` uses them.

The code's own behaviour, kept as written: the loop guard and `Valid` both look at the
length of the copied selection, not at a separate "found" flag
(`cloud_functions.go:76`, `109`). So if a generator offers an *empty* combination, and it
passes the predicate, `Found` is still called on it. The search then goes on, and an
empty combination is never reported. `EmptyAcceptedKeepsSearching` states this. For this
reason the "Found is called once" property is stated for non-empty combinations
(`SearchFoundOnlyLast`). A k-combination generator with k > 0 never offers an empty
combination.

## Model

| member | source | states |
|---|---|---|
| BalancedGo.Generator.constructor | test/decoding_test.go:59-65 | a generator starts with the given combinations to offer and an empty call log |
| BalancedGo.Generator.HasNext | cloud_functions.go:76 | true exactly when some combination is left to offer |
| BalancedGo.Generator.GetNext | cloud_functions.go:79 | returns the first remaining combination, does not consume it, and logs the call |
| BalancedGo.Generator.Found | cloud_functions.go:84 | logs Found on the combination last shown and changes nothing else |
| BalancedGo.Generator.Confirm | cloud_functions.go:92 | consumes the first remaining combination and logs the call |
| BalancedGo.RoundsPrepend | cloud_functions.go:79-92 | one loop round (GetNext, Found only on a hit, Confirm) followed by whole rounds is again whole rounds, with one more combination enumerated |
| CloudFunction.Hit | cloud_functions.go:76-87 | no contract of its own: the combination passes the check and, copied into the selection, makes it non-empty, which is what stops the loop |
| CloudFunction.Search | cloud_functions.go:76-93 | no contract of its own: the reference run of the loop over the remaining combinations, which the lemmas below describe and `SeparatorSearch` is proved equal to |
| CloudFunction.FirstHit | cloud_functions.go:76-93 | the first position holding a combination that passes the check and is non-empty; every earlier one fails; the number of combinations when none passes |
| CloudFunction.Examined | cloud_functions.go:76 | the loop enumerates at most as many combinations as remain |
| CloudFunction.ProgressStep | cloud_functions.go:79-92 | a round that takes, tests and confirms the next combination keeps the loop in step with the specification run |
| CloudFunction.SearchSelectsFirstHit | cloud_functions.go:76-93 | the selection is the first combination that passes and is non-empty, and the generator is left just past it; with none, the selection is empty and the generator is exhausted |
| CloudFunction.SearchFindsAnyHit | cloud_functions.go:76-93 | a selection is made if and only if some remaining combination passes the check and is non-empty |
| CloudFunction.SearchFollowsRounds | cloud_functions.go:76-93 | every GetNext is followed by exactly one Confirm, with at most a Found on the same combination between them; the combinations enumerated are those up to and including the selected one, or all of them |
| CloudFunction.SearchFoundOnlyLast | cloud_functions.go:84-92 | Found on a non-empty combination happens at most once: only on the selection, immediately before the final Confirm |
| CloudFunction.SearchEndsWithFound | cloud_functions.go:84-92 | when a selection is made, the last two calls are Found on that selection and then Confirm |
| CloudFunction.EmptyAcceptedKeepsSearching | cloud_functions.go:83-92 | an empty combination that passes is marked Found, yet is not selected and the search goes on |
| CloudFunction.ScenarioImmediateHit | cloud_functions.go:76-93 | with [0,1] then [0,2] and [0,1] passing, [0,1] is selected and the generator resumes at [0,2] |
| CloudFunction.ScenarioExhaustion | cloud_functions.go:76-93 | with [0,1] then [1,2] and neither passing, nothing is selected and nothing is left |
| CloudFunction.Accepts | cloud_functions.go:81-83 | no contract of its own: the test applied to a combination, the request's predicate on its GetSubset with the request's subgraph and balance factor |
| CloudFunction.RunImmediateHit | cloud_functions.go:59-113 | a worker driving a generator built from [0,1] then [0,2] with a predicate that passes everything replies valid with [0,1], leaves [0,2] on offer, and calls GetNext, Found, Confirm on [0,1] only |
| CloudFunction.RunExhaustion | cloud_functions.go:59-113 | a worker driving a generator built from [0,1] then [1,2] with a predicate that rejects everything replies not valid with an empty selection, leaves nothing on offer, and calls GetNext and Confirm on each combination in turn |
| CloudFunction.SeparatorSearch | cloud_functions.go:59-113 | the loop and the reply: the selection, the generator's new position and its call log are those of the specification run; Valid is exactly a non-empty Selection; a valid Selection is the first remaining combination whose GetSubset passed the predicate with the request's subgraph and balance factor; the reply passes back the request's generator and ID |
| CloudFunction.WorkerDistributedSearch | cloud_functions.go:24-113 | a message that fails to decode gets no reply and runs no search; otherwise the reply is the one the search loop builds |
| DistribSearch.WellFormed | lib/distrib-search.go:51-52 | no contract of its own: a reply is valid exactly when its selection is non-empty; `SeparatorSearch` ensures it of every reply |
| DistribSearch.DistributedSearch.GetSearch | lib/distrib-search.go:29-38 | a fresh search stores H, Edges, BalFactor and Generators as given, with an empty Result and not ended |
| DistribSearch.DistributedSearch.FindNext | lib/distrib-search.go:62-66 | as written, leaves every field unchanged |
| DistribSearch.DistributedSearch.SearchEnded | lib/distrib-search.go:68-71 | returns ExhaustedSearch and changes nothing |
| DistribSearch.DistributedSearch.GetResult | lib/distrib-search.go:73-76 | returns Result and changes nothing |
| DistribSearch.FreshSearchAfterFindNext | lib/distrib-search.go:29-76 | a search just built and driven through FindNext is still not ended and holds no result |

## Left out

- Decoding and encoding with gob, and `gob.Register` (`cloud_functions.go:25-43`,
  `116-123`; `test/decoding_test.go`): foreign-library serialisation. Decoding enters the
  model only as its outcome, `Option<Request>`, where `None` is a decode error. The printing
  of diagnostics is left out too.
- The Pub/Sub client, the topic, publishing and `result.Get` (`cloud_functions.go:95-132`):
  network I/O, including the `log.Fatalf` process exits. The modelled reply is the
  `Solution` that would be published. The error returned when publishing fails is not
  modelled.
- The deferred `recover` handler (`cloud_functions.go:64-72`): Go panic unwinding. The model
  has no panics. `GetNext`, `Found` and `Confirm` require a remaining combination, and the
  loop guard always provides one. A decoded request whose `Gen` or `Predicate` is nil would
  panic at `cloud_functions.go:76` or `83`, and the handler's own `request.Gen.GetNext()`
  (line 70) would panic again. The model's generator is a non-null object and its predicate
  a total function, so that case does not arise.
- Side effects of the predicate: `Check` receives the subgraph and the candidate separator
  by pointer (`cloud_functions.go:83`), so it could change them or panic. The model treats
  the predicate and `GetSubset` as pure and total. The contract that a valid selection
  passes the predicate (`SeparatorSearch`) rests on that.
- The concrete `CombinationIterator`, `BalancedCheck`, `ParentCheck`, `GetSubset`, `Graph`
  and `Edges` of BalancedGo: their code is not part of this model. The generator is reduced
  to the list of combinations it still has to offer. The predicate and `GetSubset` are
  arbitrary function values.
- The older `WorkerDistributedSearch` in `lib/distrib-search.go:86-126`. It decodes a request
  and publishes a fixed string, and has no logic beyond I/O.
- Coordinator dispatch, correlation-id matching, timeouts and fan-out to several workers
  (the `Index`, `NumWorkers` and `Width` request fields): none of this is implemented in
  the code, since `FindNext` is empty.
- Pointers: `H` and `Edges` of `DistributedSearch` are Go pointers that nothing here writes
  through. They are modelled as values. `GetResult` returns the slice `Result` itself
  (`lib/distrib-search.go:75`), which shares its backing array with the search; the model
  returns a value, so writes through the returned slice are not modelled.
