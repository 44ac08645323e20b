# Semantic router: matching engine and in-memory store

This project models the core of a Go semantic router. A router holds named
routes, each with example utterances. Construction embeds every utterance
and writes its vector to a keyed store. Matching embeds a query, reads the
stored vector of every utterance, scores each one with a weighted sum of
similarity functions, and returns the route of the best-scoring utterance.
The in-memory store is a map from utterance text to embedding.

Modules:

- `Domain` (domain.dfy): vectors, utterances, the error kinds, `Result` and
  `Outcome` (a Go `error` return: nil or an error).
- `Memory` (memory.dfy): the in-memory store as a class whose `store` field
  is a Go map that may be nil (`NilableMap`). `Get`, `Set` and `Close` work
  in place.
- `Scoring` (scoring.dfy): the five metrics, the `With…` options, the
  weighted pairs and `Score`, the weighted sum of one candidate.
- `Matching` (matching.dfy): the specification of a match and of a
  construction. A match is a scan over candidates in route order, then
  utterance order (`Scan`, `MatchSpec`). A construction is a sequence of
  store writes that stops at the first failure (`Populate`, `Stored`). The
  lemmas about both live here.
- `SemanticRouter` (router.dfy): the `Router` class with its option,
  scoring and matching methods, and `NewRouter`. Each method runs the
  source's loops and is proved against the specification functions.

The external collaborators are parameters:

- The encoder is a function from text to a vector or a failure.
- `Utterance.SetEmbedding` is a predicate saying whether an utterance
  accepts a vector. On success the stored utterance carries that vector.
- The similarity library is a function `(Metric, query, candidate) -> real`
  that is never inspected. Every result holds whatever the five similarity
  functions compute.
- The store port is the in-memory store. Its method is `Set`, where the
  router's `Store` interface calls it `Store`; both are the same operation
  here.

The option functions are documented as configuring the router, but
construction never applies them; the model follows the code (see Findings).

## Model

| member | source | states |
|---|---|---|
| `Memory.Lookup` | stores/memory/memory.go:27-31 | a read succeeds exactly when the map is not nil and holds the key, returns the stored vector, and otherwise fails with "key does not exist" |
| `Memory.SetThenLookup` | stores/memory/memory.go:37-45 | after a write, reading its key gives exactly the written embedding and every other key reads as before |
| `Memory.EmptyAndNilHoldNothing` | stores/memory/memory.go:18-30 | neither a fresh empty map nor a closed (nil) map holds any key |
| `Memory.Store.NewStore` | stores/memory/memory.go:17-20 | a new store holds an empty, writable map |
| `Memory.Store.Get` | stores/memory/memory.go:22-32 | succeeds exactly when the key is stored, with the stored vector; otherwise fails with no vector; changes nothing |
| `Memory.Store.Set` | stores/memory/memory.go:34-45 | the key now maps to the utterance's embedding, other keys are unchanged, the result is nil; the map must not be nil |
| `Memory.Store.Close` | stores/memory/memory.go:47-58 | the map is nil afterwards whatever it was, so closing twice is the same as once; the result is nil |
| `Scoring.Configured` | route.go:57-105 | applying options in order gives one pair per option, at the option's position, with its metric and coefficient |
| `Scoring.ScoreConcat` | route.go:210-216 | scores compose linearly: the score under two lists of weighted metrics is the sum of the two scores |
| `Scoring.ScoreWithOption` | route.go:210-216 | the empty list scores 0, and appending one option adds exactly its coefficient times its metric |
| `SemanticRouter.Router.constructor` | route.go:139-143 | the router keeps the given routes, encoder and store, and its metric list is empty |
| `SemanticRouter.Router.Apply` | route.go:57-105 | a `With…` option appends exactly one pair at the end and leaves the earlier pairs unchanged |
| `SemanticRouter.Router.ComputeScore` | route.go:210-216 | the loop's total is `Score`, the weighted sum over the configured pairs in order |
| `SemanticRouter.Router.Match` | route.go:151-202 | returns what the specification scan gives: on success the route of the first candidate with the highest positive score, and that score; on an encoding, retrieval or no-route failure that error with `""` and `0.0` |
| `Matching.ScanFailsAtFirstMissing` | route.go:167-177 | a scan fails exactly when some utterance has no stored embedding, and then it names the first one in scan order |
| `Matching.ScanFindsFirstMaximum` | route.go:167-189 | a scan that completes returns a score of at least 0 and of at least every length-matching candidate's score; a positive score is that of the first candidate reaching it, with that candidate's route; a zero score leaves the name empty |
| `Matching.FirstMaximumIsUnique` | route.go:184-187 | the first-maximum characterisation determines the result: two results meeting it are equal |
| `Matching.ScanSkipsLengthMismatch` | route.go:178-181 | removing a candidate whose stored length differs from the query's leaves the scan's result unchanged, whatever its components |
| `Matching.TieGoesToFirstScanned` | route.go:184-187 | of two candidates with equal winning scores, the winner is the earlier one or one before it; a later tie never replaces it |
| `Matching.MatchSucceeds` | route.go:184-201 | a successful match names a non-empty route with a positive score that is the first maximum over the length-matching candidates |
| `Matching.MatchFails` | route.go:157-200 | an encoder failure gives the encoding error; otherwise the first missing embedding gives the retrieval error; otherwise "no route" exactly when the winning name is empty, even if its score is positive |
| `Matching.NoMetricsNeverMatch` | route.go:184-195 | with no weighted metrics every match fails |
| `Matching.Embed` | route.go:120-127 | an utterance is stored exactly when encoding succeeds and it accepts the vector, and then it carries that vector; otherwise the error names the failing step and the text |
| `Matching.PopulateStopsAtFirstFailure` | route.go:116-138 | construction writes the embedded utterances in route then utterance order; after the first failure it writes nothing more and reports that utterance's error; without one it writes every utterance |
| `Matching.StoredHoldsWrites` | stores/memory/memory.go:43 | after a sequence of writes every written text is a key, and a text not written again later holds the embedding written for it |
| `Matching.BuiltStoreAnswersEveryCandidate` | route.go:116-138 | after a successful construction the store holds every utterance, so a later scan never fails on a missing embedding |
| `SemanticRouter.NewRouter` | route.go:108-144 | the store ends as its old map updated by the writes of `Populate`; on failure there is no router; on success the router holds the input routes (their embeddings unset, since only copies got them) and an empty metric list, whatever the options |
| `SemanticRouter.NewRouterWithOptions` | route.go:108-144 | the corrected construction: as `NewRouter`, but the metric list is exactly the options' pairs in order |
| `SemanticRouter.MatchAfterNewRouter` | route.go:108-202 | on a router built by `NewRouter`, every match fails, and never because an embedding is missing |

## Left out

- Cancellation and concurrency: `errgroup` and `context` in `Match` (route.go:155-156, route.go:198) and the store's read-write mutex. A match is one sequential task.
- The bodies of the five similarity functions: they rely on a numerics library and are a parameter of the model.
- float64 arithmetic: coefficients and scores are reals, so rounding and NaN are not modelled.
- The vector library's constructor panics on a zero-length vector. The model treats an empty query embedding like any other vector.
- The encoder is a pure function of the text. A networked encoder could answer the same text differently on two calls.
- The store-write failure branch of `NewRouter` (route.go:128-136): the in-memory store's `Set` always returns nil, so with it that branch cannot be taken.
- `Utterance.SetEmbedding` is not part of this model. It is a predicate that may refuse a vector.
- Other encoders and stores (the networked embedding encoder and the Redis-compatible store) and their tests.
- Error message texts and wrapping: errors are a tagged datatype naming the text they concern.
- The router's exported fields are never reassigned by the core, so the routes, encoder and store are constants.

## Findings

| source | as written | input that shows it | evidently intended | confidence | as-written member | corrected member |
|---|---|---|---|---|---|---|
| route.go:108-144 | `opts` is accepted but never applied, so the returned router's metric list is empty and every score is 0 | `NewRouter(routes, encoder, store, WithSimilarityDotMatrix(1.0))`, then any `Match`: it always reports no route | each option is applied to the router before it is returned | high, not executed | `SemanticRouter.NewRouter`, `Matching.NoMetricsNeverMatch`, `SemanticRouter.MatchAfterNewRouter` | `SemanticRouter.NewRouterWithOptions` |
