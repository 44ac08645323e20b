/** The semantic router: construction, scoring configuration and matching. */
module SemanticRouter {
  import opened Domain
  import opened Scoring
  import opened Matching
  import Memory

  class Router {
    const routes: seq<Route>
    const encoder: Encoder
    const storage: Memory.Store
    /** The weighted metrics a candidate's score is summed from. */
    var biFuncCoefficients: seq<BiFuncCoefficient>

    /** The router literal built at the end of construction; its metric list
        starts empty. */
    constructor (routes: seq<Route>, encoder: Encoder, storage: Memory.Store)
      ensures this.routes == routes && this.encoder == encoder && this.storage == storage
      ensures biFuncCoefficients == []
    {
      this.routes := routes;
      this.encoder := encoder;
      this.storage := storage;
      biFuncCoefficients := [];
    }

    /** Applying a `With…` option appends its one weighted metric at the end
        and keeps the earlier ones. */
    method Apply(opt: Option)
      modifies this
      ensures biFuncCoefficients == old(biFuncCoefficients) + [Pair(opt)]
    {
      biFuncCoefficients := biFuncCoefficients + [Pair(opt)];
    }

    /** The score of `indexVec` against `queryVec`: the weighted sum of the
        configured metrics. */
    method ComputeScore(queryVec: Vector, indexVec: Vector, sim: Similarity) returns (score: real)
      ensures score == Score(biFuncCoefficients, sim, queryVec, indexVec)
    {
      score := 0.0;
      var i := 0;
      while i < |biFuncCoefficients|
        invariant 0 <= i <= |biFuncCoefficients|
        invariant score == Score(biFuncCoefficients[..i], sim, queryVec, indexVec)
      {
        var fn := biFuncCoefficients[i];
        assert biFuncCoefficients[..i + 1][..i] == biFuncCoefficients[..i];
        score := score + fn.coefficient * sim(fn.func, queryVec, indexVec);
        i := i + 1;
      }
      assert biFuncCoefficients[..i] == biFuncCoefficients;
    }

    /** Matches `utterance` against every stored utterance: the route of the
        first candidate with the highest positive score and that score, or
        the error (with an empty name and score 0) that `MatchSpec` gives. */
    method Match(utterance: string, sim: Similarity)
      returns (bestRouteName: string, bestScore: real, err: Outcome)
      ensures var m := MatchSpec(routes, encoder, storage.store, biFuncCoefficients, sim, utterance);
              && (m.Ok? ==> err == Pass && bestRouteName == m.value.name && bestScore == m.value.score)
              && (m.Err? ==> err == Fail(m.error) && bestRouteName == "" && bestScore == 0.0)
    {
      var encoding := encoder(utterance);
      if encoding.Err? {
        return "", 0.0, Fail(Encoding(utterance));
      }
      var queryVec := encoding.value;
      ghost var env := Env(storage.store, biFuncCoefficients, sim, queryVec);
      bestRouteName, bestScore := "", 0.0;
      var i := 0;
      while i < |routes|
        invariant 0 <= i <= |routes|
        invariant Scan(env, Candidates(routes[..i])) == Ok(Best(bestRouteName, bestScore))
      {
        var route := routes[i];
        ScannedStartsAtRoute(routes, i);
        var j := 0;
        while j < |route.utterances|
          invariant 0 <= j <= |route.utterances|
          invariant Scan(env, Scanned(routes, i, j)) == Ok(Best(bestRouteName, bestScore))
        {
          var ut := route.utterances[j];
          ScannedNext(routes, i, j);
          ScanNext(env, Scanned(routes, i, j), Candidate(route.name, ut));
          var em := storage.Get(ut.utterance);
          if em.Err? {
            ScanErrStays(env, Scanned(routes, i, j + 1), Remaining(routes, i, j + 1));
            return "", 0.0, Fail(GetEmbedding(ut.utterance));
          }
          if |em.value| != |queryVec| {
            j := j + 1;
            continue;
          }
          var simScore := ComputeScore(queryVec, em.value, sim);
          if simScore > bestScore {
            bestScore := simScore;
            bestRouteName := route.name;
          }
          j := j + 1;
        }
        ScannedEndsAtNextRoute(routes, i);
        i := i + 1;
      }
      ScannedAll(routes);
      if bestRouteName == "" {
        return "", 0.0, Fail(NoRouteFound(utterance));
      }
      err := Pass;
    }
  }

  /** Builds a router: embeds and stores every utterance, route by route, and
      stops at the first failure with no router. The options are accepted
      but never applied, so the router's metric list is always empty. */
  method NewRouter(routes: seq<Route>, encoder: Encoder, setEmbedding: EmbeddingSetter,
                   store: Memory.Store, opts: seq<Option>)
    returns (router: Router?, err: Outcome)
    requires store.store.Made?
    modifies store
    ensures var b := Populate(encoder, setEmbedding, Candidates(routes));
            && store.store == Memory.Made(Stored(old(store.store.entries), b.writes))
            && err == b.outcome
            && (err.Fail? ==> router == null)
            && (err.Pass? ==>
                  && router != null && fresh(router)
                  && router.routes == routes && router.encoder == encoder && router.storage == store
                  && router.biFuncCoefficients == [])
  {
    ghost var m0 := store.store.entries;
    var i := 0;
    while i < |routes|
      invariant 0 <= i <= |routes|
      invariant Populate(encoder, setEmbedding, Candidates(routes[..i])).outcome == Pass
      invariant store.store == Memory.Made(Stored(m0, Populate(encoder, setEmbedding, Candidates(routes[..i])).writes))
    {
      var route := routes[i];
      ScannedStartsAtRoute(routes, i);
      var j := 0;
      while j < |route.utterances|
        invariant 0 <= j <= |route.utterances|
        invariant Populate(encoder, setEmbedding, Scanned(routes, i, j)).outcome == Pass
        invariant store.store == Memory.Made(Stored(m0, Populate(encoder, setEmbedding, Scanned(routes, i, j)).writes))
      {
        var utter := route.utterances[j];
        ScannedNext(routes, i, j);
        PopulateNext(encoder, setEmbedding, Scanned(routes, i, j), Candidate(route.name, utter));
        var en := encoder(utter.utterance);
        if en.Err? {
          PopulateFailStays(encoder, setEmbedding, Scanned(routes, i, j + 1), Remaining(routes, i, j + 1));
          return null, Fail(Encoding(utter.utterance));
        }
        if !setEmbedding(utter, en.value) {
          PopulateFailStays(encoder, setEmbedding, Scanned(routes, i, j + 1), Remaining(routes, i, j + 1));
          return null, Fail(SetEmbedding(utter.utterance));
        }
        var embedded := Utterance(utter.utterance, en.value);
        var _ := store.Set(embedded);
        j := j + 1;
      }
      ScannedEndsAtNextRoute(routes, i);
      i := i + 1;
    }
    ScannedAll(routes);
    router := new Router(routes, encoder, store);
    err := Pass;
  }

  /** Construction as evidently intended: `NewRouter`, then the options
      applied in order, so the metric list is exactly the options' pairs. */
  method NewRouterWithOptions(routes: seq<Route>, encoder: Encoder, setEmbedding: EmbeddingSetter,
                              store: Memory.Store, opts: seq<Option>)
    returns (router: Router?, err: Outcome)
    requires store.store.Made?
    modifies store
    ensures var b := Populate(encoder, setEmbedding, Candidates(routes));
            && store.store == Memory.Made(Stored(old(store.store.entries), b.writes))
            && err == b.outcome
            && (err.Fail? ==> router == null)
            && (err.Pass? ==>
                  && router != null && fresh(router)
                  && router.routes == routes && router.encoder == encoder && router.storage == store
                  && router.biFuncCoefficients == Configured(opts))
  {
    router, err := NewRouter(routes, encoder, setEmbedding, store, opts);
    if router != null {
      var k := 0;
      while k < |opts|
        invariant 0 <= k <= |opts|
        invariant router.biFuncCoefficients == Configured(opts[..k])
        modifies router
      {
        router.Apply(opts[k]);
        assert Configured(opts[..k + 1]) == Configured(opts[..k]) + [Pair(opts[k])];
        k := k + 1;
      }
      assert opts[..k] == opts;
    }
  }

  /** A router built by `NewRouter` never matches: construction fails, or
      every match fails, and never for a missing embedding, since
      construction stored every utterance but configured no metric. */
  method MatchAfterNewRouter(routes: seq<Route>, encoder: Encoder, setEmbedding: EmbeddingSetter,
                             store: Memory.Store, opts: seq<Option>, utterance: string, sim: Similarity)
    returns (err: Outcome)
    requires store.store.Made?
    modifies store
    ensures err.Fail? && !err.error.GetEmbedding?
  {
    var router, e := NewRouter(routes, encoder, setEmbedding, store, opts);
    if router == null {
      PopulateStopsAtFirstFailure(encoder, setEmbedding, Candidates(routes));
      return e;
    }
    NoMetricsNeverMatch(routes, encoder, store.store, sim, utterance);
    if encoder(utterance).Ok? {
      BuiltStoreAnswersEveryCandidate(encoder, setEmbedding, routes, old(store.store.entries),
                                      [], sim, encoder(utterance).value);
    }
    var name, score;
    name, score, err := router.Match(utterance, sim);
  }
}
