/** The specification of route matching and router construction: which
    candidates are scanned and in what order, what a scan finds, and what
    construction writes to the store. */
module Matching {
  import opened Domain
  import opened Scoring
  import opened Memory

  /** A named intent and its example phrases. */
  datatype Route = Route(name: string, utterances: seq<Utterance>)

  /** The embedding port: the vector for a text, or a failure. */
  type Encoder = string -> Result<Vector>

  /** `Utterance.SetEmbedding`: whether the utterance accepts an embedding. */
  type EmbeddingSetter = (Utterance, Vector) -> bool

  /** One utterance as the scan meets it, with the name of its route. */
  datatype Candidate = Candidate(route: string, utterance: Utterance)

  /** The store key of a candidate: its utterance text. */
  function Key(c: Candidate): string
  {
    c.utterance.utterance
  }

  /** The utterances of one route, in order, tagged with the route name. */
  function RouteCandidates(r: Route): (cs: seq<Candidate>)
    ensures |cs| == |r.utterances|
    ensures forall j :: 0 <= j < |cs| ==> cs[j] == Candidate(r.name, r.utterances[j])
  {
    seq(|r.utterances|, j requires 0 <= j < |r.utterances| => Candidate(r.name, r.utterances[j]))
  }

  /** Every utterance of every route: route order, then utterance order. */
  function Candidates(routes: seq<Route>): seq<Candidate>
    decreases |routes|
  {
    if routes == [] then []
    else Candidates(routes[..|routes| - 1]) + RouteCandidates(routes[|routes| - 1])
  }

  lemma {:induction false} CandidatesConcat(a: seq<Route>, b: seq<Route>)
    ensures Candidates(a + b) == Candidates(a) + Candidates(b)
    decreases |b|
  {
    if b == [] {
      assert a + b == a;
    } else {
      var b', r := b[..|b| - 1], b[|b| - 1];
      assert (a + b)[..|a + b| - 1] == a + b';
      assert (a + b)[|a + b| - 1] == r;
      CandidatesConcat(a, b');
      calc {
        Candidates(a + b);
        Candidates(a + b') + RouteCandidates(r);
        Candidates(a) + Candidates(b') + RouteCandidates(r);
        Candidates(a) + Candidates(b);
      }
    }
  }

  /** The candidates of route `i` sit between those of the routes before it
      and those of the routes after it. */
  lemma {:induction false} CandidatesSplit(routes: seq<Route>, i: nat)
    requires i < |routes|
    ensures Candidates(routes)
         == Candidates(routes[..i]) + RouteCandidates(routes[i]) + Candidates(routes[i + 1..])
  {
    var pre, r, post := routes[..i], routes[i], routes[i + 1..];
    assert routes == pre + [r] + post;
    CandidatesConcat(pre + [r], post);
    CandidatesConcat(pre, [r]);
    assert Candidates([r]) == RouteCandidates(r) by {
      assert [r][..0] == [];
    }
  }

  /** The candidates a nested scan has met before utterance `j` of route
      `i`, and those it has still to meet. */
  function Scanned(routes: seq<Route>, i: nat, j: nat): seq<Candidate>
    requires i < |routes| && j <= |routes[i].utterances|
  {
    Candidates(routes[..i]) + RouteCandidates(routes[i])[..j]
  }

  function Remaining(routes: seq<Route>, i: nat, j: nat): seq<Candidate>
    requires i < |routes| && j <= |routes[i].utterances|
  {
    RouteCandidates(routes[i])[j..] + Candidates(routes[i + 1..])
  }

  /** The nested loops over routes and utterances meet the candidates in
      the order of `Candidates`. */
  lemma ScannedStartsAtRoute(routes: seq<Route>, i: nat)
    requires i < |routes|
    ensures Scanned(routes, i, 0) == Candidates(routes[..i])
  {
  }

  lemma {:induction false} ScannedNext(routes: seq<Route>, i: nat, j: nat)
    requires i < |routes| && j < |routes[i].utterances|
    ensures Scanned(routes, i, j + 1) == Scanned(routes, i, j) + [Candidate(routes[i].name, routes[i].utterances[j])]
    ensures Candidates(routes) == Scanned(routes, i, j + 1) + Remaining(routes, i, j + 1)
  {
    var done, rc, after := Candidates(routes[..i]), RouteCandidates(routes[i]), Candidates(routes[i + 1..]);
    SplitAt(done, rc, after, j);
    CandidatesSplit(routes, i);
  }

  /** Sequence bookkeeping for one step of the inner loop. */
  lemma SplitAt<T>(done: seq<T>, rc: seq<T>, after: seq<T>, j: nat)
    requires j < |rc|
    ensures done + rc[..j + 1] == (done + rc[..j]) + [rc[j]]
    ensures done + rc + after == (done + rc[..j + 1]) + (rc[j + 1..] + after)
  {
  }

  lemma {:induction false} ScannedEndsAtNextRoute(routes: seq<Route>, i: nat)
    requires i < |routes|
    ensures Scanned(routes, i, |routes[i].utterances|) == Candidates(routes[..i + 1])
  {
    assert RouteCandidates(routes[i])[..|routes[i].utterances|] == RouteCandidates(routes[i]);
    assert routes[..i + 1][..i] == routes[..i];
  }

  lemma {:induction false} ScannedAll(routes: seq<Route>)
    ensures Candidates(routes[..|routes|]) == Candidates(routes)
  {
    assert routes[..|routes|] == routes;
  }

  // ---------------------------------------------------------------------
  // Matching

  /** The running winner of a scan: a route name and its score. */
  datatype Best = Best(name: string, score: real)

  /** What a scan reads: the store, the weighted metrics, the similarity
      library and the query's embedding. */
  datatype Env = Env(store: NilableMap, fs: seq<BiFuncCoefficient>, sim: Similarity, query: Vector)

  /** The store has no embedding for the candidate. */
  predicate Missing(env: Env, c: Candidate)
  {
    Lookup(env.store, Key(c)).Err?
  }

  /** The candidate's stored embedding has the query's length, so it is scored. */
  predicate Eligible(env: Env, c: Candidate)
  {
    var em := Lookup(env.store, Key(c));
    em.Ok? && |em.value| == |env.query|
  }

  /** The score of an eligible candidate. */
  function CandidateScore(env: Env, c: Candidate): real
    requires Eligible(env, c)
  {
    Score(env.fs, env.sim, env.query, Lookup(env.store, Key(c)).value)
  }

  /** One iteration of the scan: fetch the candidate's embedding, skip it if
      its length differs from the query's, and take it as the new best only
      if its score is strictly greater. */
  function Step(env: Env, b: Best, c: Candidate): Result<Best>
  {
    var em := Lookup(env.store, Key(c));
    if em.Err? then Err(GetEmbedding(Key(c)))
    else if |em.value| != |env.query| then Ok(b)
    else
      var s := Score(env.fs, env.sim, env.query, em.value);
      if s > b.score then Ok(Best(c.route, s)) else Ok(b)
  }

  /** The scan over `cs`, starting from no route and score 0; the first
      failed lookup aborts it. */
  function Scan(env: Env, cs: seq<Candidate>): Result<Best>
    decreases |cs|
  {
    if cs == [] then Ok(Best("", 0.0))
    else
      var prev := Scan(env, cs[..|cs| - 1]);
      if prev.Err? then prev else Step(env, prev.value, cs[|cs| - 1])
  }

  /** What `Router.Match` returns for `utterance`: encode it, scan every
      candidate, and fail when the winning name is still empty. */
  function MatchSpec(routes: seq<Route>, encoder: Encoder, store: NilableMap,
                     fs: seq<BiFuncCoefficient>, sim: Similarity, utterance: string): Result<Best>
  {
    match encoder(utterance)
    case Err(_) => Err(Encoding(utterance))
    case Ok(q) =>
      var r := Scan(Env(store, fs, sim, q), Candidates(routes));
      if r.Err? then r
      else if r.value.name == "" then Err(NoRouteFound(utterance))
      else r
  }

  /** Candidate `k` is where the scan's winner comes from: it is eligible,
      achieves the winning score, belongs to the winning route, and every
      eligible candidate before it scores strictly less. */
  predicate WinsAt(env: Env, cs: seq<Candidate>, k: int, b: Best)
  {
    && 0 <= k < |cs|
    && Eligible(env, cs[k])
    && CandidateScore(env, cs[k]) == b.score
    && cs[k].route == b.name
    && forall j :: 0 <= j < k && Eligible(env, cs[j]) ==> CandidateScore(env, cs[j]) < b.score
  }

  /** Reference definition of a scan's result: the score is at least 0 and
      at least that of every eligible candidate; a positive score comes from
      the first candidate achieving it; a zero score means no route. */
  predicate IsFirstMaximum(env: Env, cs: seq<Candidate>, b: Best)
  {
    && b.score >= 0.0
    && (forall k :: 0 <= k < |cs| && Eligible(env, cs[k]) ==> CandidateScore(env, cs[k]) <= b.score)
    && (b.score == 0.0 ==> b.name == "")
    && (b.score > 0.0 ==> exists k :: 0 <= k < |cs| && WinsAt(env, cs, k, b))
  }

  /** The reference definition pins the result down: two results that both
      meet it are equal. */
  lemma FirstMaximumIsUnique(env: Env, cs: seq<Candidate>, b1: Best, b2: Best)
    requires IsFirstMaximum(env, cs, b1) && IsFirstMaximum(env, cs, b2)
    ensures b1 == b2
  {
  }

  /** One more candidate advances a scan that has not failed by one step. */
  lemma ScanNext(env: Env, pre: seq<Candidate>, c: Candidate)
    requires Scan(env, pre).Ok?
    ensures Scan(env, pre + [c]) == Step(env, Scan(env, pre).value, c)
  {
  }

  /** Once a lookup has failed, later candidates change nothing. */
  lemma {:induction false} ScanErrStays(env: Env, a: seq<Candidate>, b: seq<Candidate>)
    requires Scan(env, a).Err?
    ensures Scan(env, a + b) == Scan(env, a)
    decreases |b|
  {
    if b == [] {
      assert a + b == a;
    } else {
      assert (a + b)[..|a + b| - 1] == a + b[..|b| - 1];
      ScanErrStays(env, a, b[..|b| - 1]);
    }
  }

  /** The candidate `k` is the first one the store has no embedding for. */
  predicate FirstMissing(env: Env, cs: seq<Candidate>, k: int)
  {
    && 0 <= k < |cs|
    && Missing(env, cs[k])
    && forall j :: 0 <= j < k ==> !Missing(env, cs[j])
  }

  /** A scan fails exactly when some candidate has no stored embedding, and
      then it names the first such candidate. */
  lemma {:induction false} ScanFailsAtFirstMissing(env: Env, cs: seq<Candidate>)
    ensures Scan(env, cs).Err? <==> exists k :: 0 <= k < |cs| && Missing(env, cs[k])
    ensures Scan(env, cs).Err? ==>
              exists k :: FirstMissing(env, cs, k) && Scan(env, cs).error == GetEmbedding(Key(cs[k]))
    decreases |cs|
  {
    if cs != [] {
      var init := cs[..|cs| - 1];
      var last := |cs| - 1;
      ScanFailsAtFirstMissing(env, init);
      if Scan(env, init).Err? {
        var k :| FirstMissing(env, init, k) && Scan(env, init).error == GetEmbedding(Key(init[k]));
        assert FirstMissing(env, cs, k);
      } else {
        assert forall k :: 0 <= k < last ==> !Missing(env, cs[k]) by {
          forall k | 0 <= k < last ensures !Missing(env, cs[k]) {
            assert cs[k] == init[k];
          }
        }
        if Missing(env, cs[last]) {
          assert FirstMissing(env, cs, last);
        } else {
          forall k | 0 <= k < |cs| ensures !Missing(env, cs[k]) {
            if k < last { assert cs[k] == init[k]; }
          }
        }
      }
    }
  }

  /** A scan that finds every embedding returns the first maximum of the
      eligible candidates' scores (or no route, when none exceeds 0). */
  lemma {:induction false} ScanFindsFirstMaximum(env: Env, cs: seq<Candidate>)
    requires Scan(env, cs).Ok?
    ensures IsFirstMaximum(env, cs, Scan(env, cs).value)
    decreases |cs|
  {
    if cs != [] {
      var init := cs[..|cs| - 1];
      var last := |cs| - 1;
      var c := cs[last];
      ScanFindsFirstMaximum(env, init);
      var b0 := Scan(env, init).value;
      var b := Scan(env, cs).value;
      assert forall k :: 0 <= k < last ==> cs[k] == init[k];
      if Eligible(env, c) && CandidateScore(env, c) > b0.score {
        assert b == Best(c.route, CandidateScore(env, c));
        assert WinsAt(env, cs, last, b);
      } else {
        assert b == b0;
        if b.score > 0.0 {
          var k :| 0 <= k < |init| && WinsAt(env, init, k, b);
          forall j | 0 <= j < k && Eligible(env, cs[j]) ensures CandidateScore(env, cs[j]) < b.score {
            assert cs[j] == init[j];
          }
          assert cs[k] == init[k];
          assert WinsAt(env, cs, k, b);
        }
      }
    }
  }

  /** A candidate whose stored embedding has a different length than the
      query's never affects the scan, whatever its components. */
  lemma {:induction false} ScanSkipsLengthMismatch(env: Env, a: seq<Candidate>, c: Candidate, b: seq<Candidate>)
    requires Lookup(env.store, Key(c)).Ok?
    requires |Lookup(env.store, Key(c)).value| != |env.query|
    ensures Scan(env, a + [c] + b) == Scan(env, a + b)
    decreases |b|
  {
    if b == [] {
      assert (a + [c] + b)[..|a + [c] + b| - 1] == a;
      assert a + b == a;
    } else {
      var b' := b[..|b| - 1];
      assert (a + [c] + b)[..|a + [c] + b| - 1] == a + [c] + b';
      assert (a + b)[..|a + b| - 1] == a + b';
      ScanSkipsLengthMismatch(env, a, c, b');
    }
  }

  /** A successful match names a non-empty route and a positive score that
      is the first maximum over the candidates whose lengths match. */
  lemma MatchSucceeds(routes: seq<Route>, encoder: Encoder, store: NilableMap,
                      fs: seq<BiFuncCoefficient>, sim: Similarity, utterance: string)
    requires MatchSpec(routes, encoder, store, fs, sim, utterance).Ok?
    ensures encoder(utterance).Ok?
    ensures var b := MatchSpec(routes, encoder, store, fs, sim, utterance).value;
            var env := Env(store, fs, sim, encoder(utterance).value);
            && b.name != ""
            && b.score > 0.0
            && IsFirstMaximum(env, Candidates(routes), b)
            && exists k :: WinsAt(env, Candidates(routes), k, b)
  {
    var env := Env(store, fs, sim, encoder(utterance).value);
    ScanFindsFirstMaximum(env, Candidates(routes));
  }

  /** A match fails with the encoder's failure first, then with the first
      utterance whose embedding is missing, and otherwise with "no route"
      exactly when the scan's winning name is empty. */
  lemma MatchFails(routes: seq<Route>, encoder: Encoder, store: NilableMap,
                   fs: seq<BiFuncCoefficient>, sim: Similarity, utterance: string)
    ensures encoder(utterance).Err? ==>
              MatchSpec(routes, encoder, store, fs, sim, utterance) == Err(Encoding(utterance))
    ensures encoder(utterance).Ok? ==>
              var env := Env(store, fs, sim, encoder(utterance).value);
              var cs := Candidates(routes);
              && ((exists k :: 0 <= k < |cs| && Missing(env, cs[k])) ==>
                    exists k :: FirstMissing(env, cs, k)
                      && MatchSpec(routes, encoder, store, fs, sim, utterance) == Err(GetEmbedding(Key(cs[k]))))
              && ((forall k :: 0 <= k < |cs| ==> !Missing(env, cs[k])) ==>
                    && Scan(env, cs).Ok?
                    && (MatchSpec(routes, encoder, store, fs, sim, utterance) == Err(NoRouteFound(utterance))
                        <==> Scan(env, cs).value.name == ""))
  {
    if encoder(utterance).Ok? {
      ScanFailsAtFirstMissing(Env(store, fs, sim, encoder(utterance).value), Candidates(routes));
    }
  }

  /** With no weighted metrics every score is 0, nothing beats the initial
      score, and no match ever succeeds. */
  lemma NoMetricsNeverMatch(routes: seq<Route>, encoder: Encoder, store: NilableMap,
                            sim: Similarity, utterance: string)
    ensures MatchSpec(routes, encoder, store, [], sim, utterance).Err?
  {
    if encoder(utterance).Ok? {
      var env := Env(store, [], sim, encoder(utterance).value);
      var cs := Candidates(routes);
      if Scan(env, cs).Ok? {
        ScanFindsFirstMaximum(env, cs);
      }
    }
  }

  /** Two eligible candidates with equal, winning scores: the one scanned
      first gives the route. */
  lemma TieGoesToFirstScanned(env: Env, cs: seq<Candidate>, i: nat, j: nat)
    requires i < j < |cs|
    requires Scan(env, cs).Ok?
    requires Eligible(env, cs[i]) && Eligible(env, cs[j])
    requires CandidateScore(env, cs[i]) == CandidateScore(env, cs[j]) == Scan(env, cs).value.score > 0.0
    ensures exists k :: k <= i && WinsAt(env, cs, k, Scan(env, cs).value)
  {
    ScanFindsFirstMaximum(env, cs);
    var b := Scan(env, cs).value;
    var k :| 0 <= k < |cs| && WinsAt(env, cs, k, b);
  }

  // ---------------------------------------------------------------------
  // Construction

  /** The writes construction made, and whether it finished or aborted. */
  datatype Build = Build(writes: seq<Utterance>, outcome: Outcome)

  /** Encode one utterance and set its embedding: the utterance to store, or
      the error that aborts construction. */
  function Embed(encoder: Encoder, setEmbedding: EmbeddingSetter, u: Utterance): (r: Result<Utterance>)
    ensures r.Ok? <==> encoder(u.utterance).Ok? && setEmbedding(u, encoder(u.utterance).value)
    ensures r.Ok? ==> r.value == Utterance(u.utterance, encoder(u.utterance).value)
    ensures r.Err? ==> r.error == (if encoder(u.utterance).Err? then Encoding(u.utterance) else SetEmbedding(u.utterance))
  {
    match encoder(u.utterance)
    case Err(_) => Err(Encoding(u.utterance))
    case Ok(en) =>
      if setEmbedding(u, en) then Ok(Utterance(u.utterance, en)) else Err(SetEmbedding(u.utterance))
  }

  /** Construction over `cs` in order: each utterance is embedded and
      written; the first failure stops it. */
  function Populate(encoder: Encoder, setEmbedding: EmbeddingSetter, cs: seq<Candidate>): Build
    decreases |cs|
  {
    if cs == [] then Build([], Pass)
    else
      var p := Populate(encoder, setEmbedding, cs[..|cs| - 1]);
      if p.outcome.Fail? then p
      else match Embed(encoder, setEmbedding, cs[|cs| - 1].utterance)
        case Err(e) => Build(p.writes, Fail(e))
        case Ok(u) => Build(p.writes + [u], Pass)
  }

  /** One more utterance advances a construction that has not failed. */
  lemma PopulateNext(encoder: Encoder, setEmbedding: EmbeddingSetter, pre: seq<Candidate>, c: Candidate)
    requires Populate(encoder, setEmbedding, pre).outcome.Pass?
    ensures var p := Populate(encoder, setEmbedding, pre);
            Populate(encoder, setEmbedding, pre + [c])
              == match Embed(encoder, setEmbedding, c.utterance)
                 case Err(e) => Build(p.writes, Fail(e))
                 case Ok(u) => Build(p.writes + [u], Pass)
  {
  }

  /** Once construction has failed, later utterances change nothing. */
  lemma {:induction false} PopulateFailStays(encoder: Encoder, setEmbedding: EmbeddingSetter,
                                             a: seq<Candidate>, b: seq<Candidate>)
    requires Populate(encoder, setEmbedding, a).outcome.Fail?
    ensures Populate(encoder, setEmbedding, a + b) == Populate(encoder, setEmbedding, a)
    decreases |b|
  {
    if b == [] {
      assert a + b == a;
    } else {
      assert (a + b)[..|a + b| - 1] == a + b[..|b| - 1];
      PopulateFailStays(encoder, setEmbedding, a, b[..|b| - 1]);
    }
  }

  /** Construction writes the embedded utterances in order and stops at the
      first failure: the writes are those of the candidates before it, and
      the error is that candidate's. When nothing fails, every candidate is
      written. */
  lemma {:induction false} PopulateStopsAtFirstFailure(encoder: Encoder, setEmbedding: EmbeddingSetter,
                                                       cs: seq<Candidate>)
    ensures var p := Populate(encoder, setEmbedding, cs);
            && |p.writes| <= |cs|
            && (forall k :: 0 <= k < |p.writes| ==> Embed(encoder, setEmbedding, cs[k].utterance) == Ok(p.writes[k]))
            && (p.outcome.Pass? ==> |p.writes| == |cs|)
            && (p.outcome.Fail? ==>
                  |p.writes| < |cs| && Embed(encoder, setEmbedding, cs[|p.writes|].utterance) == Err(p.outcome.error))
    decreases |cs|
  {
    if cs != [] {
      var init := cs[..|cs| - 1];
      PopulateStopsAtFirstFailure(encoder, setEmbedding, init);
      assert forall k :: 0 <= k < |init| ==> cs[k] == init[k];
    }
  }

  /** The store's map after the writes `ws`, applied in order to `m`. */
  function Stored(m: map<string, Vector>, ws: seq<Utterance>): map<string, Vector>
    decreases |ws|
  {
    if ws == [] then m
    else Stored(m, ws[..|ws| - 1])[ws[|ws| - 1].utterance := ws[|ws| - 1].embed]
  }

  /** After the writes, every written text is a key, and a text that no
      later write repeats holds the embedding written for it. */
  lemma {:induction false} StoredHoldsWrites(m: map<string, Vector>, ws: seq<Utterance>, k: nat)
    requires k < |ws|
    ensures ws[k].utterance in Stored(m, ws)
    ensures (forall j :: k < j < |ws| ==> ws[j].utterance != ws[k].utterance) ==>
              Stored(m, ws)[ws[k].utterance] == ws[k].embed
    decreases |ws|
  {
    if k < |ws| - 1 {
      StoredHoldsWrites(m, ws[..|ws| - 1], k);
    }
  }

  /** After a successful construction the store answers every candidate, so
      a later scan never fails on a missing embedding. */
  lemma BuiltStoreAnswersEveryCandidate(encoder: Encoder, setEmbedding: EmbeddingSetter,
                                        routes: seq<Route>, m: map<string, Vector>,
                                        fs: seq<BiFuncCoefficient>, sim: Similarity, q: Vector)
    requires Populate(encoder, setEmbedding, Candidates(routes)).outcome.Pass?
    ensures var ws := Populate(encoder, setEmbedding, Candidates(routes)).writes;
            Scan(Env(Made(Stored(m, ws)), fs, sim, q), Candidates(routes)).Ok?
  {
    var cs := Candidates(routes);
    var ws := Populate(encoder, setEmbedding, cs).writes;
    var env := Env(Made(Stored(m, ws)), fs, sim, q);
    PopulateStopsAtFirstFailure(encoder, setEmbedding, cs);
    forall k | 0 <= k < |cs| ensures !Missing(env, cs[k]) {
      StoredHoldsWrites(m, ws, k);
      assert ws[k].utterance == Key(cs[k]);
    }
    ScanFailsAtFirstMissing(env, cs);
  }
}
