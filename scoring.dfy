/** The router's scoring configuration: weighted similarity functions and the
    score they sum to. */
module Scoring {
  import opened Domain

  /** The five similarity functions a router can be configured with. */
  datatype Metric = SimilarityDotMatrix | EuclideanDistance | ManhattanDistance
                  | JaccardSimilarity | PearsonCorrelation

  /** The similarity library: the value of each metric on a query vector and
      a candidate vector. Its numerics are not part of this model, so every
      result below holds for whatever functions it stands for. */
  type Similarity = (Metric, Vector, Vector) -> real

  /** One weighted metric: a similarity function and its coefficient. */
  datatype BiFuncCoefficient = BiFuncCoefficient(func: Metric, coefficient: real)

  /** The router options, one per `With…` constructor, each carrying its
      coefficient. */
  datatype Option =
    | WithSimilarityDotMatrix(coefficient: real)
    | WithEuclideanDistance(coefficient: real)
    | WithManhattanDistance(coefficient: real)
    | WithJaccardSimilarity(coefficient: real)
    | WithPearsonCorrelation(coefficient: real)

  /** The metric an option configures. */
  function OptionMetric(opt: Option): Metric
  {
    match opt
    case WithSimilarityDotMatrix(_) => SimilarityDotMatrix
    case WithEuclideanDistance(_) => EuclideanDistance
    case WithManhattanDistance(_) => ManhattanDistance
    case WithJaccardSimilarity(_) => JaccardSimilarity
    case WithPearsonCorrelation(_) => PearsonCorrelation
  }

  /** The pair an option appends to a router's list. */
  function Pair(opt: Option): (p: BiFuncCoefficient)
    ensures p.coefficient == opt.coefficient
  {
    BiFuncCoefficient(OptionMetric(opt), opt.coefficient)
  }

  /** The list a router ends up with when `opts` are applied in order to an
      empty list. */
  function Configured(opts: seq<Option>): (fs: seq<BiFuncCoefficient>)
    ensures |fs| == |opts|
    ensures forall k :: 0 <= k < |opts| ==> fs[k] == Pair(opts[k])
  {
    seq(|opts|, k requires 0 <= k < |opts| => Pair(opts[k]))
  }

  /** The contribution of one weighted metric to a candidate's score. */
  function Term(fn: BiFuncCoefficient, sim: Similarity, q: Vector, c: Vector): real
  {
    fn.coefficient * sim(fn.func, q, c)
  }

  /** The score of candidate `c` against query `q`: the sum of the weighted
      metrics, added up from the first pair to the last. */
  function Score(fs: seq<BiFuncCoefficient>, sim: Similarity, q: Vector, c: Vector): real
    decreases |fs|
  {
    if fs == [] then 0.0
    else Score(fs[..|fs| - 1], sim, q, c) + Term(fs[|fs| - 1], sim, q, c)
  }

  /** Scores compose linearly: the score under two lists of weighted metrics
      is the sum of the scores under each. */
  lemma {:induction false} ScoreConcat(a: seq<BiFuncCoefficient>, b: seq<BiFuncCoefficient>,
                                       sim: Similarity, q: Vector, c: Vector)
    ensures Score(a + b, sim, q, c) == Score(a, sim, q, c) + Score(b, sim, q, c)
    decreases |b|
  {
    if b == [] {
      assert a + b == a;
    } else {
      var b' := b[..|b| - 1];
      assert (a + b)[..|a + b| - 1] == a + b';
      ScoreConcat(a, b', sim, q, c);
    }
  }

  /** Appending one option adds exactly that option's weighted metric to
      every score, and the empty configuration scores 0. */
  lemma ScoreWithOption(opts: seq<Option>, opt: Option, sim: Similarity, q: Vector, c: Vector)
    ensures Score(Configured([]), sim, q, c) == 0.0
    ensures Score(Configured(opts + [opt]), sim, q, c)
         == Score(Configured(opts), sim, q, c) + opt.coefficient * sim(OptionMetric(opt), q, c)
  {
    assert Configured(opts + [opt]) == Configured(opts) + [Pair(opt)];
    ScoreConcat(Configured(opts), [Pair(opt)], sim, q, c);
  }
}
