/** Values shared by the router and its stores: embeddings, utterances and the
    error kinds the router reports. */
module Domain {

  /** An embedding: a fixed-length vector of reals (float64 in the original). */
  type Vector = seq<real>

  /** An example phrase; `utterance` is the text (also the store key) and
      `embed` its embedding, empty until one is set. */
  datatype Utterance = Utterance(utterance: string, embed: Vector)

  /** The failures the router and the memory store report, each naming the
      text it is about. */
  datatype Error =
    | Encoding(text: string)          // the encoder failed on this text
    | SetEmbedding(text: string)      // the utterance refused the embedding
    | GetEmbedding(text: string)      // the store had no embedding for this text
    | NoRouteFound(utterance: string) // no candidate scored above 0
    | KeyDoesNotExist(key: string)    // the memory store has no such key

  /** A value or the error that prevented it. */
  datatype Result<T> = Ok(value: T) | Err(error: Error)

  /** A Go `error` return: nil (Pass) or an error. */
  datatype Outcome = Pass | Fail(error: Error)
}
