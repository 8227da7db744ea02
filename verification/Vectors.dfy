/** Embedding vectors and the one dimension the database takes. */
module Vectors {
  type Vector = seq<real>

  /** embeddingDimension, and the type vector(1536) of the embedding column. */
  const DIMENSION: nat := 1536

  predicate Fits(v: Vector) {
    |v| == DIMENSION
  }
}
