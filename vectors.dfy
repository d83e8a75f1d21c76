/** Embedding vectors, shared by the embedders and the vector store. */
module Vectors {
  /** An embedding: the components of a float vector, as exact reals. */
  type Vector = seq<real>
}
