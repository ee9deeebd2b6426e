/** The record shapes shared by the store, the orchestrator and the evaluator. */
module Typedefs {

  datatype Option<T> = None | Some(value: T)

  /** An embedding: a dense vector of reals (the floating-point values of the
      source are modelled as exact reals; nothing here computes with them). */
  type Vector = seq<real>

  /** The annotation record of one image. `imagePath` is the `image` reference
      of its manifest row, which the orchestrator stores even though the
      declared record type lacks that key. */
  datatype Metadata = Metadata(
    imageId: string,
    imagePath: string,
    caption: string,
    tags: seq<string>,
    location: string)

  /** One entry of the vector store; `id` mirrors `metadata.imageId`. */
  datatype Element = Element(id: string, embedding: Vector, metadata: Metadata)
}
