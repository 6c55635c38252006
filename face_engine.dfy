/**
 * The face models the service calls, as opaque capabilities.
 * ml_engine.py and face_auth_api.py load MTCNN (a face detector) and ArcFace
 * (an embedding extractor) once at start-up and compare embeddings by cosine
 * similarity. None of that numerical work is modelled: a `FaceModels` value
 * carries the three capabilities as functions, and every handler is proved
 * for every choice of them.
 */
module FaceEngine {
  import opened Common

  /** The raw bytes of an uploaded image. */
  type Bytes = seq<bv8>

  /**
   * One component of an embedding: a number as JSON writes it,
   * `mantissa` times ten to the power `exponent`.
   */
  datatype Num = Num(mantissa: int, exponent: int)

  /** An embedding vector as a list of numbers (`embedding.tolist()`). */
  type Embedding = seq<Num>

  datatype FaceModels = FaceModels(
    /** MTCNN: true when a face is found (`mtcnn(img) is not None`). */
    detect: Bytes -> bool,
    /** ArcFace: the normalised embedding of the first face, or None when it finds no face. */
    embed: Bytes -> Option<Embedding>,
    /** Cosine similarity of two embeddings, in argument order. */
    similarity: (Embedding, Embedding) -> real
  )

  /** The message of the ValueError that ml_engine.get_embedding raises when ArcFace finds no face. */
  const NoEmbeddingMessage := "No face detected by ArcFace during embedding generation."
}
