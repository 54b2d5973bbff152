/** Small shared vocabulary: optional values, throwing results and bytes. */
module Common {

  /** Swift's `T?`. */
  datatype Option<+T> = None | Some(value: T)

  /** The errors the common framework throws (`Errors.runtimeError(...)`), one case per message. */
  datatype Error =
    | InvalidAttributes        // attribute map rejected by a whitelist
    | UnsupportedFormat        // vertex format / pixel component size not handled
    | NotImplemented           // always-throwing mesh stubs
    | MissingTextureIndex      // a texture bound without an index
    | UnsupportedResource      // fragment stage given a mesh resource
    | WrongFaceCount           // cube map not given exactly six images
    | FaceSizeMismatch         // cube map face of the wrong size
    | NoMesh                   // model asset holds no mesh
    | TextureLoadFailed        // texture loader threw
    | Trap                     // a Swift runtime trap (force-unwrap of nil, out-of-range index, negative count)

  /** The outcome of a `throws` function. */
  datatype Result<+T> = Ok(value: T) | Err(error: Error)

  /** A byte of raw memory. */
  newtype byte = x: int | 0 <= x < 256

  /** Swift's `UInt32`. */
  newtype uint32 = x: int | 0 <= x < 0x1_0000_0000

  /** `a ?? b` */
  function OrElse<T>(a: Option<T>, b: Option<T>): (r: Option<T>)
    ensures a.Some? ==> r == a
    ensures a.None? ==> r == b
  {
    if a.Some? then a else b
  }

  /** Concatenation is associative; stated once so that proofs can cite it instead of re-deriving it. */
  lemma AppendAssoc<T>(a: seq<T>, b: seq<T>, c: seq<T>)
    ensures (a + b) + c == a + (b + c)
  {
  }
}
