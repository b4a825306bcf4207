// Small value types shared by the components of the site.
module Common {

  /** JavaScript's `undefined`/`null` versus a present value. */
  datatype Option<+T> = None | Some(value: T)

  /** One element of a `Uint8Array`. */
  newtype Byte = x: int | 0 <= x < 256

  /**
   * A browser `File` as the upload form and the image route see it: the MIME
   * type the browser declared, the size in bytes, and the bytes that
   * `file.arrayBuffer()` yields (`None` when reading them fails).
   */
  datatype UploadFile = UploadFile(mimeType: string, size: nat, content: Option<seq<Byte>>)
}
