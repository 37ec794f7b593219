/** Small value types, and the one bucket, shared by every module of the model. */
module Common {

  /** An optional value: Go's nil pointer or absent entry. */
  datatype Option<T> = None | Some(value: T)

  /** Go errors are opaque to the logic; a message is enough to tell them apart. */
  type Error = string

  /** A Go `(value, error)` pair whose error is non-nil exactly on failure. */
  datatype Result<T> = Ok(value: T) | Err(error: Error)

  /** One octet of a byte stream. */
  type byte = x: int | 0 <= x < 256

  type bytes = seq<byte>

  /** The bucket every log, listing and upload URL of the service refers to. */
  const UploadBucket := "mbk-upload-bucket"
}
