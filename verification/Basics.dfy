/** Shared value types.  Go strings and byte slices are both byte sequences, so
    both are modelled as sequences of characters. */
module Basics {

  datatype Option<+T> = None | Some(value: T)

  datatype Result<+T> = Ok(value: T) | Err(error: Error)

  type Bytes = string

  /** Every character stands for one byte.  Only the encodings that look inside a
      byte need to know this. */
  predicate Octets(b: Bytes) {
    forall i :: 0 <= i < |b| ==> b[i] as int < 256
  }

  /** The error values the modelled operations return.  `Panic` stands for a Go
      run-time panic: a nil dereference or an index or slice out of range. */
  datatype Error =
    | EOF
    | UnexpectedEOF
    | Malformed
    | BadDigest
    | BadRequest
    | IncompleteBody
    | BucketAlreadyExists
    | BucketNotEmpty
    | Internal
    | InvalidArgument
    | InvalidPart
    | InvalidPartOrder
    | InvalidRange
    | InvalidToken
    | KeyTooLong
    | NoSuchBucket
    | NoSuchKey
    | NoSuchUpload
    | NoSuchVersion
    | NotImplemented
    | Panic

  /** An MD5-like digest: any function from bytes to sixteen bytes. */
  type Digest = h: Bytes -> Bytes | forall b :: |h(b)| == 16 && Octets(h(b))
    witness (b: Bytes) => seq(16, i => '0')
}
