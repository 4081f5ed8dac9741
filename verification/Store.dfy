/** internal/store: hashing and sealing, taken as perfect. */
module Store {
  import opened Prelude

  /** A hash: two hashes are equal exactly when the hashed values are. */
  datatype Digest<+T> = Sha256(content: T)

  /** The purpose strings "request:ID", "result:ID" and "service:ID:REVISION" that bind a ciphertext to its record. */
  datatype Purpose =
    | RequestPurpose(id: string)
    | ResultPurpose(id: string)
    | ServicePurpose(service: string, revision: int)

  /** A ciphertext, which opens only under the purpose it was sealed for. */
  datatype Sealed<+T> = Sealed(purpose: Purpose, plain: T)

  function Encrypt<T>(purpose: Purpose, plain: T): Sealed<T> {
    Sealed(purpose, plain)
  }

  function Decrypt<T>(purpose: Purpose, box: Sealed<T>): Option<T> {
    if box.purpose == purpose then Some(box.plain) else None
  }
}
