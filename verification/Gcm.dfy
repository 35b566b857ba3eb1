// AES-256-GCM as the server uses it: what is sealed under one key opens under that key only.
module Gcm {
  import opened Common

  /** A stored ciphertext. The plaintext is visible to the proofs, never to code without the key. */
  datatype Sealed<T> = Sealed(kek: string, nonce: nat, plain: T)

  function Seal<T>(kek: string, nonce: nat, plain: T): Sealed<T> {
    Sealed(kek, nonce, plain)
  }

  /** Authentication fails under any other key encryption key. */
  function Open<T>(kek: string, s: Sealed<T>): Option<T> {
    if s.kek == kek then Some(s.plain) else None
  }
}
