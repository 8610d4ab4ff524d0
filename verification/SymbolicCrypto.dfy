/**
 The primitives of the repository, as free terms: a byte string is known only by how it was computed, so two of
 them are equal exactly when they were computed in the same way. A Diffie-Hellman output is the unordered pair of
 the two public keys involved; HKDF and HMAC outputs remember their inputs (RFC 5869 section 2.3, RFC 2104
 section 2); a ciphertext opens only under the key, nonce and associated data it was sealed with.
 */
module SymbolicCrypto {
  import opened Wrappers

  newtype Byte = b: int | 0 <= b < 256

  datatype PublicKey = PublicKey(bytes: seq<Byte>)

  /** A secret is named by the public key that belongs to it. */
  datatype Secret = Secret(public: PublicKey)

  datatype DhOutput = DhOutput(ends: set<PublicKey>)

  datatype Bytes =
    | Raw(id: nat)                                                           // 32 bytes nobody derived
    | Text(text: string)                                                     // a literal
    | Okm(ikm: seq<DhOutput>, salt: Bytes, info: string, block: nat)         // 32-byte block of an HKDF output
    | Mac(key: Bytes, tag: nat)                                              // HMAC of a one-byte string

  type Plaintext = seq<Byte>

  datatype Sealed = Sealed(key: Bytes, nonce: nat, plaintext: Plaintext, associatedData: string)

  datatype Encrypted = Encrypted(nonce: nat, ciphertext: Sealed)

  const RATCHET_INFO := "GhostCrypt_Ratchet"
  const HASH_LEN: nat := 32

  function Dh(ours: Secret, theirs: PublicKey): DhOutput {
    DhOutput({ours.public, theirs})
  }

  /** X25519 agreement is symmetric, and tells apart different partners of the same key. */
  lemma DhAgrees(a: PublicKey, b: PublicKey, c: PublicKey)
    ensures Dh(Secret(a), b) == Dh(Secret(b), a)
    ensures Dh(Secret(a), b) == Dh(Secret(a), c) <==> b == c
  {
    assert {a, b} == {b, a};
    if b != c {
      assert b in {a, b} && c in {a, c};
      assert b in {a, c} ==> b == a;
      assert c in {a, b} ==> c == a;
    }
  }

  /** HKDF with a 32-byte hash: `length` bytes, as blocks of 32. */
  function Derive(ikm: seq<DhOutput>, salt: Bytes, info: string, length: nat): (blocks: seq<Bytes>)
    ensures |blocks| == length / HASH_LEN
  {
    seq(length / HASH_LEN, (i: nat) => Okm(ikm, salt, info, i))
  }

  /** One step of a symmetric chain: the next chain key and the message key. */
  function DeriveChainAndMessageKey(chainKey: Bytes): (Bytes, Bytes) {
    (Mac(chainKey, 1), Mac(chainKey, 2))
  }

  /** One step of the root chain: the next root key and a new chain key. */
  function DhRatchetStep(rootKey: Bytes, dhOutput: DhOutput): (Bytes, Bytes) {
    var derived := Derive([dhOutput], rootKey, RATCHET_INFO, 64);
    (derived[0], derived[1])
  }

  /** In full: 64 bytes derived with the root key as salt under the ratchet's own label, the two halves in order. */
  lemma RootStepInFull(rootKey: Bytes, dhOutput: DhOutput)
    ensures DhRatchetStep(rootKey, dhOutput)
         == (Okm([dhOutput], rootKey, "GhostCrypt_Ratchet", 0), Okm([dhOutput], rootKey, "GhostCrypt_Ratchet", 1))
    ensures Derive([dhOutput], rootKey, "GhostCrypt_Ratchet", 64)
         == [DhRatchetStep(rootKey, dhOutput).0, DhRatchetStep(rootKey, dhOutput).1]
  {
  }

  function Root(rootKey: Bytes, dhOutput: DhOutput): Bytes {
    DhRatchetStep(rootKey, dhOutput).0
  }

  function Chain(rootKey: Bytes, dhOutput: DhOutput): Bytes {
    DhRatchetStep(rootKey, dhOutput).1
  }

  function Seal(key: Bytes, nonce: nat, plaintext: Plaintext, associatedData: string): Encrypted {
    Encrypted(nonce, Sealed(key, nonce, plaintext, associatedData))
  }

  function Open(key: Bytes, encrypted: Encrypted, associatedData: string): Result<Plaintext> {
    var c := encrypted.ciphertext;
    if c.key == key && c.nonce == encrypted.nonce && c.associatedData == associatedData
    then Ok(c.plaintext)
    else Err(AeadFailure)
  }
}
