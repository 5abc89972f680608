/**
 * The foreign primitives the crypto code calls, and the only facts the model assumes of them.
 * Each primitive is a function value; the `Valid()` predicate of its bundle states the
 * assumptions, and every theorem that needs them takes `Valid()` as a precondition.
 */
module Primitives {
  import opened Wrappers
  import opened Buffers

  /** Key length of AES-256, and the output length both key derivations ask of `crypto_pwhash`. */
  const KeyBytes := 32
  /** GCM nonce length (NIST SP 800-38D, 96-bit IV). */
  const NonceBytes := 12
  /** GCM authentication tag length (128 bits), appended by WebCrypto's `encrypt`. */
  const TagBytes := 16
  /** `crypto_pwhash_SALTBYTES`. */
  const SaltBytes := 16

  /** libsodium's Argon2id cost presets and algorithm identifier. */
  const OpsLimitInteractive := 2
  const MemLimitInteractive := 67108864
  const OpsLimitModerate := 3
  const MemLimitModerate := 268435456
  const AlgArgon2id13 := 2
  /** `crypto_pwhash_ALG_DEFAULT` is Argon2id version 1.3. */
  const AlgDefault := AlgArgon2id13

  /** AES-GCM as WebCrypto exposes it: `seal(key, iv, p)` is ciphertext followed by tag. */
  datatype Aead = Aead(seal: (Bytes, Bytes, Bytes) -> Bytes, open: (Bytes, Bytes, Bytes) -> Option<Bytes>)
  {
    /** The sealed output is 16 bytes longer than the plaintext, and opening it under the same key and nonce succeeds. */
    ghost predicate Valid()
    {
      && (forall k, iv, p :: |seal(k, iv, p)| == |p| + TagBytes)
      && (forall k, iv, p :: open(k, iv, seal(k, iv, p)) == Some(p))
    }

    /**
     * Tag verification tells `bad` apart from `key`: nothing sealed under `key` opens under `bad`.
     * This holds of two distinct keys only with overwhelming probability, so it is assumed per pair.
     */
    ghost predicate Rejects(key: Bytes, bad: Bytes)
    {
      forall iv, p :: open(bad, iv, seal(key, iv, p)) == None
    }
  }

  /** The two libsodium calls: `crypto_pwhash` (Argon2id, RFC 9106) and `crypto_generichash` (BLAKE2b). */
  datatype Sodium = Sodium(
    pwhash: (nat, Bytes, Bytes, nat, nat, nat) -> Option<Bytes>,
    generichash: (nat, Bytes) -> Bytes)
  {
    /**
     * `pwhash(outlen, password, salt, ops, mem, alg)` throws (None) or returns `outlen` bytes, and it
     * throws unless the salt has `SaltBytes` bytes; `generichash(outlen, m)` returns `outlen` bytes for
     * the lengths BLAKE2b supports.
     */
    ghost predicate Valid()
    {
      && (forall outlen, pwd, salt, ops, mem, alg | pwhash(outlen, pwd, salt, ops, mem, alg).Some? ::
            |pwhash(outlen, pwd, salt, ops, mem, alg).value| == outlen && |salt| == SaltBytes)
      && (forall outlen, m | 16 <= outlen <= 64 :: |generichash(outlen, m)| == outlen)
    }
  }

  /** `TextEncoder.encode` and `TextDecoder.decode`. */
  datatype Utf8 = Utf8(encode: string -> Bytes, decode: Bytes -> string)
  {
    /** Decoding what was encoded gives the string back. */
    ghost predicate Valid()
    {
      forall s :: decode(encode(s)) == s
    }
  }

  /** WebCrypto's raw AES key import accepts 128-, 192- and 256-bit keys and throws otherwise. */
  predicate IsAesKeyLength(k: Bytes)
  {
    |k| == 16 || |k| == 24 || |k| == 32
  }

  /**
   * The framing both clients put on WebCrypto's AES-GCM output: `sealed.slice(0, n - 16)` is the
   * ciphertext body and `sealed.slice(n - 16)` the tag.
   */
  function SplitTag(sealed: Bytes): (r: (Bytes, Bytes))
    requires |sealed| >= TagBytes
    ensures |r.1| == TagBytes && r.0 + r.1 == sealed
  {
    (sealed[..|sealed| - TagBytes], sealed[|sealed| - TagBytes..])
  }
}
