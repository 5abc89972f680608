/**
 * The zero-knowledge crypto SDK (nk/sdk/src/crypto.ts): Argon2id key derivation with a random or
 * caller-supplied salt, and AES-256-GCM envelopes whose sealed output is split into `ct` and a
 * trailing 16-byte `tag`, each carried as Base64.
 */
module SdkCrypto {
  import opened Wrappers
  import opened Buffers
  import opened Json
  import opened Primitives
  import Base64

  /** Optional Argon2id cost parameters and salt. */
  datatype DeriveParams = DeriveParams(opslimit: Option<nat>, memlimit: Option<nat>, salt: Option<Bytes>)

  /** The derived key and the salt it was derived with. */
  datatype MasterKey = MasterKey(key: Bytes, salt: Bytes)

  /** The wire envelope: Base64 ciphertext body, nonce and tag, plus caller metadata. */
  datatype CipherItem = CipherItem(ct: string, iv: string, tag: string, meta: Option<Meta>)

  /** What the SDK's calls throw: the KDF fails, the key cannot be imported, a field is not Base64, or the tag does not verify. */
  datatype CryptoError = DerivationFailed | InvalidKey | MalformedBase64 | AuthenticationFailed

  /**
   * `deriveMasterKey(password, params)`; `freshSalt` is what `randomBytes(16)` returned. The salt is
   * `params.salt` when given, the costs default to libsodium's interactive preset.
   */
  function DeriveMasterKey(sodium: Sodium, utf8: Utf8, password: string, params: DeriveParams, freshSalt: Bytes): (r: Result<MasterKey, CryptoError>)
    requires sodium.Valid()
    requires |freshSalt| == SaltBytes
    ensures r.Ok? ==> |r.value.key| == KeyBytes && |r.value.salt| == SaltBytes
    ensures r.Ok? ==> r.value.salt == if params.salt.Some? then params.salt.value else freshSalt
    ensures params.salt.Some? && |params.salt.value| != SaltBytes ==> r == Err(DerivationFailed)
  {
    var salt := if params.salt.Some? then params.salt.value else freshSalt;
    var ops := if params.opslimit.Some? then params.opslimit.value else OpsLimitInteractive;
    var mem := if params.memlimit.Some? then params.memlimit.value else MemLimitInteractive;
    match sodium.pwhash(KeyBytes, utf8.encode(password), salt, ops, mem, AlgDefault)
    case None => Err(DerivationFailed)
    case Some(key) => Ok(MasterKey(key, salt))
  }

  /**
   * A key derived with a random salt is derived again from the Base64 salt stored in the item's
   * `meta`, with the same password and costs: the derivation needs no stored key.
   */
  lemma ReDeriveFromStoredSalt(sodium: Sodium, utf8: Utf8, password: string, ops: Option<nat>, mem: Option<nat>, freshSalt: Bytes, laterSalt: Bytes)
    requires sodium.Valid()
    requires |freshSalt| == SaltBytes && |laterSalt| == SaltBytes
    requires DeriveMasterKey(sodium, utf8, password, DeriveParams(ops, mem, None), freshSalt).Ok?
    ensures var mk := DeriveMasterKey(sodium, utf8, password, DeriveParams(ops, mem, None), freshSalt).value;
            && Base64.Decode(Base64.Encode(mk.salt)) == Some(mk.salt)
            && DeriveMasterKey(sodium, utf8, password, DeriveParams(ops, mem, Base64.Decode(Base64.Encode(mk.salt))), laterSalt) == Ok(mk)
  {
    var mk := DeriveMasterKey(sodium, utf8, password, DeriveParams(ops, mem, None), freshSalt).value;
    Base64.DecodeEncode(mk.salt);
  }

  /** What `encryptEntry(keyBytes, plaintext, meta)` returns when `randomBytes(12)` gave `iv`. */
  function Encrypt(aead: Aead, keyBytes: Bytes, plaintext: Bytes, meta: Option<Meta>, iv: Bytes): (r: Result<CipherItem, CryptoError>)
    requires aead.Valid()
    ensures r.Ok? <==> IsAesKeyLength(keyBytes)
    ensures r.Ok? ==> r.value.meta == meta && Base64.Decode(r.value.iv) == Some(iv)
    ensures r.Ok? ==> exists tag :: Base64.Decode(r.value.tag) == Some(tag) && |tag| == TagBytes
    ensures r.Ok? ==>
              Base64.Decode(r.value.ct).Some? && Base64.Decode(r.value.tag).Some? &&
              Base64.Decode(r.value.ct).value + Base64.Decode(r.value.tag).value == aead.seal(keyBytes, iv, plaintext)
  {
    if !IsAesKeyLength(keyBytes) then Err(InvalidKey)
    else
      var (ct, tag) := SplitTag(aead.seal(keyBytes, iv, plaintext));
      Base64.DecodeEncode(ct);
      Base64.DecodeEncode(iv);
      Base64.DecodeEncode(tag);
      Ok(CipherItem(Base64.Encode(ct), Base64.Encode(iv), Base64.Encode(tag), meta))
  }

  /** What `decryptEntry(keyBytes, item)` returns: the AEAD opened over `ct` followed by `tag`. */
  function Decrypt(aead: Aead, keyBytes: Bytes, item: CipherItem): (r: Result<Bytes, CryptoError>)
    ensures Base64.Decode(item.iv).None? || Base64.Decode(item.tag).None? || Base64.Decode(item.ct).None? ==>
              r == Err(MalformedBase64)
    ensures r.Ok? ==>
              && IsAesKeyLength(keyBytes)
              && Base64.Decode(item.iv).Some? && Base64.Decode(item.tag).Some? && Base64.Decode(item.ct).Some?
              && aead.open(keyBytes, Base64.Decode(item.iv).value,
                           Base64.Decode(item.ct).value + Base64.Decode(item.tag).value) == Some(r.value)
  {
    var iv, tag, ct := Base64.Decode(item.iv), Base64.Decode(item.tag), Base64.Decode(item.ct);
    if iv.None? || tag.None? || ct.None? then Err(MalformedBase64)
    else if !IsAesKeyLength(keyBytes) then Err(InvalidKey)
    else match aead.open(keyBytes, iv.value, ct.value + tag.value)
      case None => Err(AuthenticationFailed)
      case Some(p) => Ok(p)
  }

  /** Decrypting what was encrypted under the same key returns the plaintext. */
  lemma DecryptEncrypt(aead: Aead, keyBytes: Bytes, plaintext: Bytes, meta: Option<Meta>, iv: Bytes)
    requires aead.Valid() && IsAesKeyLength(keyBytes)
    ensures Decrypt(aead, keyBytes, Encrypt(aead, keyBytes, plaintext, meta, iv).value) == Ok(plaintext)
  {
    var sealed := aead.seal(keyBytes, iv, plaintext);
    var (ct, tag) := SplitTag(sealed);
    Base64.DecodeEncode(ct);
    Base64.DecodeEncode(tag);
    Base64.DecodeEncode(iv);
  }

  /** Decrypting under a key the tag check tells apart from the encryption key fails: no plaintext comes out. */
  lemma WrongKeyFails(aead: Aead, keyBytes: Bytes, bad: Bytes, plaintext: Bytes, meta: Option<Meta>, iv: Bytes)
    requires aead.Valid() && IsAesKeyLength(keyBytes)
    requires aead.Rejects(keyBytes, bad)
    ensures Decrypt(aead, bad, Encrypt(aead, keyBytes, plaintext, meta, iv).value).Err?
  {
    var sealed := aead.seal(keyBytes, iv, plaintext);
    var (ct, tag) := SplitTag(sealed);
    Base64.DecodeEncode(ct);
    Base64.DecodeEncode(tag);
    Base64.DecodeEncode(iv);
    assert aead.open(bad, iv, sealed) == None;
  }

  /**
   * `encryptEntry`: seal under a fresh 12-byte nonce, split off the tag, then overwrite the caller's
   * plaintext buffer with zeros. An unusable key throws before the buffer is touched.
   */
  method EncryptEntry(aead: Aead, keyBytes: Bytes, plaintext: array<byte>, meta: Option<Meta>, iv: Bytes) returns (r: Result<CipherItem, CryptoError>)
    requires aead.Valid()
    requires |iv| == NonceBytes
    modifies plaintext
    ensures r == Encrypt(aead, keyBytes, old(plaintext[..]), meta, iv)
    ensures r.Ok? ==> AllZero(plaintext[..])
    ensures r.Err? ==> plaintext[..] == old(plaintext[..])
  {
    if !IsAesKeyLength(keyBytes) {
      return Err(InvalidKey);
    }
    var sealed := aead.seal(keyBytes, iv, plaintext[..]);
    var tag := sealed[|sealed| - TagBytes..];
    var ct := sealed[..|sealed| - TagBytes];
    FillZero(plaintext, 0, plaintext.Length);
    r := Ok(CipherItem(Base64.Encode(ct), Base64.Encode(iv), Base64.Encode(tag), meta));
  }

  /** `decryptEntry`: decode the fields, copy `ct` then `tag` into one new buffer, and open it. */
  method DecryptEntry(aead: Aead, keyBytes: Bytes, item: CipherItem) returns (r: Result<Bytes, CryptoError>)
    ensures r == Decrypt(aead, keyBytes, item)
  {
    var iv, tag, ct := Base64.Decode(item.iv), Base64.Decode(item.tag), Base64.Decode(item.ct);
    if iv.None? || tag.None? || ct.None? {
      return Err(MalformedBase64);
    }
    var sealed := Joined(ct.value, tag.value);
    if !IsAesKeyLength(keyBytes) {
      return Err(InvalidKey);
    }
    var plain := aead.open(keyBytes, iv.value, sealed[..]);
    r := if plain.None? then Err(AuthenticationFailed) else Ok(plain.value);
  }

  /** `zeroize(...bufs)`: every buffer given is filled with zeros; absent ones are skipped. */
  method Zeroize(bufs: seq<Option<array<byte>>>)
    modifies set i | 0 <= i < |bufs| && bufs[i].Some? :: bufs[i].value
    ensures forall i :: 0 <= i < |bufs| && bufs[i].Some? ==> AllZero(bufs[i].value[..])
  {
    for n := 0 to |bufs|
      invariant forall i :: 0 <= i < n && bufs[i].Some? ==> AllZero(bufs[i].value[..])
    {
      if bufs[n].Some? {
        FillZero(bufs[n].value, 0, bufs[n].value.Length);
      }
    }
  }

  /**
   * The SDK's round-trip scenario: derive a key, encrypt a buffer, decrypt the item. Decryption returns
   * the bytes the buffer held before encryption, although encryption has zeroed the buffer since.
   */
  method RoundTrip(sodium: Sodium, utf8: Utf8, aead: Aead, password: string, freshSalt: Bytes, plaintext: array<byte>, meta: Option<Meta>, iv: Bytes)
    returns (out: Result<Bytes, CryptoError>)
    requires sodium.Valid() && aead.Valid()
    requires |freshSalt| == SaltBytes && |iv| == NonceBytes
    modifies plaintext
    ensures DeriveMasterKey(sodium, utf8, password, DeriveParams(None, None, None), freshSalt).Ok? ==>
              out == Ok(old(plaintext[..])) && AllZero(plaintext[..])
  {
    var mk := DeriveMasterKey(sodium, utf8, password, DeriveParams(None, None, None), freshSalt);
    if mk.Err? {
      return Err(mk.error);
    }
    ghost var before := plaintext[..];
    var item := EncryptEntry(aead, mk.value.key, plaintext, meta, iv);
    DecryptEncrypt(aead, mk.value.key, before, meta, iv);
    out := DecryptEntry(aead, mk.value.key, item.value);
  }
}
