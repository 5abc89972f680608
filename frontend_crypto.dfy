/**
 * The browser crypto module (frontend/src/crypto/crypto.ts): a per-user salt hashed from the
 * username, Argon2id at libsodium's moderate preset into a non-extractable AES-GCM key, and
 * envelopes whose fields pass through hand-written byte/binary-string loops around `btoa`/`atob`.
 */
module FrontendCrypto {
  import opened Wrappers
  import opened Buffers
  import opened Json
  import opened Primitives
  import Base64

  /** The envelope as the browser stores it; `id` is assigned by the item store. */
  datatype CipherBlob = CipherBlob(id: Option<string>, ct: string, iv: string, tag: string, meta: Option<Meta>)

  /** A WebCrypto `CryptoKey` for AES-GCM, usable for encrypt and decrypt; its raw bytes never leave it. */
  datatype CryptoKey = CryptoKey(raw: Bytes)

  /** An `ArrayBufferView`: `byteLength` bytes of `buffer` starting at `byteOffset`. */
  datatype View = View(buffer: array<byte>, byteOffset: nat, byteLength: nat)
  {
    predicate Valid()
    {
      byteOffset + byteLength <= buffer.Length
    }
  }

  /** What the module's calls throw: the KDF fails, `atob` rejects a field, or the tag does not verify. */
  datatype CryptoError = DerivationFailed | MalformedBase64 | AuthenticationFailed

  /** A "binary string": every character code fits in a byte. */
  predicate IsBinary(s: string)
  {
    forall i :: 0 <= i < |s| ==> s[i] as int < 256
  }

  /** `btoa(s)`: the Base64 of the bytes a binary string spells. */
  function Btoa(s: string): (r: string)
    requires IsBinary(s)
    ensures |r| == 4 * ((|s| + 2) / 3)
    ensures Atob(r) == Some(s)
  {
    var bytes: Bytes := seq(|s|, i requires 0 <= i < |s| => s[i] as int);
    Base64.DecodeEncode(bytes);
    assert seq(|bytes|, i requires 0 <= i < |bytes| => bytes[i] as char) == s;
    Base64.Encode(bytes)
  }

  /** `atob(s)`: the binary string of the bytes `s` encodes under strict padded Base64; None otherwise. */
  function Atob(s: string): (r: Option<string>)
    ensures r.Some? <==> Base64.Decode(s).Some?
    ensures r.Some? ==> IsBinary(r.value) && |r.value| == |Base64.Decode(s).value|
    ensures r.Some? ==> forall i :: 0 <= i < |r.value| ==> r.value[i] as int == Base64.Decode(s).value[i]
  {
    match Base64.Decode(s)
    case None => None
    case Some(b) => Some(seq(|b|, i requires 0 <= i < |b| => b[i] as char))
  }

  /** `b64enc`: build the binary string of `buf` one `String.fromCharCode` at a time, then `btoa` it. */
  method B64Enc(buf: Bytes) returns (s: string)
    ensures s == Base64.Encode(buf)
  {
    var bin := "";
    for i := 0 to |buf|
      invariant |bin| == i
      invariant forall k :: 0 <= k < i ==> bin[k] as int == buf[k]
    {
      bin := bin + [buf[i] as char];
    }
    assert seq(|bin|, i requires 0 <= i < |bin| => bin[i] as int) == buf;
    s := Btoa(bin);
  }

  /** `b64dec`: `atob`, then store each `charCodeAt` into a new `Uint8Array` (which keeps it modulo 256). */
  method B64Dec(b64: string) returns (r: Option<array<byte>>)
    ensures r.Some? <==> Base64.Decode(b64).Some?
    ensures r.Some? ==> fresh(r.value) && r.value[..] == Base64.Decode(b64).value
  {
    var bin := Atob(b64);
    if bin.None? {
      return None;
    }
    var u := new byte[|bin.value|];
    for i := 0 to |bin.value|
      invariant forall k :: 0 <= k < i ==> u[k] == bin.value[k] as int % 256
    {
      u[i] := bin.value[i] as int % 256;
    }
    r := Some(u);
  }

  /** `b64dec(b64enc(buf))` has exactly the bytes of `buf`. */
  method B64RoundTrip(buf: Bytes) returns (out: Option<array<byte>>)
    ensures out.Some? && out.value[..] == buf
  {
    var s := B64Enc(buf);
    Base64.DecodeEncode(buf);
    out := B64Dec(s);
  }

  /** `zeroize(arr)`: zero exactly the bytes the view covers; a missing view is a no-op. */
  method Zeroize(arr: Option<View>)
    requires arr.Some? ==> arr.value.Valid()
    modifies if arr.Some? then {arr.value.buffer} else {}
    ensures arr.Some? ==> forall i :: 0 <= i < arr.value.buffer.Length ==>
              arr.value.buffer[i] == if arr.value.byteOffset <= i < arr.value.byteOffset + arr.value.byteLength then 0 else old(arr.value.buffer[i])
  {
    if arr.None? {
      return;
    }
    var v := arr.value;
    FillZero(v.buffer, v.byteOffset, v.byteOffset + v.byteLength);
  }

  /** The per-user salt: a 16-byte BLAKE2b hash of the UTF-8 username, so it depends on the username alone. */
  function UserSalt(sodium: Sodium, utf8: Utf8, username: string): (salt: Bytes)
    requires sodium.Valid()
    ensures |salt| == SaltBytes
  {
    sodium.generichash(SaltBytes, utf8.encode(username))
  }

  /** The key `deriveMasterKey(username, masterPassword)` resolves to: Argon2id13, moderate preset, 32 bytes. */
  function DeriveKey(sodium: Sodium, utf8: Utf8, username: string, masterPassword: string): (r: Result<CryptoKey, CryptoError>)
    requires sodium.Valid()
    ensures r.Ok? ==> |r.value.raw| == KeyBytes
  {
    match sodium.pwhash(KeyBytes, utf8.encode(masterPassword), UserSalt(sodium, utf8, username), OpsLimitModerate, MemLimitModerate, AlgArgon2id13)
    case None => Err(DerivationFailed)
    case Some(raw) => Ok(CryptoKey(raw))
  }

  /**
   * `deriveMasterKey`: the password is encoded into a buffer `pwd`, hashed, and `pwd` is zeroed in
   * `finally`, so on success and on failure alike. `pwd` is returned so that its final state can be stated.
   */
  method DeriveMasterKey(sodium: Sodium, utf8: Utf8, username: string, masterPassword: string) returns (r: Result<CryptoKey, CryptoError>, pwd: array<byte>)
    requires sodium.Valid()
    ensures r == DeriveKey(sodium, utf8, username, masterPassword)
    ensures fresh(pwd) && pwd.Length == |utf8.encode(masterPassword)| && AllZero(pwd[..])
  {
    var salt := UserSalt(sodium, utf8, username);
    var encoded := utf8.encode(masterPassword);
    pwd := new byte[|encoded|](i requires 0 <= i < |encoded| => encoded[i]);
    assert pwd[..] == encoded;
    var raw := sodium.pwhash(KeyBytes, pwd[..], salt, OpsLimitModerate, MemLimitModerate, AlgArgon2id13);
    r := if raw.None? then Err(DerivationFailed) else Ok(CryptoKey(raw.value));
    Zeroize(Some(View(pwd, 0, pwd.Length)));
  }

  /** The blob `encryptEntry(plaintext, key, meta)` resolves to when `getRandomValues` gave `iv`. */
  function EncryptBlob(aead: Aead, utf8: Utf8, plaintext: string, key: CryptoKey, meta: Option<Meta>, iv: Bytes): (b: CipherBlob)
    requires aead.Valid()
    ensures b.id == None && b.meta == meta
    ensures Base64.Decode(b.iv) == Some(iv)
    ensures exists tag :: Base64.Decode(b.tag) == Some(tag) && |tag| == TagBytes
    ensures Base64.Decode(b.ct).Some? && Base64.Decode(b.tag).Some? &&
      Base64.Decode(b.ct).value + Base64.Decode(b.tag).value == aead.seal(key.raw, iv, utf8.encode(plaintext))
  {
    var (body, tag) := SplitTag(aead.seal(key.raw, iv, utf8.encode(plaintext)));
    Base64.DecodeEncode(body);
    Base64.DecodeEncode(iv);
    Base64.DecodeEncode(tag);
    CipherBlob(None, Base64.Encode(body), Base64.Encode(iv), Base64.Encode(tag), meta)
  }

  /** The result `decryptEntry(blob, key)` resolves to: open `body` followed by `tag`, then UTF-8 decode. */
  function DecryptBlob(aead: Aead, utf8: Utf8, blob: CipherBlob, key: CryptoKey): (r: Result<string, CryptoError>)
    ensures Base64.Decode(blob.ct).None? || Base64.Decode(blob.iv).None? || Base64.Decode(blob.tag).None? ==>
              r == Err(MalformedBase64)
    ensures r.Ok? ==>
              && Base64.Decode(blob.ct).Some? && Base64.Decode(blob.iv).Some? && Base64.Decode(blob.tag).Some?
              && exists pt :: aead.open(key.raw, Base64.Decode(blob.iv).value,
                                       Base64.Decode(blob.ct).value + Base64.Decode(blob.tag).value) == Some(pt)
                              && r.value == utf8.decode(pt)
  {
    var body, iv, tag := Base64.Decode(blob.ct), Base64.Decode(blob.iv), Base64.Decode(blob.tag);
    if body.None? || iv.None? || tag.None? then Err(MalformedBase64)
    else OpenText(aead, utf8, key, iv.value, body.value + tag.value)
  }

  /** `crypto.subtle.decrypt` over the rebuilt buffer, then `TextDecoder.decode`. */
  function OpenText(aead: Aead, utf8: Utf8, key: CryptoKey, iv: Bytes, sealed: Bytes): Result<string, CryptoError>
  {
    match aead.open(key.raw, iv, sealed)
    case None => Err(AuthenticationFailed)
    case Some(pt) => Ok(utf8.decode(pt))
  }

  /** Decrypting an encrypted entry with the same key gives back the plaintext string. */
  lemma DecryptEncryptBlob(aead: Aead, utf8: Utf8, plaintext: string, key: CryptoKey, meta: Option<Meta>, iv: Bytes)
    requires aead.Valid() && utf8.Valid()
    ensures DecryptBlob(aead, utf8, EncryptBlob(aead, utf8, plaintext, key, meta, iv), key) == Ok(plaintext)
  {
    var (body, tag) := SplitTag(aead.seal(key.raw, iv, utf8.encode(plaintext)));
    Base64.DecodeEncode(body);
    Base64.DecodeEncode(tag);
    Base64.DecodeEncode(iv);
  }

  /** Decrypting under a key the tag check tells apart from the encryption key fails. */
  lemma WrongKeyFailsBlob(aead: Aead, utf8: Utf8, plaintext: string, key: CryptoKey, bad: CryptoKey, meta: Option<Meta>, iv: Bytes)
    requires aead.Valid() && aead.Rejects(key.raw, bad.raw)
    ensures DecryptBlob(aead, utf8, EncryptBlob(aead, utf8, plaintext, key, meta, iv), bad) == Err(AuthenticationFailed)
  {
    var sealed := aead.seal(key.raw, iv, utf8.encode(plaintext));
    var (body, tag) := SplitTag(sealed);
    Base64.DecodeEncode(body);
    Base64.DecodeEncode(tag);
    Base64.DecodeEncode(iv);
    assert aead.open(bad.raw, iv, sealed) == None;
  }

  /** `encryptEntry`: encode, seal, take the last 16 bytes as `tag` and the rest as `body`, Base64 each. */
  method EncryptEntry(aead: Aead, utf8: Utf8, plaintext: string, key: CryptoKey, meta: Option<Meta>, iv: Bytes) returns (blob: CipherBlob)
    requires aead.Valid()
    requires |iv| == NonceBytes
    ensures blob == EncryptBlob(aead, utf8, plaintext, key, meta, iv)
  {
    var pt := utf8.encode(plaintext);
    var all := aead.seal(key.raw, iv, pt);
    var tag := all[|all| - TagBytes..];
    var body := all[..|all| - TagBytes];
    var ct := B64Enc(body);
    var ivText := B64Enc(iv);
    var tagText := B64Enc(tag);
    blob := CipherBlob(None, ct, ivText, tagText, meta);
  }

  /** `decryptEntry`: decode the fields, copy `body` then `tag` into one new buffer, open it and decode the text. */
  method DecryptEntry(aead: Aead, utf8: Utf8, blob: CipherBlob, key: CryptoKey) returns (r: Result<string, CryptoError>)
    ensures r == DecryptBlob(aead, utf8, blob, key)
  {
    var body := B64Dec(blob.ct);
    if body.None? {
      return Err(MalformedBase64);
    }
    var iv := B64Dec(blob.iv);
    if iv.None? {
      return Err(MalformedBase64);
    }
    var tag := B64Dec(blob.tag);
    if tag.None? {
      return Err(MalformedBase64);
    }
    var ct := Joined(body.value[..], tag.value[..]);
    assert DecryptBlob(aead, utf8, blob, key) == OpenText(aead, utf8, key, iv.value[..], ct[..]);
    var pt := aead.open(key.raw, iv.value[..], ct[..]);
    r := if pt.None? then Err(AuthenticationFailed) else Ok(utf8.decode(pt.value));
  }
}
