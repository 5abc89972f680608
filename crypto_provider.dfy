/**
 * The React context that holds the session key (frontend/src/crypto/CryptoProvider.tsx). The key
 * reference and the `isReady` flag are the provider's state; every operation that needs the key
 * throws "Key not set" before doing anything else when none is held.
 */
module CryptoProvider {
  import opened Wrappers
  import opened Buffers
  import opened Json
  import opened Primitives
  import opened FrontendCrypto

  /** What the provider's calls throw. */
  datatype ProviderError =
    | KeyNotSet
    | StoreFailed(status: nat)
    | ListFailed(status: nat)
    | PayloadNotObject
    | Crypto(error: CryptoError)

  /** The item store's answer to the POST of a blob: HTTP `ok`, status and the `id` of its JSON body. */
  datatype StoreResponse = StoreResponse(ok: bool, status: nat, id: string)

  /** The item store's answer to the list request. */
  datatype ListResponse = ListResponse(ok: bool, status: nat, payload: Json)

  /**
   * `Array.isArray(payload) ? payload : (payload.items ?? [])`: an array is kept as it is; otherwise its
   * `items` property unless that is absent or null; reading a property of `null` throws.
   */
  function UnwrapItems(payload: Json): (r: Result<Json, ProviderError>)
    ensures payload.Array? ==> r == Ok(payload)
    ensures payload.Object? && "items" in payload.fields && payload.fields["items"] != Null ==> r == Ok(payload.fields["items"])
    ensures payload.Object? && ("items" !in payload.fields || payload.fields["items"] == Null) ==> r == Ok(Array([]))
    ensures r.Err? <==> payload == Null
    ensures payload.Bool? || payload.Number? || payload.Str? ==> r == Ok(Array([]))
  {
    match payload
    case Array(_) => Ok(payload)
    case Null => Err(PayloadNotObject)
    case Object(fields) => if "items" in fields && fields["items"] != Null then Ok(fields["items"]) else Ok(Array([]))
    case _ => Ok(Array([]))
  }

  /** `listItems`: a failed response throws with its status; otherwise the payload is unwrapped. */
  function ListItems(resp: ListResponse): (r: Result<Json, ProviderError>)
    ensures !resp.ok ==> r == Err(ListFailed(resp.status))
    ensures resp.ok ==> r == UnwrapItems(resp.payload)
  {
    if !resp.ok then Err(ListFailed(resp.status)) else UnwrapItems(resp.payload)
  }

  /** The key holder. `key` is `keyRef.current`. */
  class Provider {
    var key: Option<CryptoKey>
    var isReady: bool

    /** `isReady` holds exactly when a key is held. */
    ghost predicate Valid()
      reads this
    {
      isReady <==> key.Some?
    }

    constructor ()
      ensures Valid() && key == None && !isReady
    {
      key := None;
      isReady := false;
    }

    /** `setMasterPassword`: derive, then store the key and set `isReady`; a failed derivation changes nothing. */
    method SetMasterPassword(sodium: Sodium, utf8: Utf8, username: string, password: string) returns (r: Result<(), ProviderError>)
      requires sodium.Valid() && Valid()
      modifies this
      ensures Valid()
      ensures DeriveKey(sodium, utf8, username, password).Ok? ==>
                r.Ok? && key == Some(DeriveKey(sodium, utf8, username, password).value) && isReady
      ensures DeriveKey(sodium, utf8, username, password).Err? ==>
                r == Err(Crypto(DeriveKey(sodium, utf8, username, password).error)) && key == old(key) && isReady == old(isReady)
    {
      var derived, _ := DeriveMasterKey(sodium, utf8, username, password);
      if derived.Err? {
        return Err(Crypto(derived.error));
      }
      key := Some(derived.value);
      isReady := true;
      r := Ok(());
    }

    /**
     * `encryptAndStore`: without a key it throws "Key not set" and posts nothing; otherwise it posts the
     * encrypted blob, which decrypts under the held key to the plaintext, and throws if the store answers
     * with a failure status.
     */
    method EncryptAndStore(aead: Aead, utf8: Utf8, plaintext: string, meta: Option<Meta>, iv: Bytes, resp: StoreResponse)
      returns (r: Result<string, ProviderError>, posted: Option<CipherBlob>)
      requires aead.Valid() && utf8.Valid()
      requires |iv| == NonceBytes
      ensures key.None? ==> r == Err(KeyNotSet) && posted == None
      ensures key.Some? ==> posted == Some(EncryptBlob(aead, utf8, plaintext, key.value, meta, iv))
      ensures key.Some? ==> DecryptBlob(aead, utf8, posted.value, key.value) == Ok(plaintext)
      ensures key.Some? ==> r == if resp.ok then Ok(resp.id) else Err(StoreFailed(resp.status))
    {
      if key.None? {
        return Err(KeyNotSet), None;
      }
      var blob := EncryptEntry(aead, utf8, plaintext, key.value, meta, iv);
      DecryptEncryptBlob(aead, utf8, plaintext, key.value, meta, iv);
      posted := Some(blob);
      if !resp.ok {
        return Err(StoreFailed(resp.status)), posted;
      }
      r := Ok(resp.id);
    }

    /** `decryptItem`: without a key it throws "Key not set"; otherwise it decrypts with the held key. */
    method DecryptItem(aead: Aead, utf8: Utf8, item: CipherBlob) returns (r: Result<string, ProviderError>)
      ensures key.None? ==> r == Err(KeyNotSet)
      ensures key.Some? ==> match DecryptBlob(aead, utf8, item, key.value)
                              case Ok(text) => r == Ok(text)
                              case Err(e) => r == Err(Crypto(e))
    {
      if key.None? {
        return Err(KeyNotSet);
      }
      var text := DecryptEntry(aead, utf8, item, key.value);
      r := if text.Ok? then Ok(text.value) else Err(Crypto(text.error));
    }

    /** `clearKey`: drop the key and clear `isReady`. */
    method ClearKey()
      modifies this
      ensures Valid() && key == None && !isReady
    {
      key := None;
      isReady := false;
    }
  }
}
