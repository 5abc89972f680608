# SecurityPass core, modelled in Dafny

This project models the core of SecurityPass, a password manager. It covers:

- **Crypto SDK** (`nk/sdk/src/crypto.ts`): Argon2id key derivation with a random or supplied salt, and AES-256-GCM entries. Each sealed output is split into a Base64 `ct` and a trailing 16-byte `tag`. The caller's plaintext buffer is zeroed after encryption.
- **Browser crypto module** (`frontend/src/crypto/crypto.ts`): the salt is a BLAKE2b hash of the username, and the password buffer is wiped in `finally`. Base64 goes through byte/binary-string loops around `btoa`/`atob`.
- **Key-holding provider** (`frontend/src/crypto/CryptoProvider.tsx`): holds the session key. Every call that needs the key refuses with "Key not set" when none is held.
- **Password generator** (`frontend/src/components/PasswordGenerator.tsx`): selects character pools, clamps the length, draws characters and shuffles them with Fisher-Yates.
- **Local vault panel** (`frontend/src/components/VaultPanel.tsx`): validates, prepends and marks entries as synced.
- **Mock item store** (`nk/api/dist/server.js`): a schema check plus an in-memory `Map` served by POST, list, GET and DELETE.
- **Pages and shell**: the login page with its three-attempt limit, the registration page's guard chain, and the app shell's login → MFA → dashboard screen machine.

Each core file keeps its own form:

- Code that updates state step by step becomes classes and methods. These cover the provider, the generator, the panel, the store, the forms and the shell.
- Buffers written in place become `array<byte>`, with zeroing loops and `set`.
- Pure expressions become functions. Each method is proved against such a function, and the source's promises are proved as lemmas about those functions.

Foreign primitives are function values bundled in datatypes: AES-GCM, `crypto_pwhash`, `crypto_generichash` and `TextEncoder`/`TextDecoder`. Each bundle's `Valid()` predicate states the only facts assumed of them:

- the sealed output is 16 bytes longer than the plaintext;
- opening a sealed output with the same key and nonce gives the plaintext back;
- the hash output lengths are as requested;
- decoding undoes encoding;
- `pwhash` throws unless the salt has 16 bytes (libsodium's salt-length check).

Wrong-key rejection is a hypothesis about one pair of keys, `Aead.Rejects(key, bad)`. It cannot be stated for all pairs: a 16-byte tag cannot separate unboundedly many keys.

Base64 is an RFC 4648 section 4 codec with padding, and it comes with the proved round trip `Decode(Encode(b)) == Some(b)`. Randomness, clocks, generated ids and network replies are parameters:

- a nonce or salt is passed in;
- the n-th random word is `entropy(n)`;
- the clock is `now` and `createdAt`;
- a `fetch` result is an `Http.Reply`.

## Model

| member | source | states |
|---|---|---|
| Base64.Encode | nk/sdk/src/crypto.ts:88 | Encoding produces four characters for every started group of three bytes. |
| Base64.Decode | nk/sdk/src/crypto.ts:89 | Only input made of whole four-character groups decodes. |
| Base64.DecodeEncode | nk/sdk/src/crypto.ts:88-89 | `ub64(b64(u)) == u` for every byte string `u`. |
| Buffers.FillZero | nk/sdk/src/crypto.ts:59 | `fill(0)` over a range zeroes exactly that range and leaves every other byte as it was. |
| Buffers.Set | nk/sdk/src/crypto.ts:71-72 | `set(src, offset)` writes `src` at `offset` and leaves the bytes before and after it unchanged. |
| Buffers.Joined | nk/sdk/src/crypto.ts:70-72 | A new buffer of length `|ct| + |tag|` filled by two `set` calls holds exactly `ct` followed by `tag`. |
| Primitives.SplitTag | nk/sdk/src/crypto.ts:57-58 | The tag is the last 16 bytes, and `ct ++ tag` is the sealed output. |
| SdkCrypto.DeriveMasterKey | nk/sdk/src/crypto.ts:24-39 | A derived key has 32 bytes and a 16-byte salt. The salt is `params.salt` when given, otherwise the fresh random salt. A given salt of the wrong length fails. |
| SdkCrypto.ReDeriveFromStoredSalt | nk/sdk/src/crypto.ts:29-38 | Passing the Base64 salt kept in `meta` back as `params.salt` derives the same key and salt again. |
| SdkCrypto.Encrypt | nk/sdk/src/crypto.ts:41-61 | Encryption succeeds exactly for an AES key length. The item carries `meta` unchanged, the `iv` decodes to the 12-byte nonce, and the `tag` decodes to 16 bytes. The decoded `ct` followed by the decoded `tag` is exactly the AEAD output for the key, nonce and plaintext. |
| SdkCrypto.Decrypt | nk/sdk/src/crypto.ts:63-83 | A field that is not Base64 fails. Success means the key length is valid and the AEAD opened `ct` followed by `tag` to the result. |
| SdkCrypto.DecryptEncrypt | nk/sdk/tests/crypto.test.ts:8-15 | Decrypting an encrypted entry with the same key gives back the original plaintext. |
| SdkCrypto.WrongKeyFails | nk/sdk/tests/crypto.test.ts:17-23 | Decrypting under a key the tag check rejects fails instead of returning plaintext. |
| SdkCrypto.EncryptEntry | nk/sdk/src/crypto.ts:41-61 | The result is `Encrypt` of the buffer's bytes before the call. On success every byte of the buffer is 0. An invalid key leaves the buffer untouched. |
| SdkCrypto.DecryptEntry | nk/sdk/src/crypto.ts:63-83 | Copying `ct` and then `tag` into one new buffer and opening it yields exactly `Decrypt`. |
| SdkCrypto.Zeroize | nk/sdk/src/crypto.ts:85-87 | Every present buffer is all zeros afterwards. Absent ones are skipped. |
| SdkCrypto.RoundTrip | nk/sdk/tests/crypto.test.ts:8-15 | Derive, encrypt, then decrypt returns the bytes the buffer held before encryption, although the buffer itself is zeroed. |
| FrontendCrypto.Btoa | frontend/src/crypto/crypto.ts:13 | `btoa` of a binary string gives four characters per started group of three, and `atob` of the result gives the string back. |
| FrontendCrypto.Atob | frontend/src/crypto/crypto.ts:16 | `atob` succeeds exactly on strict RFC 4648 padded Base64 and yields a binary string whose i-th character code is the i-th decoded byte. |
| FrontendCrypto.B64Enc | frontend/src/crypto/crypto.ts:12-14 | The `fromCharCode` loop followed by `btoa` is the Base64 of the buffer. |
| FrontendCrypto.B64Dec | frontend/src/crypto/crypto.ts:15-17 | `atob` followed by the `charCodeAt` loop fills a new array with exactly the decoded bytes, and fails where `atob` throws. |
| FrontendCrypto.B64RoundTrip | frontend/src/crypto/crypto.ts:12-17 | `b64dec(b64enc(buf))` has the same bytes as `buf`. |
| FrontendCrypto.Zeroize | frontend/src/crypto/crypto.ts:19-21 | The bytes `[byteOffset, byteOffset + byteLength)` become 0 and all others keep their values. A missing view changes nothing. |
| FrontendCrypto.UserSalt | frontend/src/crypto/crypto.ts:26 | The salt has 16 bytes and is a function of the username alone. |
| FrontendCrypto.DeriveKey | frontend/src/crypto/crypto.ts:24-37 | The key is 32 raw bytes from Argon2id13 at the moderate preset. |
| FrontendCrypto.DeriveMasterKey | frontend/src/crypto/crypto.ts:24-37 | The result is `DeriveKey`, and the encoded password buffer is all zeros whether derivation succeeds or fails. |
| FrontendCrypto.EncryptBlob | frontend/src/crypto/crypto.ts:39-47 | The blob has no `id` and carries `meta` unchanged. Its `iv` decodes to the 12-byte nonce and its `tag` to 16 bytes. The decoded `ct` followed by the decoded `tag` is exactly the AEAD output for the key, nonce and UTF-8 plaintext. |
| FrontendCrypto.DecryptBlob | frontend/src/crypto/crypto.ts:49-57 | A field that is not Base64 fails. Success means the AEAD opened `body` followed by `tag` to bytes whose UTF-8 decoding is the result. |
| FrontendCrypto.DecryptEncryptBlob | frontend/src/crypto/crypto.ts:39-57 | Decrypting an encrypted blob with the same key gives back the plaintext string. |
| FrontendCrypto.WrongKeyFailsBlob | frontend/src/crypto/crypto.ts:49-57 | Decrypting under a rejected key fails with an authentication error. |
| FrontendCrypto.EncryptEntry | frontend/src/crypto/crypto.ts:39-47 | Slicing off the last 16 bytes as `tag` and the rest as `body`, then Base64-encoding each, yields exactly `EncryptBlob`. |
| FrontendCrypto.DecryptEntry | frontend/src/crypto/crypto.ts:49-57 | Decoding, then `set(body, 0)` and `set(tag, body.length)`, then opening and decoding yields exactly `DecryptBlob`. |
| CryptoProvider.UnwrapItems | frontend/src/crypto/CryptoProvider.tsx:43 | An array payload is returned as is. An object gives its `items`, or `[]` when that is absent or null. A `null` payload throws. |
| CryptoProvider.ListItems | frontend/src/crypto/CryptoProvider.tsx:38-44 | A failed response throws with its status; otherwise the payload is unwrapped. |
| CryptoProvider.Provider.constructor | frontend/src/crypto/CryptoProvider.tsx:17-18 | The provider starts with no key and `isReady` false. |
| CryptoProvider.Provider.SetMasterPassword | frontend/src/crypto/CryptoProvider.tsx:22-25 | On success the derived key is held and `isReady` is set. A failed derivation leaves the state unchanged. `isReady` holds exactly when a key is held. |
| CryptoProvider.Provider.EncryptAndStore | frontend/src/crypto/CryptoProvider.tsx:26-37 | Without a key it throws "Key not set" and posts nothing. Otherwise it posts a blob that decrypts to the plaintext under the held key, and throws when the store answers not ok. |
| CryptoProvider.Provider.DecryptItem | frontend/src/crypto/CryptoProvider.tsx:45-48 | Without a key it throws "Key not set"; otherwise the result is `DecryptBlob` under the held key. |
| CryptoProvider.Provider.ClearKey | frontend/src/crypto/CryptoProvider.tsx:49-52 | The key is dropped and `isReady` is false. |
| PasswordGenerator.GetRandomInt | frontend/src/components/PasswordGenerator.tsx:18-25 | The result lies in `[0, max)` for `max > 0`. |
| PasswordGenerator.SelectedPools | frontend/src/components/PasswordGenerator.tsx:62-67 | There are at most four pools, each non-empty, and a pool is present exactly when its option is on. The list is empty exactly when no class is selected. |
| PasswordGenerator.EffectiveLength | frontend/src/components/PasswordGenerator.tsx:75 | The length is `min(max(n, 4), 64)`: in range it is kept, below 4 it becomes 4, above 64 it becomes 64. |
| PasswordGenerator.Concat | frontend/src/components/PasswordGenerator.tsx:76 | A character is in `pools.join("")` exactly when it is in one of the pools. |
| PasswordGenerator.Drawn | frontend/src/components/PasswordGenerator.tsx:78-88 | The characters drawn before the shuffle number exactly the effective length. |
| PasswordGenerator.DrawnFromUnion | frontend/src/components/PasswordGenerator.tsx:76-88 | Every drawn character belongs to the union of the selected pools. |
| PasswordGenerator.DrawnCoversPools | frontend/src/components/PasswordGenerator.tsx:80-83 | The k-th drawn character comes from the k-th pool. |
| PasswordGenerator.PermutationOfDrawn | frontend/src/components/PasswordGenerator.tsx:90 | Any permutation of the drawn characters uses only union characters and contains at least one character from every pool. |
| PasswordGenerator.DrawChars | frontend/src/components/PasswordGenerator.tsx:78-88 | The for-loop over pools and the filling while-loop produce exactly `Drawn`. |
| PasswordGenerator.Shuffle | frontend/src/components/PasswordGenerator.tsx:27-33 | The in-place Fisher-Yates keeps the multiset of the array and uses one random word per index from the last down to 1. |
| PasswordGenerator.ShuffledCopy | frontend/src/components/PasswordGenerator.tsx:90 | The shuffled result is a permutation of the drawn characters with the same length. |
| PasswordGenerator.Generator.constructor | frontend/src/components/PasswordGenerator.tsx:36-45 | The defaults are length 16 with lower, upper and numbers on and symbols off, and an empty password and error. |
| PasswordGenerator.Generator.Generate | frontend/src/components/PasswordGenerator.tsx:60-92 | With no class selected: the error "Pick at least one character type." and an empty password. Otherwise: a password of the effective length, a permutation of the drawn characters, taken from the union and containing every selected pool. |
| PasswordGenerator.Generator.SaveToVault | frontend/src/components/PasswordGenerator.tsx:103-119 | An empty password does nothing. Otherwise it calls `encryptAndStore` with the "generated" metadata, including its "Key not set" refusal. |
| VaultPanel.Acceptable | frontend/src/components/VaultPanel.tsx:58-60 | The form is accepted exactly when none of the three fields is entirely white space. |
| VaultPanel.NewId | frontend/src/components/VaultPanel.tsx:62 | The id is the trimmed label, a hyphen, then the decimal timestamp. |
| VaultPanel.NewIdInjective | frontend/src/components/VaultPanel.tsx:62 | Equal ids imply the same trimmed label and the same millisecond. |
| VaultPanel.NewCredential | frontend/src/components/VaultPanel.tsx:62-71 | The new entry stores the trimmed label and username, the password exactly as typed, and no `synced` flag. |
| VaultPanel.MarkSynced | frontend/src/components/VaultPanel.tsx:83-92 | Entries whose id matches get `synced = true`, all others are unchanged, and the length is kept. |
| VaultPanel.MarkSyncedIdempotent | frontend/src/components/VaultPanel.tsx:83-92 | Marking twice is the same as marking once. |
| VaultPanel.MarkSyncedPrependFresh | frontend/src/components/VaultPanel.tsx:77-92 | When no older entry shares the new id, only the prepended entry is marked. |
| VaultPanel.Panel.constructor | frontend/src/components/VaultPanel.tsx:23-27 | The form fields start empty, the list is empty, and nothing is saving. |
| VaultPanel.Panel.Load | frontend/src/components/VaultPanel.tsx:30-42 | Stored data replaces the list only when it parses to an array. |
| VaultPanel.Panel.HandleAdd | frontend/src/components/VaultPanel.tsx:56-105 | A blank field changes nothing. Otherwise the new entry is prepended, `onCloudSave` gets its id, username and password, and the entry is marked synced only if the save resolves. A rejected save leaves the list as it was right after the prepend. The form is then cleared. |
| VaultPanel.Panel.Add | frontend/src/components/VaultPanel.tsx:73-104 | This is the accepted branch: prepend, an optional cloud call, mark synced on success, clear the form, and end with `isSaving` false. |
| VaultApi.Parse | nk/api/dist/server.js:10-16 | The schema accepts exactly an object with non-empty string `ct`, `iv` and `tag`, an optional UUID-shaped `id` and an optional object `meta`. The parsed fields equal the body's. |
| VaultApi.Stored | nk/api/dist/server.js:26-27 | The stored item's id is the supplied one, or the fresh one when none was supplied. Every other field is the parsed field. |
| VaultApi.Removed | nk/api/dist/server.js:38 | Removing keeps exactly the other keys. |
| VaultApi.RemovedIdempotent | nk/api/dist/server.js:37-40 | A second DELETE of the same id changes nothing. |
| VaultApi.Store.constructor | nk/api/dist/server.js:17 | The store starts empty. |
| VaultApi.Store.Post | nk/api/dist/server.js:22-30 | A failed schema check gives 400 and leaves `db` unchanged. Otherwise it gives 201 and `db.set(id, item)`: an existing key is overwritten in place, a new key is appended, and no other key changes. |
| VaultApi.Store.List | nk/api/dist/server.js:19-21 | It returns every stored item exactly once, in insertion order, and nothing else. |
| VaultApi.Store.Get | nk/api/dist/server.js:31-36 | It returns 200 with exactly the stored item, or 404 when the id is absent. |
| VaultApi.Store.Delete | nk/api/dist/server.js:37-40 | Only that id is removed, the order of the rest is kept, and the answer is always 204. |
| Login.ServerMessage | frontend/src/pages/Login.tsx:47-48 | The server's `message` wins over its `error`, and `error` is shown when `message` is falsy. Only a non-empty string from an object body is shown. |
| Login.Submit | frontend/src/pages/Login.tsx:22-85 | At the limit: the limit message, and nothing sent. Otherwise: only a falsy `success` adds 1 to the count, and reaching 3 shows the limit message. A truthy `success` reports the password as ok. HTTP errors and network errors leave the count alone and show their own messages. An ok response with a `null` body shows the network message, because reading `data.success` throws. |
| Login.AttemptsStayBounded | frontend/src/pages/Login.tsx:19-29 | Over any series of submits the count never decreases and never exceeds 3. |
| Login.LockedOut | frontend/src/pages/Login.tsx:26-29 | Once at 3, no later reply gets a password accepted. |
| Login.AttemptsAfterAppend | frontend/src/pages/Login.tsx:66-68 | The count after one more submit is one more step of `Submit`. |
| Login.ThreeRejectionsLock | frontend/src/pages/Login.tsx:66-76 | Three rejections from a fresh page reach the limit, and the third shows the limit message. |
| Login.LoginForm.constructor | frontend/src/pages/Login.tsx:18-20 | The form starts with no attempts, no error, and not loading. |
| Login.LoginForm.HandleSubmit | frontend/src/pages/Login.tsx:22-85 | The new state is the one `Submit` describes. At the limit nothing is sent. On success `onPasswordOk(true, username)` is called. The count stays within `[old, 3]`. |
| Register.Validate | frontend/src/pages/Register.tsx:25-38 | The checks run in order: an empty field, then a mismatch, then fewer than 8 UTF-16 units. The form passes exactly when all three checks pass. |
| Register.Answer | frontend/src/pages/Register.tsx:51-67 | Registration succeeds exactly on an ok response with a truthy `success`. A `null` body or a network failure shows the network message. Otherwise the page shows the server message or the status text. |
| Register.BasicPlaneLength | frontend/src/pages/Register.tsx:35 | On the Basic Multilingual Plane the length check counts characters. |
| Register.AstralLength | frontend/src/pages/Register.tsx:35 | Beyond U+FFFF each character counts twice. |
| Register.RegisterForm.constructor | frontend/src/pages/Register.tsx:18-19 | The form starts with no error and not loading. |
| Register.RegisterForm.HandleSubmit | frontend/src/pages/Register.tsx:21-69 | A form that fails a check sends nothing and shows that check's message. Otherwise the request is sent, and `onRegistered(username)` is called exactly when `Answer` succeeds. |
| App.Shell.constructor | frontend/src/App.tsx:11-13 | The shell starts on the login screen with an empty user and MFA off. |
| App.Shell.HandlePasswordOk | frontend/src/App.tsx:15-25 | It sets the user and the MFA flag, then shows the MFA screen when MFA is on and the dashboard otherwise. |
| App.Shell.HandleMfaOk | frontend/src/App.tsx:27-30 | MFA is on, the dashboard is shown, and the user is unchanged. |
| App.Shell.SubmitLogin | frontend/src/App.tsx:15-34 | A login submit never leads straight to the dashboard. The MFA screen follows exactly when the password was accepted. |

## Left out

- AES-GCM, Argon2id, BLAKE2b and UTF-8 are not modelled internally. They are function values that obey only the stated axioms. Wrong-key rejection is assumed per key pair, because no 16-byte tag separates all keys.
- Randomness: `randomBytes`, `getRandomValues` and the generated UUID are inputs. Nonce uniqueness and salt collisions are probabilistic claims outside the model.
- PasswordGenerator.GetRandomInt: the `Math.random` fallback (a float) is not modelled, because the model takes the branch where `crypto.getRandomValues` exists. The modulo bias of `word % max` is not a stated property.
- PasswordGenerator.EffectiveLength: the requested length is an integer. A fractional or NaN length, which `Math.min`/`Math.max` would pass through to the loop bound, is not modelled.
- FrontendCrypto.Atob is strict RFC 4648 with padding. A browser's forgiving `atob` first removes ASCII white space and accepts input whose trailing `=` padding is missing (`atob("QQ")` is `"A"`). On such input the model reports `MalformedBase64` where the browser decodes. FrontendCrypto.B64Dec, FrontendCrypto.DecryptBlob, FrontendCrypto.DecryptEntry and CryptoProvider.Provider.DecryptItem inherit this.
- Base64.Decode is strict RFC 4648 with padding. Node's lenient `Buffer.from(s, "base64")`, which skips bad characters and accepts missing padding, is not mirrored. On such input the model reports an error where Node would return some bytes.
- Async sequencing, `fetch` plumbing, express/cors/morgan setup and `app.listen` are not modelled. A reply is a value, and the handlers run to completion one at a time.
- VaultApi.IsUuid checks only the 8-4-4-4-12 hexadecimal shape. The version and variant checks that some zod releases add are not modelled.
- JSON numbers are integers in this model.
- Strings are sequences of Unicode scalar values. A JS string holding an unpaired surrogate cannot be represented. On such a string `TextEncoder` substitutes U+FFFD, so the encrypt/decrypt round trip (FrontendCrypto.DecryptEncryptBlob, `Utf8.Valid`) does not hold for it, and Register's UTF-16 length is not modelled for it.
- Login.ServerMessage, Login.Submit and Register.Answer show only string messages. A truthy `message` or `error` that is not a string is treated as absent, so the fallback text is shown where React would render the value.
- VaultPanel.Panel.Load: `JSON.parse` and `localStorage` are inputs, and array elements are taken as credentials without the per-field check the source also omits. The persist-on-change effect (`localStorage.setItem`) is not modelled.
- `Date.now()` and `new Date().toISOString()` are the parameters `now` and `createdAt`. `alert` and the clipboard are not modelled.
- React's state batching and stale closures are not modelled. Each handler reads the state as it was when the handler started.
- The MFA page (MFAVerify.tsx), both saveCredential.ts files and the display-only components are not part of this model. nk/sdk/dist/crypto.js is the compiled form of nk/sdk/src/crypto.ts and is modelled once, through the latter.
- Best-effort zeroization under garbage collection and timing side channels cannot be expressed here.
