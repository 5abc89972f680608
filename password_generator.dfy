/**
 * The password generator component (frontend/src/components/PasswordGenerator.tsx): pick the
 * selected character pools, clamp the length to [4, 64], draw one character from each pool and fill
 * the rest from their union, then Fisher-Yates shuffle in place. Randomness is an oracle: the n-th
 * `getRandomValues` word drawn is `entropy(n)`.
 */
module PasswordGenerator {
  import opened Wrappers
  import opened Buffers
  import opened Json
  import opened Primitives
  import opened FrontendCrypto
  import opened CryptoProvider

  const Lower := "abcdefghijklmnopqrstuvwxyz"
  const Upper := "ABCDEFGHIJKLMNOPQRSTUVWXYZ"
  const Numbers := "0123456789"
  const Symbols := "!@#$%^&*()-_=+[]{};:,.<>?"
  const MinLength := 4
  const MaxLength := 64
  const NoClassError := "Pick at least one character type."

  /** A word written by `crypto.getRandomValues` into a `Uint32Array`. */
  type Uint32 = x: int | 0 <= x < 0x1_0000_0000

  /** The form's options: requested length and the four character classes. */
  datatype Options = Options(length: int, useLower: bool, useUpper: bool, useNumbers: bool, useSymbols: bool)

  /** `getRandomInt(max)` on the crypto path: the random word modulo `max`. */
  function GetRandomInt(word: Uint32, max: nat): (r: nat)
    requires max > 0
    ensures r < max
    ensures max == 0x1_0000_0000 ==> r == word
  {
    word % max
  }

  /** The pools pushed for the selected classes, in the order lower, upper, numbers, symbols. */
  function SelectedPools(o: Options): (pools: seq<string>)
    ensures |pools| <= 4
    ensures forall p :: p in pools ==> |p| > 0
    ensures (Lower in pools <==> o.useLower) && (Upper in pools <==> o.useUpper)
    ensures (Numbers in pools <==> o.useNumbers) && (Symbols in pools <==> o.useSymbols)
    ensures pools == [] <==> !o.useLower && !o.useUpper && !o.useNumbers && !o.useSymbols
  {
    (if o.useLower then [Lower] else []) + (if o.useUpper then [Upper] else [])
    + (if o.useNumbers then [Numbers] else []) + (if o.useSymbols then [Symbols] else [])
  }

  /** `Math.min(Math.max(length, 4), 64)`. */
  function EffectiveLength(requested: int): (n: nat)
    ensures MinLength <= n <= MaxLength
    ensures MinLength <= requested <= MaxLength ==> n == requested
    ensures requested < MinLength ==> n == MinLength
    ensures requested > MaxLength ==> n == MaxLength
  {
    var atLeast := if requested > MinLength then requested else MinLength;
    if atLeast < MaxLength then atLeast else MaxLength
  }

  /** `pools.join("")`: a character is in the result exactly when it is in one of the pools. */
  function Concat(pools: seq<string>): (all: string)
    ensures forall k, c :: 0 <= k < |pools| && c in pools[k] ==> c in all
    ensures forall c :: c in all ==> exists k :: 0 <= k < |pools| && c in pools[k]
    ensures (exists k :: 0 <= k < |pools| && |pools[k]| > 0) ==> |all| > 0
  {
    if pools == [] then "" else pools[0] + Concat(pools[1..])
  }

  /**
   * The characters drawn before the shuffle: one from each pool with the first `|pools|` random words,
   * then one from the union per further word until there are `length`.
   */
  function Drawn(pools: seq<string>, length: nat, entropy: nat -> Uint32): (s: string)
    requires 0 < |pools| <= length
    requires forall p :: p in pools ==> |p| > 0
    ensures |s| == length
  {
    var all := Concat(pools);
    assert |pools[0]| > 0;
    seq(|pools|, k requires 0 <= k < |pools| => pools[k][GetRandomInt(entropy(k), |pools[k]|)])
    + seq(length - |pools|, j requires 0 <= j < length - |pools| => all[GetRandomInt(entropy(|pools| + j), |all|)])
  }

  /** Every drawn character belongs to the union of the selected pools. */
  lemma DrawnFromUnion(pools: seq<string>, length: nat, entropy: nat -> Uint32)
    requires 0 < |pools| <= length
    requires forall p :: p in pools ==> |p| > 0
    ensures forall i :: 0 <= i < length ==> Drawn(pools, length, entropy)[i] in Concat(pools)
  {
    var s := Drawn(pools, length, entropy);
    var all := Concat(pools);
    forall i | 0 <= i < length
      ensures s[i] in all
    {
      if i < |pools| {
        DrawnAt(pools, length, entropy, i);
        assert s[i] in pools[i];
      } else {
        assert s[i] == all[GetRandomInt(entropy(i), |all|)];
      }
    }
  }

  /** The `k`-th drawn character is the one picked from the `k`-th pool. */
  lemma DrawnAt(pools: seq<string>, length: nat, entropy: nat -> Uint32, k: nat)
    requires 0 < |pools| <= length
    requires forall p :: p in pools ==> |p| > 0
    requires k < |pools|
    ensures Drawn(pools, length, entropy)[k] in pools[k]
  {
    assert |pools[k]| > 0;
    assert Drawn(pools, length, entropy)[k] == pools[k][GetRandomInt(entropy(k), |pools[k]|)];
  }

  /** Every selected pool contributes at least one drawn character. */
  lemma DrawnCoversPools(pools: seq<string>, length: nat, entropy: nat -> Uint32)
    requires 0 < |pools| <= length
    requires forall p :: p in pools ==> |p| > 0
    ensures forall k :: 0 <= k < |pools| ==> Drawn(pools, length, entropy)[k] in pools[k]
  {
    forall k | 0 <= k < |pools|
      ensures Drawn(pools, length, entropy)[k] in pools[k]
    {
      DrawnAt(pools, length, entropy, k);
    }
  }

  /** A permutation of the drawn characters keeps both guarantees: from the union, and every pool present. */
  lemma PermutationOfDrawn(pools: seq<string>, length: nat, entropy: nat -> Uint32, password: string)
    requires 0 < |pools| <= length
    requires forall p :: p in pools ==> |p| > 0
    requires multiset(password) == multiset(Drawn(pools, length, entropy))
    ensures forall i :: 0 <= i < |password| ==> password[i] in Concat(pools)
    ensures forall p :: p in pools ==> exists i :: 0 <= i < |password| && password[i] in p
  {
    var drawn := Drawn(pools, length, entropy);
    DrawnFromUnion(pools, length, entropy);
    DrawnCoversPools(pools, length, entropy);
    forall i | 0 <= i < |password|
      ensures password[i] in Concat(pools)
    {
      assert password[i] in multiset(drawn);
    }
    forall p | p in pools
      ensures exists i :: 0 <= i < |password| && password[i] in p
    {
      var k :| 0 <= k < |pools| && pools[k] == p;
      assert drawn[k] in multiset(password);
      var i :| 0 <= i < |password| && password[i] == drawn[k];
    }
  }

  /**
   * The drawing loops of `generate`: one character from each pool in turn, then characters from the
   * union until there are `length`.
   */
  method DrawChars(pools: seq<string>, length: nat, entropy: nat -> Uint32) returns (chars: seq<char>)
    requires 0 < |pools| <= length
    requires forall p :: p in pools ==> |p| > 0
    ensures chars == Drawn(pools, length, entropy)
  {
    var allChars := Concat(pools);
    ghost var drawn := Drawn(pools, length, entropy);
    chars := [];
    var draw := 0;
    for k := 0 to |pools|
      invariant draw == k && chars == drawn[..k]
    {
      var pool := pools[k];
      chars := chars + [pool[GetRandomInt(entropy(draw), |pool|)]];
      draw := draw + 1;
    }
    while |chars| < length
      invariant |pools| <= |chars| <= length
      invariant draw == |chars| && chars == drawn[..|chars|]
      decreases length - |chars|
    {
      chars := chars + [allChars[GetRandomInt(entropy(draw), |allChars|)]];
      draw := draw + 1;
    }
    assert chars == drawn;
  }

  /** `shuffle(chars)`: Fisher-Yates from the last index down, swapping with a random earlier-or-equal one. */
  method Shuffle(chars: array<char>, entropy: nat -> Uint32, draw: nat) returns (next: nat)
    modifies chars
    ensures multiset(chars[..]) == multiset(old(chars[..]))
    ensures next == draw + if chars.Length > 1 then chars.Length - 1 else 0
  {
    next := draw;
    var i := chars.Length - 1;
    while i > 0
      invariant -1 <= i < chars.Length && (chars.Length > 0 ==> i >= 0)
      invariant multiset(chars[..]) == multiset(old(chars[..]))
      invariant next == draw + (chars.Length - 1 - i)
      decreases i
    {
      var j := GetRandomInt(entropy(next), i + 1);
      chars[i], chars[j] := chars[j], chars[i];
      next := next + 1;
      i := i - 1;
    }
  }

  /** Shuffles a copy of `chars` in a fresh array, as `generate` does with its character list. */
  method ShuffledCopy(chars: seq<char>, entropy: nat -> Uint32, draw: nat) returns (r: seq<char>)
    ensures multiset(r) == multiset(chars) && |r| == |chars|
  {
    var a := new char[|chars|](i requires 0 <= i < |chars| => chars[i]);
    assert a[..] == chars;
    var _ := Shuffle(a, entropy, draw);
    r := a[..];
    assert |r| == |multiset(r)| == |multiset(chars)| == |chars|;
  }

  /** The metadata `saveToVault` stores with a generated password. */
  function SaveMeta(o: Options, createdAt: string): Meta
  {
    map["label" := Str("generated"), "createdAt" := Str(createdAt), "length" := Number(o.length),
        "lower" := Bool(o.useLower), "upper" := Bool(o.useUpper), "numbers" := Bool(o.useNumbers),
        "symbols" := Bool(o.useSymbols)]
  }

  /** The component's state. */
  class Generator {
    var options: Options
    var password: string
    var error: string

    constructor ()
      ensures options == Options(16, true, true, true, false) && password == "" && error == ""
    {
      options := Options(16, true, true, true, false);
      password := "";
      error := "";
    }

    /**
     * `generate`: with no class selected, the error and an empty password; otherwise a password of the
     * effective length that is a permutation of the drawn characters, so drawn from the union of the
     * selected pools and holding at least one character of each.
     */
    method Generate(entropy: nat -> Uint32)
      modifies this`password, this`error
      ensures SelectedPools(options) == [] ==> error == NoClassError && password == ""
      ensures var pools := SelectedPools(options);
        pools != [] ==>
          && error == "" && |password| == EffectiveLength(options.length)
          && multiset(password) == multiset(Drawn(pools, EffectiveLength(options.length), entropy))
          && (forall i :: 0 <= i < |password| ==> password[i] in Concat(pools))
          && (forall p :: p in pools ==> exists i :: 0 <= i < |password| && password[i] in p)
    {
      var o := options;
      var pools := SelectedPools(o);
      if |pools| == 0 {
        error := NoClassError;
        password := "";
        return;
      }
      var length := EffectiveLength(o.length);
      var chars := DrawChars(pools, length, entropy);
      var pw := ShuffledCopy(chars, entropy, length);
      PermutationOfDrawn(pools, length, entropy, pw);
      error := "";
      password := pw;
    }

    /**
     * `saveToVault`: an empty password does nothing; otherwise the password goes to `encryptAndStore`
     * with the "generated" metadata.
     */
    method SaveToVault(provider: Provider, aead: Aead, utf8: Utf8, createdAt: string, iv: Bytes, resp: StoreResponse)
      returns (saved: Option<Result<string, ProviderError>>, posted: Option<CipherBlob>)
      requires aead.Valid() && utf8.Valid() && |iv| == NonceBytes
      ensures password == "" ==> saved == None && posted == None
      ensures password != "" && provider.key.None? ==> saved == Some(Err(KeyNotSet)) && posted == None
      ensures password != "" && provider.key.Some? ==>
                && posted == Some(EncryptBlob(aead, utf8, password, provider.key.value, Some(SaveMeta(options, createdAt)), iv))
                && DecryptBlob(aead, utf8, posted.value, provider.key.value) == Ok(password)
                && saved == Some(if resp.ok then Ok(resp.id) else Err(StoreFailed(resp.status)))
    {
      if password == "" {
        return None, None;
      }
      var r;
      r, posted := provider.EncryptAndStore(aead, utf8, password, Some(SaveMeta(options, createdAt)), iv, resp);
      saved := Some(r);
    }
  }
}
