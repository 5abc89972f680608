/** The JavaScript string operations the UI code relies on: `trim`, `length`, `${n}` and `a || b`. */
module Text {
  import opened Wrappers

  /** WhiteSpace and LineTerminator code points, the set `String.prototype.trim` strips. */
  predicate IsWhiteSpace(c: char)
  {
    var n := c as int;
    n == 0x09 || n == 0x0A || n == 0x0B || n == 0x0C || n == 0x0D || n == 0x20 || n == 0xA0
    || n == 0x1680 || (0x2000 <= n <= 0x200A) || n == 0x2028 || n == 0x2029 || n == 0x202F
    || n == 0x205F || n == 0x3000 || n == 0xFEFF
  }

  predicate AllWhiteSpace(s: string)
  {
    forall i :: 0 <= i < |s| ==> IsWhiteSpace(s[i])
  }

  /** `r` is `s` with some white-space prefix and some white-space suffix removed. */
  ghost predicate Strips(s: string, r: string)
  {
    exists i :: StripsAt(s, r, i)
  }

  /** `r` occurs in `s` at offset `i`, with only white space before and after it. */
  ghost predicate StripsAt(s: string, r: string, i: int)
  {
    0 <= i <= |s| - |r| && s[i..i + |r|] == r && AllWhiteSpace(s[..i]) && AllWhiteSpace(s[i + |r|..])
  }

  function TrimStart(s: string): (r: string)
    ensures |r| <= |s| && r == s[|s| - |r|..]
    ensures AllWhiteSpace(s[..|s| - |r|])
    ensures r != "" ==> !IsWhiteSpace(r[0])
  {
    if |s| > 0 && IsWhiteSpace(s[0]) then TrimStart(s[1..]) else s
  }

  function TrimEnd(s: string): (r: string)
    ensures |r| <= |s| && r == s[..|r|]
    ensures AllWhiteSpace(s[|r|..])
    ensures r != "" ==> !IsWhiteSpace(r[|r| - 1])
  {
    if |s| > 0 && IsWhiteSpace(s[|s| - 1]) then TrimEnd(s[..|s| - 1]) else s
  }

  /** `s.trim()`: the longest infix of `s` that neither starts nor ends with white space. */
  function Trim(s: string): (r: string)
    ensures Strips(s, r)
    ensures r != "" ==> !IsWhiteSpace(r[0]) && !IsWhiteSpace(r[|r| - 1])
    ensures r == "" <==> AllWhiteSpace(s)
  {
    var t := TrimStart(s);
    var r := TrimEnd(t);
    StripBothEnds(s, t, r);
    r
  }

  /**
   * When `t` is `s` without a white-space prefix and `t` does not start with white space, and `r` is
   * `t` without a white-space suffix, then `r` sits in `s` with only white space around it, and it is
   * empty exactly when `s` is all white space.
   */
  lemma StripBothEnds(s: string, t: string, r: string)
    requires |t| <= |s| && t == s[|s| - |t|..] && AllWhiteSpace(s[..|s| - |t|])
    requires t != "" ==> !IsWhiteSpace(t[0])
    requires |r| <= |t| && r == t[..|r|] && AllWhiteSpace(t[|r|..])
    ensures StripsAt(s, r, |s| - |t|)
    ensures r == "" <==> AllWhiteSpace(s)
  {
    var i := |s| - |t|;
    assert s[i..i + |r|] == r;
    assert s[i + |r|..] == t[|r|..];
    if r == "" {
      assert t[|r|..] == t;
      assert s == s[..i] + t;
    } else {
      assert s[i] == r[0];
    }
  }

  function Digit(d: nat): (c: char)
    requires d < 10
    ensures '0' <= c <= '9' && c as int - '0' as int == d
  {
    ('0' as int + d) as char
  }

  /** The number a string of decimal digits denotes. */
  function DecimalValue(s: string): nat
    requires forall i :: 0 <= i < |s| ==> '0' <= s[i] <= '9'
  {
    if s == "" then 0 else DecimalValue(s[..|s| - 1]) * 10 + (s[|s| - 1] as int - '0' as int)
  }

  /** `${n}` for a non-negative integer: its shortest decimal digit string. */
  function Decimal(n: nat): (r: string)
    ensures r != "" && forall i :: 0 <= i < |r| ==> '0' <= r[i] <= '9'
    ensures DecimalValue(r) == n
    ensures |r| > 1 ==> r[0] != '0'
  {
    if n < 10 then [Digit(n)] else Decimal(n / 10) + [Digit(n % 10)]
  }

  /** `s.length`: JavaScript counts UTF-16 code units, two for a code point beyond U+FFFF. */
  function Utf16Length(s: string): (n: nat)
    ensures |s| <= n <= 2 * |s|
  {
    if s == "" then 0 else (if s[0] as int < 0x10000 then 1 else 2) + Utf16Length(s[1..])
  }

  /** `x || fallback` for an optional string: an absent or empty `x` is falsy. */
  function OrElse(x: Option<string>, fallback: string): string
  {
    if x.Some? && x.value != "" then x.value else fallback
  }
}
