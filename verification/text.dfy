/** String helpers the chat page and the handler rely on: ECMAScript's
    `String.prototype.trim`, the decimal rendering of a natural number and the
    lower-case hexadecimal rendering of bytes (Python's `bytes.hex()`). */
module Text {

  /** The reply text both the page and the handler fall back to. */
  const NoReply: string := "No se recibió respuesta del agente."

  /** The prefix of the session ids both the page and the handler generate. */
  const SessionPrefix: string := "session-"

  /** The code points `trim` strips: ECMAScript's WhiteSpace and
      LineTerminator productions (section 12.2 and 12.3 of ECMA-262). */
  predicate IsJsSpace(c: char) {
    var n := c as int;
    n == 0x09 || n == 0x0A || n == 0x0B || n == 0x0C || n == 0x0D
    || n == 0x20 || n == 0xA0 || n == 0x1680 || (0x2000 <= n <= 0x200A)
    || n == 0x2028 || n == 0x2029 || n == 0x202F || n == 0x205F
    || n == 0x3000 || n == 0xFEFF
  }

  predicate AllSpace(s: string) {
    forall i :: 0 <= i < |s| ==> IsJsSpace(s[i])
  }

  /** Neither end of `s` is a space (the empty string qualifies). */
  predicate IsTrimmed(s: string) {
    s == [] || (!IsJsSpace(s[0]) && !IsJsSpace(s[|s| - 1]))
  }

  /** Drops the leading spaces: the result is the suffix of `s` that starts at
      its first non-space character. */
  function TrimStart(s: string): (r: string)
    ensures |r| <= |s| && r == s[|s| - |r|..]
    ensures forall i :: 0 <= i < |s| - |r| ==> IsJsSpace(s[i])
    ensures r != [] ==> !IsJsSpace(r[0])
  {
    if s != [] && IsJsSpace(s[0]) then TrimStart(s[1..]) else s
  }

  /** Drops the trailing spaces: the result is the prefix of `s` that ends at
      its last non-space character. */
  function TrimEnd(s: string): (r: string)
    ensures |r| <= |s| && r == s[..|r|]
    ensures forall i :: |r| <= i < |s| ==> IsJsSpace(s[i])
    ensures r != [] ==> !IsJsSpace(r[|r| - 1])
  {
    if s != [] && IsJsSpace(s[|s| - 1]) then TrimEnd(s[..|s| - 1]) else s
  }

  /** `s.trim()`: no space is left at either end, and nothing but spaces is
      lost (the slice itself is stated by `TrimIsSlice`). */
  function Trim(s: string): (r: string)
    ensures IsTrimmed(r)
    ensures r == [] <==> AllSpace(s)
  {
    TrimEmptyIffSpace(s);
    TrimEnd(TrimStart(s))
  }

  lemma TrimEmptyIffSpace(s: string)
    ensures IsTrimmed(TrimEnd(TrimStart(s)))
    ensures TrimEnd(TrimStart(s)) == [] <==> AllSpace(s)
  {
    var t := TrimStart(s);
    var r := TrimEnd(t);
    var k := |s| - |t|;
    if r == [] {
      // All of `t` is space, so `TrimStart` left nothing.
      assert t == [];
    } else {
      assert !IsJsSpace(s[k]);
    }
  }

  /** The trim of `s` is the slice `s[lo..hi]` whose outside is all spaces. */
  lemma TrimIsSlice(s: string) returns (lo: nat, hi: nat)
    ensures lo <= hi <= |s|
    ensures Trim(s) == s[lo..hi]
    ensures AllSpace(s[..lo]) && AllSpace(s[hi..])
  {
    var t := TrimStart(s);
    var r := TrimEnd(t);
    assert Trim(s) == r;
    lo, hi := |s| - |t|, |s| - |t| + |r|;
    assert r == s[lo..hi] by {
      assert t == s[lo..];
      assert r == t[..|r|];
    }
    SpacePrefix(s, lo);
    SpaceSuffix(t, |r|);
    assert s[hi..] == t[|r|..];
  }

  lemma SpacePrefix(s: string, k: nat)
    requires k <= |s|
    requires forall i :: 0 <= i < k ==> IsJsSpace(s[i])
    ensures AllSpace(s[..k])
  {
    forall i | 0 <= i < k
      ensures IsJsSpace(s[..k][i])
    {
      assert s[..k][i] == s[i];
    }
  }

  lemma SpaceSuffix(s: string, k: nat)
    requires k <= |s|
    requires forall i :: k <= i < |s| ==> IsJsSpace(s[i])
    ensures AllSpace(s[k..])
  {
    forall i | 0 <= i < |s| - k
      ensures IsJsSpace(s[k..][i])
    {
      assert s[k..][i] == s[k + i];
    }
  }

  /** Trimming twice is trimming once. */
  lemma TrimIdempotent(s: string)
    ensures Trim(Trim(s)) == Trim(s)
  {
    var t := Trim(s);
    TrimmedIsFixed(t);
  }

  /** A string with no space at either end is its own trim. */
  lemma TrimmedIsFixed(s: string)
    requires IsTrimmed(s)
    ensures Trim(s) == s
  {
    assert TrimStart(s) == s;
    assert TrimEnd(s) == s;
  }

  function Digit(d: nat): (c: char)
    requires d < 10
    ensures '0' <= c <= '9' && (c as int) - ('0' as int) == d
  {
    (('0' as int) + d) as char
  }

  predicate IsDecimal(s: string) {
    s != [] && forall i :: 0 <= i < |s| ==> '0' <= s[i] <= '9'
  }

  /** The shortest decimal rendering of `n`, as JavaScript's template literals
      and Python's f-strings print a non-negative integer. */
  function Decimal(n: nat): (r: string)
    ensures IsDecimal(r)
    ensures |r| > 1 ==> r[0] != '0'
  {
    if n < 10 then [Digit(n)] else Decimal(n / 10) + [Digit(n % 10)]
  }

  /** The number a string of decimal digits denotes. */
  function DecimalValue(s: string): nat
    requires IsDecimal(s) || s == []
  {
    if s == [] then 0
    else
      assert IsDecimal(s[..|s| - 1]) || s[..|s| - 1] == [];
      DecimalValue(s[..|s| - 1]) * 10 + ((s[|s| - 1] as int) - ('0' as int))
  }

  /** Reading back a rendered number gives the number. */
  lemma {:induction false} DecimalRoundTrip(n: nat)
    ensures DecimalValue(Decimal(n)) == n
  {
    if n >= 10 {
      var r := Decimal(n);
      assert r[..|r| - 1] == Decimal(n / 10);
      DecimalRoundTrip(n / 10);
    }
  }

  /** Distinct numbers render differently. */
  lemma DecimalInjective(m: nat, n: nat)
    requires Decimal(m) == Decimal(n)
    ensures m == n
  {
    DecimalRoundTrip(m);
    DecimalRoundTrip(n);
  }

  /** An octet, as Python's `bytes` holds them. */
  newtype Byte = b: int | 0 <= b < 256

  predicate IsLowerHex(c: char) {
    ('0' <= c <= '9') || ('a' <= c <= 'f')
  }

  predicate IsHexString(s: string) {
    forall i :: 0 <= i < |s| ==> IsLowerHex(s[i])
  }

  function HexDigit(d: nat): (c: char)
    requires d < 16
    ensures IsLowerHex(c)
  {
    "0123456789abcdef"[d]
  }

  function HexDigitValue(c: char): (d: nat)
    requires IsLowerHex(c)
    ensures d < 16
  {
    if c <= '9' then (c as int) - ('0' as int) else (c as int) - ('a' as int) + 10
  }

  lemma HexDigitRoundTrip(d: nat)
    requires d < 16
    ensures HexDigitValue(HexDigit(d)) == d
  {
  }

  /** `bytes.hex()`: two lower-case hexadecimal digits per byte, high nibble
      first. */
  function Hex(bytes: seq<Byte>): (r: string)
    ensures |r| == 2 * |bytes|
    ensures IsHexString(r)
  {
    if bytes == [] then []
    else
      var b := bytes[0] as nat;
      [HexDigit(b / 16), HexDigit(b % 16)] + Hex(bytes[1..])
  }

  /** The bytes an even-length lower-case hexadecimal string denotes. */
  function Unhex(s: string): seq<Byte>
    requires |s| % 2 == 0 && IsHexString(s)
  {
    if s == [] then []
    else
      assert IsHexString(s[2..]);
      [(HexDigitValue(s[0]) * 16 + HexDigitValue(s[1])) as Byte] + Unhex(s[2..])
  }

  /** The hexadecimal rendering loses nothing: it reads back to the bytes. */
  lemma {:induction false} HexRoundTrip(bytes: seq<Byte>)
    ensures Unhex(Hex(bytes)) == bytes
  {
    if bytes != [] {
      var b := bytes[0] as nat;
      var h := Hex(bytes);
      assert h[2..] == Hex(bytes[1..]);
      HexRoundTrip(bytes[1..]);
      HexDigitRoundTrip(b / 16);
      HexDigitRoundTrip(b % 16);
    }
  }
}
