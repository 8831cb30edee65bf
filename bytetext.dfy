/**
 * Byte-level vocabulary shared by the three scanner revisions and by the
 * codecs: a byte type, the C-locale character classes the C++ code calls
 * (isspace, isalnum, isxdigit, isprint), decimal and hexadecimal digits,
 * atoi, the element-name classifier issymf/issym, and the small forward
 * scans that every revision runs over its input buffer.
 */
module ByteText {

  /** One byte of input. The C++ code reads `char` and converts it to
      `unsigned char` before classifying it, so a byte is a value 0..255. */
  type Byte = c: char | c as int < 256

  type Bytes = seq<Byte>

  datatype Option<T> = Nothing | Some(value: T)

  /** A `char const *` that may be null, such as the scanners' `chars_`. */
  datatype Mark = Null | Ptr(at: nat)

  function Min(a: int, b: int): int
  {
    if a < b then a else b
  }

  /** Conversion of an int to `char`: the low byte, two's complement. */
  function LowByte(n: int): (b: Byte)
    ensures b as int == n % 256
  {
    (n % 256) as char
  }

  // ---------------------------------------------------------------------
  // C-locale character classes

  /** isspace: space, \t, \n, \v, \f and \r. */
  predicate IsSpace(c: Byte)
  {
    c == ' ' || '\t' <= c <= '\r'
  }

  predicate IsDigit(c: Byte)
  {
    '0' <= c <= '9'
  }

  predicate IsAlnum(c: Byte)
  {
    IsDigit(c) || 'a' <= c <= 'z' || 'A' <= c <= 'Z'
  }

  predicate IsXDigit(c: Byte)
  {
    IsDigit(c) || 'a' <= c <= 'f' || 'A' <= c <= 'F'
  }

  /** isprint: 0x20 through 0x7E. */
  predicate IsPrint(c: Byte)
  {
    ' ' <= c <= '~'
  }

  // ---------------------------------------------------------------------
  // Element and attribute names (issymf / issym, identical in
  // include/xstream.h, xstream.h and xstream.cpp). The C++ tests
  // `d < 0x100` first; for an unsigned char that guard always holds, so
  // its `return true` branch is dead and not modelled.

  /** A byte that may start a name. */
  predicate IsSymF(c: Byte)
  {
    var d := c as int;
    || 'a' <= c <= 'z'
    || 'A' <= c <= 'Z'
    || c == '_'
    || c == ':'
    || 0xC0 <= d <= 0xD6
    || 0xD8 <= d <= 0xF6
    || 0xF8 <= d
  }

  /** A byte that may continue a name. */
  predicate IsSym(c: Byte)
  {
    var d := c as int;
    || '0' <= c <= '9'
    || c == '-'
    || c == '.'
    || d == 0xB7
    || IsSymF(c)
  }

  /** NameStartChar, production [4] of XML 1.0 (fifth edition) section 2.3,
      over code points. */
  predicate NameStartChar(cp: int)
  {
    || cp == ':' as int
    || 'A' as int <= cp <= 'Z' as int
    || cp == '_' as int
    || 'a' as int <= cp <= 'z' as int
    || 0xC0 <= cp <= 0xD6
    || 0xD8 <= cp <= 0xF6
    || 0xF8 <= cp <= 0x2FF
    || 0x370 <= cp <= 0x37D
    || 0x37F <= cp <= 0x1FFF
    || 0x200C <= cp <= 0x200D
    || 0x2070 <= cp <= 0x218F
    || 0x2C00 <= cp <= 0x2FEF
    || 0x3001 <= cp <= 0xD7FF
    || 0xF900 <= cp <= 0xFDCF
    || 0xFDF0 <= cp <= 0xFFFD
    || 0x10000 <= cp <= 0xEFFFF
  }

  /** NameChar, production [4a] of XML 1.0 section 2.3. */
  predicate NameChar(cp: int)
  {
    || NameStartChar(cp)
    || cp == '-' as int
    || cp == '.' as int
    || '0' as int <= cp <= '9' as int
    || cp == 0xB7
    || 0x300 <= cp <= 0x36F
    || 0x203F <= cp <= 0x2040
  }

  /** Read as a Latin-1 code point, a byte starts (continues) a name exactly
      when XML 1.0 lets that code point start (continue) a Name. */
  lemma SymbolsAreXmlNameChars(c: Byte)
    ensures IsSymF(c) <==> NameStartChar(c as int)
    ensures IsSym(c) <==> NameChar(c as int)
  {
  }

  /** The bytes the scanners treat specially are never part of a name. */
  lemma DelimitersAreNotSymbols(c: Byte)
    requires c in "<>/?!=\"' \t\n\r"
    ensures !IsSym(c) && !IsSymF(c)
  {
  }

  // ---------------------------------------------------------------------
  // Decimal numbers (sprintf "%u", atoi)

  function DigitByte(d: nat): (b: Byte)
    requires d < 10
    ensures IsDigit(b)
  {
    ('0' as int + d) as char
  }

  function DigitOf(c: Byte): nat
    requires IsDigit(c)
  {
    c as int - '0' as int
  }

  predicate AllDigits(s: Bytes)
  {
    forall i :: 0 <= i < |s| ==> IsDigit(s[i])
  }

  /** sprintf("%u", n): decimal digits without leading zeros. */
  function Decimal(n: nat): (r: Bytes)
    ensures 1 <= |r| && AllDigits(r)
    decreases n
  {
    if n < 10 then [DigitByte(n)] else Decimal(n / 10) + [DigitByte(n % 10)]
  }

  /** The number a run of decimal digits denotes. */
  function DigitsValue(s: Bytes): nat
    requires AllDigits(s)
  {
    if s == [] then 0 else DigitsValue(s[..|s| - 1]) * 10 + DigitOf(s[|s| - 1])
  }

  lemma {:induction false} DecimalValue(n: nat)
    ensures DigitsValue(Decimal(n)) == n
    decreases n
  {
    if n >= 10 {
      DecimalValue(n / 10);
      var r := Decimal(n);
      assert r[..|r| - 1] == Decimal(n / 10);
    }
  }

  /** First index at or after p whose byte is not white space. */
  function SkipSpaces(s: Bytes, p: nat): (r: nat)
    requires p <= |s|
    ensures p <= r <= |s|
    ensures r < |s| ==> !IsSpace(s[r])
    decreases |s| - p
  {
    if p < |s| && IsSpace(s[p]) then SkipSpaces(s, p + 1) else p
  }

  /** The number that the run of decimal digits starting at p denotes,
      read left to right onto acc (the loop inside atoi). */
  function DigitsFrom(s: Bytes, p: nat, acc: nat): nat
    requires p <= |s|
    decreases |s| - p
  {
    if p < |s| && IsDigit(s[p]) then DigitsFrom(s, p + 1, acc * 10 + DigitOf(s[p])) else acc
  }

  /** atoi: skips leading white space, reads an optional sign and the
      longest run of decimal digits after it; no digits gives 0. Values
      beyond the range of `int` are undefined in C and are not modelled. */
  function Atoi(s: Bytes): int
  {
    var i := SkipSpaces(s, 0);
    var neg := i < |s| && s[i] == '-';
    var j := if i < |s| && (s[i] == '-' || s[i] == '+') then i + 1 else i;
    var v: int := DigitsFrom(s, j, 0);
    if neg then -v else v
  }

  lemma {:induction false} DigitsFromValue(s: Bytes, p: nat)
    requires p <= |s| && AllDigits(s)
    ensures DigitsFrom(s, p, DigitsValue(s[..p])) == DigitsValue(s)
    decreases |s| - p
  {
    if p < |s| {
      assert s[..p + 1][..p] == s[..p];
      DigitsFromValue(s, p + 1);
    } else {
      assert s[..p] == s;
    }
  }

  /** atoi reads back what sprintf("%u") wrote. */
  lemma AtoiDecimal(n: nat)
    ensures Atoi(Decimal(n)) == n
  {
    var r := Decimal(n);
    assert SkipSpaces(r, 0) == 0;
    assert r[..0] == [];
    DigitsFromValue(r, 0);
    DecimalValue(n);
  }

  // ---------------------------------------------------------------------
  // Hexadecimal digits (sprintf "%02X", strtol base 16)

  function HexUpper(d: nat): (b: Byte)
    requires d < 16
    ensures IsXDigit(b)
  {
    "0123456789ABCDEF"[d]
  }

  function HexValue(c: Byte): (v: nat)
    requires IsXDigit(c)
    ensures v < 16
  {
    if IsDigit(c) then c as int - '0' as int
    else if 'a' <= c <= 'f' then c as int - 'a' as int + 10
    else c as int - 'A' as int + 10
  }

  lemma HexValueOfHexUpper(d: nat)
    requires d < 16
    ensures HexValue(HexUpper(d)) == d
  {
  }

  // ---------------------------------------------------------------------
  // Forward scans: each function is the value-level meaning of a loop
  // that advances a cursor, and the method beside it is that loop.

  /** First index at or after p holding c, or |s| when there is none. */
  function IndexFrom(s: Bytes, p: nat, c: Byte): (r: nat)
    requires p <= |s|
    ensures p <= r <= |s|
    ensures r < |s| ==> s[r] == c
    decreases |s| - p
  {
    if p == |s| || s[p] == c then p else IndexFrom(s, p + 1, c)
  }

  /** IndexFrom finds the first occurrence: no c lies between p and it.
      (Kept out of IndexFrom's own contract, so that proofs which do not
      need it do not pay for it.) */
  lemma {:induction false} IndexFromIsFirst(s: Bytes, p: nat, c: Byte)
    requires p <= |s|
    ensures forall k :: p <= k < IndexFrom(s, p, c) ==> s[k] != c
    decreases |s| - p
  {
    if p < |s| && s[p] != c {
      IndexFromIsFirst(s, p + 1, c);
    }
  }

  /** Conversely, the first occurrence of c at or after p is where IndexFrom stops. */
  lemma IndexFromAt(s: Bytes, p: nat, k: nat, c: Byte)
    requires p <= k <= |s|
    requires k < |s| ==> s[k] == c
    requires forall j :: p <= j < k ==> s[j] != c
    ensures IndexFrom(s, p, c) == k
  {
    IndexFromIsFirst(s, p, c);
  }

  /** IndexFrom on a suffix is IndexFrom on the whole sequence, shifted. */
  lemma {:induction false} IndexFromSuffix(s: Bytes, p: nat, i: nat, c: Byte)
    requires p + i <= |s|
    ensures IndexFrom(s[p..], i, c) == IndexFrom(s, p + i, c) - p
    decreases |s| - p - i
  {
    if p + i < |s| && s[p + i] != c {
      IndexFromSuffix(s, p, i + 1, c);
    }
  }

  /** Where `strchr(p, c)` stops on a NUL-terminated buffer: at the first
      byte at or after p that is c or NUL, or at |s| when there is none.
      (strchr reports a NUL as "not found" unless c is NUL.) */
  function StrChrFrom(s: Bytes, p: nat, c: Byte): (r: nat)
    requires p <= |s|
    ensures p <= r <= |s|
    decreases |s| - p
  {
    if p == |s| || s[p] == c || s[p] == '\0' then p else StrChrFrom(s, p + 1, c)
  }

  /** Where StrChrFrom stops short of the end there is c or a NUL. */
  lemma {:induction false} StrChrFromStops(s: Bytes, p: nat, c: Byte)
    requires p <= |s|
    ensures StrChrFrom(s, p, c) < |s| ==> s[StrChrFrom(s, p, c)] == c || s[StrChrFrom(s, p, c)] == '\0'
    decreases |s| - p
  {
    if p < |s| && s[p] != c && s[p] != '\0' {
      StrChrFromStops(s, p + 1, c);
    }
  }

  /** StrChrFrom stops at the first c or NUL: neither lies between p and it. */
  lemma {:induction false} StrChrFromIsFirst(s: Bytes, p: nat, c: Byte)
    requires p <= |s|
    ensures forall k :: p <= k < StrChrFrom(s, p, c) ==> s[k] != c && s[k] != '\0'
    decreases |s| - p
  {
    if p < |s| && s[p] != c && s[p] != '\0' {
      StrChrFromIsFirst(s, p + 1, c);
    }
  }

  /** Conversely, the first c or NUL at or after p is where StrChrFrom stops. */
  lemma StrChrFromAt(s: Bytes, p: nat, k: nat, c: Byte)
    requires p <= k <= |s|
    requires k < |s| ==> s[k] == c || s[k] == '\0'
    requires forall j :: p <= j < k ==> s[j] != c && s[j] != '\0'
    ensures StrChrFrom(s, p, c) == k
  {
    StrChrFromIsFirst(s, p, c);
    StrChrFromStops(s, p, c);
  }

  /** StrChrFrom on a suffix is StrChrFrom on the whole sequence, shifted. */
  lemma {:induction false} StrChrFromSuffix(s: Bytes, p: nat, i: nat, c: Byte)
    requires p + i <= |s|
    ensures StrChrFrom(s[p..], i, c) == StrChrFrom(s, p + i, c) - p
    decreases |s| - p - i
  {
    if p + i < |s| && s[p + i] != c && s[p + i] != '\0' {
      StrChrFromSuffix(s, p, i + 1, c);
    }
  }

  /** On a stretch without NUL, strchr finds what a bounded search finds. */
  lemma {:induction false} StrChrFromWithoutNul(s: Bytes, p: nat, c: Byte)
    requires p <= |s|
    requires forall k :: p <= k < |s| ==> s[k] != '\0'
    ensures StrChrFrom(s, p, c) == IndexFrom(s, p, c)
    decreases |s| - p
  {
    if p < |s| && s[p] != c {
      StrChrFromWithoutNul(s, p + 1, c);
    }
  }

  /** Where `while (p < end && issym(*p)) p++` stops. */
  function SymEnd(s: Bytes, p: nat): (r: nat)
    requires p <= |s|
    ensures p <= r <= |s|
    ensures r < |s| ==> !IsSym(s[r])
    ensures forall k :: p <= k < r ==> IsSym(s[k])
    decreases |s| - p
  {
    if p < |s| && IsSym(s[p]) then SymEnd(s, p + 1) else p
  }

  lemma {:induction false} SymEndAt(s: Bytes, p: nat, k: nat)
    requires p <= k < |s| && !IsSym(s[k])
    requires forall j :: p <= j < k ==> IsSym(s[j])
    ensures SymEnd(s, p) == k
    decreases k - p
  {
    if p < k {
      SymEndAt(s, p + 1, k);
    }
  }

  /** The test `p + |pat| < end && memcmp(p, pat, |pat|) == 0`: the bytes
      at p are pat, and at least one byte follows them. */
  predicate OpensWith(s: Bytes, p: nat, pat: Bytes)
  {
    p + |pat| < |s| && s[p..p + |pat|] == pat
  }

  /** The three bytes at k are the delimiter pat. */
  predicate DelimAt(s: Bytes, k: nat, pat: Bytes)
  {
    k + 2 < |s| && s[k..k + 3] == pat
  }

  /** Where `while (p + 2 < end && memcmp(p, pat, 3) != 0) p++` stops:
      at the first occurrence of the three-byte delimiter, or at the last
      position from which three bytes cannot be compared. */
  function DelimFrom(s: Bytes, p: nat, pat: Bytes): (r: nat)
    requires |pat| == 3 && p <= |s|
    ensures p <= r <= |s|
    ensures r + 2 < |s| ==> DelimAt(s, r, pat)
    decreases |s| - p
  {
    if p + 2 < |s| && !DelimAt(s, p, pat) then DelimFrom(s, p + 1, pat) else p
  }

  /** DelimFrom stops at the first occurrence: every position it passes
      has three bytes to compare (it is enough that the last one has), and
      they are not the delimiter. */
  lemma {:induction false} DelimFromIsFirst(s: Bytes, p: nat, pat: Bytes)
    requires |pat| == 3 && p <= |s|
    ensures p < DelimFrom(s, p, pat) ==> DelimFrom(s, p, pat) + 1 < |s|
    ensures forall k :: p <= k < DelimFrom(s, p, pat) ==> !DelimAt(s, k, pat)
  {
    var r := DelimFrom(s, p, pat);
    if p < r {
      DelimFromPasses(s, p, r - 1, pat);
    }
    forall k | p <= k < r
      ensures !DelimAt(s, k, pat)
    {
      DelimFromPasses(s, p, k, pat);
    }
  }

  lemma {:induction false} DelimFromPasses(s: Bytes, p: nat, k: nat, pat: Bytes)
    requires |pat| == 3 && p <= |s| && p <= k < DelimFrom(s, p, pat)
    ensures k + 2 < |s| && !DelimAt(s, k, pat)
    decreases k - p
  {
    if p < k {
      DelimFromPasses(s, p + 1, k, pat);
    }
  }

  /** Where the cursor lands after such a search and `p += 3`: past the
      delimiter, or at the end of s when the search ran out. */
  function DelimEnd(s: Bytes, p: nat, pat: Bytes): (r: nat)
    requires |pat| == 3 && p <= |s|
    ensures p <= r <= |s|
  {
    Min(DelimFrom(s, p, pat) + 3, |s|)
  }

  method FindByte(s: Bytes, p0: nat, c: Byte) returns (p: nat)
    requires p0 <= |s|
    ensures p == IndexFrom(s, p0, c)
  {
    p := p0;
    while p < |s| && s[p] != c
      invariant p0 <= p <= |s|
      invariant IndexFrom(s, p, c) == IndexFrom(s, p0, c)
      decreases |s| - p
    {
      p := p + 1;
    }
  }

  /** `strchr(p, c)`'s loop: advance until c, NUL or the end. */
  method FindChr(s: Bytes, p0: nat, c: Byte) returns (p: nat)
    requires p0 <= |s|
    ensures p == StrChrFrom(s, p0, c)
  {
    p := p0;
    while p < |s| && s[p] != c && s[p] != '\0'
      invariant p0 <= p <= |s|
      invariant StrChrFrom(s, p, c) == StrChrFrom(s, p0, c)
      decreases |s| - p
    {
      p := p + 1;
    }
  }

  method SkipSpacesLoop(s: Bytes, p0: nat) returns (p: nat)
    requires p0 <= |s|
    ensures p == SkipSpaces(s, p0)
  {
    p := p0;
    while p < |s| && IsSpace(s[p])
      invariant p0 <= p <= |s|
      invariant SkipSpaces(s, p) == SkipSpaces(s, p0)
      decreases |s| - p
    {
      p := p + 1;
    }
  }

  method SkipSymLoop(s: Bytes, p0: nat) returns (p: nat)
    requires p0 <= |s|
    ensures p == SymEnd(s, p0)
  {
    p := p0;
    while p < |s| && IsSym(s[p])
      invariant p0 <= p <= |s|
      invariant SymEnd(s, p) == SymEnd(s, p0)
      decreases |s| - p
    {
      p := p + 1;
    }
  }

  method FindDelim(s: Bytes, p0: nat, pat: Bytes) returns (p: nat)
    requires |pat| == 3 && p0 <= |s|
    ensures p == DelimFrom(s, p0, pat)
  {
    p := p0;
    while p + 2 < |s| && s[p..p + 3] != pat
      invariant p0 <= p <= |s|
      invariant DelimFrom(s, p, pat) == DelimFrom(s, p0, pat)
      decreases |s| - p
    {
      p := p + 1;
    }
  }
}
