/**
 * Percent-encoding of urlencode.cpp. The unreserved bytes of section 2.3
 * of RFC 3986 (letters, digits, '_', '.', '-', '~') pass through, a space
 * becomes '+' as in the application/x-www-form-urlencoded format of
 * section 17.13.4.1 of HTML 4.01, and every other byte becomes '%' and two
 * upper-case hexadecimal digits (section 2.1 of RFC 3986). Two flags
 * relax the encoder: encodeslash=false lets '/' through and
 * utf8through=true lets every byte from 0x80 through. The decoder undoes
 * '+' and every well-formed "%XX".
 */
module UrlCodec {
  import opened ByteText

  // ---------------------------------------------------------------------
  // url_encode_ (36-57)

  /** Bytes the first test of url_encode_ lets through: isalnum, or found
      by strchr("_.-~", c), which also finds the string's terminating NUL. */
  predicate Unreserved(c: Byte)
  {
    IsAlnum(c) || c == '_' || c == '.' || c == '-' || c == '~' || c == '\0'
  }

  /** Whether url_encode_ copies byte c unchanged. */
  predicate PassesThrough(c: Byte, encodeslash: bool, utf8through: bool)
  {
    Unreserved(c) || (utf8through && c as int >= 0x80) || (c == '/' && !encodeslash)
  }

  /** sprintf("%%%02X", c). */
  function Percent(c: Byte): (r: Bytes)
    ensures |r| == 3 && r[0] == '%' && IsXDigit(r[1]) && IsXDigit(r[2])
  {
    ['%', HexUpper(c as int / 16), HexUpper(c as int % 16)]
  }

  /** What url_encode_ writes for one byte. */
  function EncodeByte(c: Byte, encodeslash: bool, utf8through: bool): Bytes
  {
    if PassesThrough(c, encodeslash, utf8through) then [c]
    else if c == ' ' then "+"
    else Percent(c)
  }

  function Encoded(s: Bytes, encodeslash: bool, utf8through: bool): Bytes
  {
    if s == [] then [] else EncodeByte(s[0], encodeslash, utf8through) + Encoded(s[1..], encodeslash, utf8through)
  }

  lemma EncodedStep(s: Bytes, p: nat, encodeslash: bool, utf8through: bool)
    requires p < |s|
    ensures Encoded(s[p..], encodeslash, utf8through)
      == EncodeByte(s[p], encodeslash, utf8through) + Encoded(s[p + 1..], encodeslash, utf8through)
  {
    assert s[p..][1..] == s[p + 1..];
  }

  /** One pass of url_encode_'s loop (39-55): the byte's branch appends
      exactly what EncodeByte says. */
  method EncodeOne(out0: Bytes, c: Byte, encodeslash: bool, utf8through: bool) returns (out: Bytes)
    ensures out == out0 + EncodeByte(c, encodeslash, utf8through)
  {
    if Unreserved(c) {
      out := out0 + [c];
    } else if utf8through && c as int >= 0x80 {
      out := out0 + [c];
    } else if c == '/' && !encodeslash {
      out := out0 + [c];
    } else if c == ' ' {
      out := out0 + "+";
    } else {
      out := out0 + Percent(c);
    }
  }

  /** Appending the encoding of byte p and then the rest is appending the
      encoding of everything from p. */
  lemma EncodeIntoStep(s: Bytes, p: nat, out0: Bytes, out: Bytes, encodeslash: bool, utf8through: bool)
    requires p < |s|
    requires out == out0 + EncodeByte(s[p], encodeslash, utf8through)
    ensures out + Encoded(s[p + 1..], encodeslash, utf8through) == out0 + Encoded(s[p..], encodeslash, utf8through)
  {
    var e := EncodeByte(s[p], encodeslash, utf8through);
    var rest := Encoded(s[p + 1..], encodeslash, utf8through);
    calc {
      out + rest;
      (out0 + e) + rest;
      out0 + (e + rest);
      { EncodedStep(s, p, encodeslash, utf8through); }
      out0 + Encoded(s[p..], encodeslash, utf8through);
    }
  }

  /** url_encode_: appends the encoding of s[p0..] to out0. */
  method EncodeInto(s: Bytes, p0: nat, out0: Bytes, encodeslash: bool, utf8through: bool) returns (out: Bytes)
    requires p0 <= |s|
    ensures out == out0 + Encoded(s[p0..], encodeslash, utf8through)
  {
    out := out0;
    var ptr := p0;
    while ptr < |s|
      invariant p0 <= ptr <= |s|
      invariant out + Encoded(s[ptr..], encodeslash, utf8through) == out0 + Encoded(s[p0..], encodeslash, utf8through)
      decreases |s| - ptr
    {
      var next := EncodeOne(out, s[ptr], encodeslash, utf8through);
      EncodeIntoStep(s, ptr, out, next, encodeslash, utf8through);
      out := next;
      ptr := ptr + 1;
    }
    assert s[ptr..] == [];
  }

  /** url_encode(str, end, encodeslash, utf8through) (59-71), and the
      (str, len) form that calls it (73-76): a null str gives "". */
  method UrlEncodeRange(str: Option<Bytes>, encodeslash: bool, utf8through: bool) returns (r: Bytes)
    ensures r == if str.Nothing? then [] else Encoded(str.value, encodeslash, utf8through)
  {
    if str.Nothing? {
      return [];
    }
    r := EncodeInto(str.value, 0, [], encodeslash, utf8through);
    assert str.value[0..] == str.value;
  }

  /** url_encode(char const *, bool utf8through) (78-81): the bytes before
      the NUL, encoded by the (str, len) overload. That call passes the
      caller's flag in the place of encodeslash and leaves utf8through at
      its default, false. */
  method UrlEncodeCString(str: Bytes, utf8through: bool) returns (r: Bytes)
    ensures r == Encoded(CString(str), utf8through, false)
  {
    var len := FindByte(str, 0, '\0');
    r := UrlEncodeRange(Some(str[..len]), utf8through, false);
  }

  /** So with the flag set, that overload encodes '/' and still encodes
      every byte of 0x80 and above, as if utf8through were off. */
  lemma UrlEncodeCStringFlag(c: Byte)
    requires c as int >= 0x80
    ensures EncodeByte('/', true, false) == Percent('/')
    ensures EncodeByte(c, true, false) == Percent(c)
  {
  }

  /** The prefix test of the string_view url_encode: letters, digits,
      "_.-~", NUL, and '/' when it is not encoded. */
  predicate PrefixByte(c: Byte, encodeslash: bool)
  {
    Unreserved(c) || (c == '/' && !encodeslash)
  }

  /** A byte that passes the prefix test is its own encoding, so the
      copied prefix may take it in without changing the result. */
  lemma PrefixByteCopied(s: Bytes, p: nat, encodeslash: bool, utf8through: bool)
    requires p < |s| && PrefixByte(s[p], encodeslash)
    ensures s[..p] + Encoded(s[p..], encodeslash, utf8through)
      == s[..p + 1] + Encoded(s[p + 1..], encodeslash, utf8through)
  {
    EncodedStep(s, p, encodeslash, utf8through);
    assert EncodeByte(s[p], encodeslash, utf8through) == [s[p]];
    assert s[..p + 1] == s[..p] + [s[p]];
  }

  /** url_encode(string_view, encodeslash, utf8through) (83-111): the
      input itself when every byte passes the prefix test, otherwise the
      prefix followed by url_encode_ of the rest. Either way the result is
      the encoding of the whole input. */
  method UrlEncode(str: Bytes, encodeslash: bool, utf8through: bool) returns (r: Bytes)
    ensures r == Encoded(str, encodeslash, utf8through)
  {
    var ptr := 0;
    while ptr < |str|
      invariant ptr <= |str|
      invariant Encoded(str, encodeslash, utf8through) == str[..ptr] + Encoded(str[ptr..], encodeslash, utf8through)
      decreases |str| - ptr
    {
      var c := str[ptr];
      if !PrefixByte(c, encodeslash) {
        break;
      }
      PrefixByteCopied(str, ptr, encodeslash, utf8through);
      ptr := ptr + 1;
    }
    if ptr == |str| {
      assert str[..ptr] == str;
      assert str[ptr..] == [];
      return str;
    }
    r := EncodeInto(str, ptr, str[..ptr], encodeslash, utf8through);
  }

  // ---------------------------------------------------------------------
  // url_decode_ (113-130)

  /** "%XX" at p: a '%' followed by two hexadecimal digits within s. */
  predicate EscapeAt(s: Bytes, p: nat)
  {
    p + 2 < |s| && s[p] == '%' && IsXDigit(s[p + 1]) && IsXDigit(s[p + 2])
  }

  /** The byte the two hexadecimal digits after p stand for (strtol base 16). */
  function EscapedByte(s: Bytes, p: nat): Byte
    requires EscapeAt(s, p)
  {
    (16 * HexValue(s[p + 1]) + HexValue(s[p + 2])) as char
  }

  function Decoded(s: Bytes): Bytes
    decreases |s|
  {
    if s == [] then []
    else if s[0] == '+' then " " + Decoded(s[1..])
    else if EscapeAt(s, 0) then [EscapedByte(s, 0)] + Decoded(s[3..])
    else [s[0]] + Decoded(s[1..])
  }

  /** One step of url_decode_ at p: the bytes it writes and where it goes on. */
  lemma DecodedStep(s: Bytes, p: nat)
    requires p < |s|
    ensures s[p] == '+' ==> Decoded(s[p..]) == " " + Decoded(s[p + 1..])
    ensures s[p] != '+' && EscapeAt(s, p) ==> Decoded(s[p..]) == [EscapedByte(s, p)] + Decoded(s[p + 3..])
    ensures s[p] != '+' && !EscapeAt(s, p) ==> Decoded(s[p..]) == [s[p]] + Decoded(s[p + 1..])
  {
    var t := s[p..];
    assert t[1..] == s[p + 1..];
    if EscapeAt(s, p) {
      assert t[3..] == s[p + 3..];
      assert EscapeAt(t, 0);
    } else {
      assert !EscapeAt(t, 0);
    }
  }

  /** url_decode_: appends the decoding of s[p0..] to out0. A '%' without
      two hexadecimal digits after it inside s is copied. */
  method DecodeInto(s: Bytes, p0: nat, out0: Bytes) returns (out: Bytes)
    requires p0 <= |s|
    ensures out == out0 + Decoded(s[p0..])
  {
    out := out0;
    var ptr := p0;
    while ptr < |s|
      invariant p0 <= ptr <= |s|
      invariant out + Decoded(s[ptr..]) == out0 + Decoded(s[p0..])
      decreases |s| - ptr
    {
      var c, next := DecodeAt(s, ptr);
      assert (out + [c]) + Decoded(s[next..]) == out + ([c] + Decoded(s[next..]));
      out := out + [c];
      ptr := next;
    }
    assert s[ptr..] == [];
  }

  /** The body of url_decode_'s loop at cursor p: the byte it writes and
      where the cursor goes next. */
  method DecodeAt(s: Bytes, p: nat) returns (c: Byte, next: nat)
    requires p < |s|
    ensures p < next <= |s|
    ensures Decoded(s[p..]) == [c] + Decoded(s[next..])
  {
    DecodedStep(s, p);
    c := s[p];
    next := p + 1;
    if c == '+' {
      c := ' ';
    } else if c == '%' && next + 1 < |s| && IsXDigit(s[next]) && IsXDigit(s[next + 1]) {
      c := (16 * HexValue(s[next]) + HexValue(s[next + 1])) as char;
      next := next + 2;
    }
  }

  /** url_decode(str, end) (132-144) and the (str, len) form (146-149): a
      null str gives "". */
  method UrlDecodeRange(str: Option<Bytes>) returns (r: Bytes)
    ensures r == if str.Nothing? then [] else Decoded(str.value)
  {
    if str.Nothing? {
      return [];
    }
    r := DecodeInto(str.value, 0, []);
    assert str.value[0..] == str.value;
  }

  /** The bytes of a C string: up to its first NUL. */
  function CString(s: Bytes): (r: Bytes)
    ensures '\0' !in r
  {
    IndexFromIsFirst(s, 0, '\0');
    s[..IndexFrom(s, 0, '\0')]
  }

  /** url_decode(str) (151-154): the decoding of the bytes before the NUL. */
  method UrlDecodeCString(str: Bytes) returns (r: Bytes)
    ensures r == Decoded(CString(str))
  {
    var len := FindByte(str, 0, '\0');
    r := UrlDecodeRange(Some(str[..len]));
  }

  /** A byte other than '+' and '%' decodes to itself, so the copied
      prefix may take it in without changing the result. */
  lemma PlainByteCopied(s: Bytes, p: nat)
    requires p < |s| && s[p] != '+' && s[p] != '%'
    ensures s[..p] + Decoded(s[p..]) == s[..p + 1] + Decoded(s[p + 1..])
  {
    DecodedStep(s, p);
    assert s[..p + 1] == s[..p] + [s[p]];
  }

  /** url_decode(string_view) (156-180): the input itself when it holds no
      '+' and no '%', otherwise the prefix followed by url_decode_ of the
      rest. */
  method UrlDecode(str: Bytes) returns (r: Bytes)
    ensures r == Decoded(str)
  {
    var ptr := 0;
    while ptr < |str|
      invariant ptr <= |str|
      invariant Decoded(str) == str[..ptr] + Decoded(str[ptr..])
      decreases |str| - ptr
    {
      var c := str[ptr];
      if c == '+' || c == '%' {
        break;
      }
      PlainByteCopied(str, ptr);
      ptr := ptr + 1;
    }
    if ptr == |str| {
      assert str[..ptr] == str;
      assert str[ptr..] == [];
      return str;
    }
    r := DecodeInto(str, ptr, str[..ptr]);
  }

  // ---------------------------------------------------------------------
  // Properties

  /** What one byte encodes to decodes back to that byte, whatever follows. */
  lemma DecodeEncodedByte(c: Byte, rest: Bytes, encodeslash: bool, utf8through: bool)
    ensures Decoded(EncodeByte(c, encodeslash, utf8through) + rest) == [c] + Decoded(rest)
  {
    var e := EncodeByte(c, encodeslash, utf8through);
    var t := e + rest;
    if PassesThrough(c, encodeslash, utf8through) {
      assert t[0] == c && t[1..] == rest;
      assert !EscapeAt(t, 0);
    } else if c == ' ' {
      assert t[0] == '+' && t[1..] == rest;
    } else {
      assert t[0] == '%' && t[3..] == rest;
      assert EscapeAt(t, 0);
      HexValueOfHexUpper(c as int / 16);
      HexValueOfHexUpper(c as int % 16);
      assert EscapedByte(t, 0) == c;
    }
  }

  /** url_decode(url_encode(s, encodeslash, utf8through)) == s. */
  lemma {:induction false} RoundTrip(s: Bytes, encodeslash: bool, utf8through: bool)
    ensures Decoded(Encoded(s, encodeslash, utf8through)) == s
    decreases |s|
  {
    if s != [] {
      RoundTrip(s[1..], encodeslash, utf8through);
      DecodeEncodedByte(s[0], Encoded(s[1..], encodeslash, utf8through), encodeslash, utf8through);
    }
  }

  /** Exactly the bytes that pass through are copied; a space takes one
      byte and every other byte three. */
  lemma EncodeByteCases(c: Byte, encodeslash: bool, utf8through: bool)
    ensures |EncodeByte(c, encodeslash, utf8through)| == 1 <==> PassesThrough(c, encodeslash, utf8through) || c == ' '
    ensures EncodeByte(c, encodeslash, utf8through) == [c] <==> PassesThrough(c, encodeslash, utf8through)
    ensures !PassesThrough(c, encodeslash, utf8through) && c != ' ' ==>
      EncodeByte(c, encodeslash, utf8through) == Percent(c)
  {
  }

  /** The encoding is between one and three times as long as the input. */
  lemma {:induction false} EncodedLength(s: Bytes, encodeslash: bool, utf8through: bool)
    ensures |s| <= |Encoded(s, encodeslash, utf8through)| <= 3 * |s|
    decreases |s|
  {
    if s != [] {
      EncodedLength(s[1..], encodeslash, utf8through);
    }
  }

  /** The encoding holds only bytes a URL may carry unescaped: unreserved
      bytes, '+', '%', hexadecimal digits, and the bytes a flag lets
      through. */
  lemma {:induction false} EncodedBytes(s: Bytes, encodeslash: bool, utf8through: bool)
    ensures forall i :: 0 <= i < |Encoded(s, encodeslash, utf8through)| ==>
      var b := Encoded(s, encodeslash, utf8through)[i];
      PassesThrough(b, encodeslash, utf8through) || b == '+' || b == '%'
    decreases |s|
  {
    if s != [] {
      EncodedBytes(s[1..], encodeslash, utf8through);
      var e := EncodeByte(s[0], encodeslash, utf8through);
      var r := Encoded(s[1..], encodeslash, utf8through);
      assert forall i :: 0 <= i < |e| ==> PassesThrough(e[i], encodeslash, utf8through) || e[i] == '+' || e[i] == '%';
      assert forall i :: 0 <= i < |e + r| ==> (e + r)[i] == if i < |e| then e[i] else r[i - |e|];
    }
  }

  /** Decoding never lengthens its input. */
  lemma {:induction false} DecodedLength(s: Bytes)
    ensures |Decoded(s)| <= |s|
    decreases |s|
  {
    if s != [] {
      if s[0] == '+' || !EscapeAt(s, 0) {
        DecodedLength(s[1..]);
      } else {
        DecodedLength(s[3..]);
      }
    }
  }

  /** Input without '+' and '%' decodes to itself. */
  lemma {:induction false} DecodedPlain(s: Bytes)
    requires '+' !in s && '%' !in s
    ensures Decoded(s) == s
    decreases |s|
  {
    if s != [] {
      assert s[0] != '+' && s[0] != '%';
      assert '+' !in s[1..] && '%' !in s[1..];
      DecodedPlain(s[1..]);
    }
  }

  /** A '%' that is not followed by two hexadecimal digits is copied. */
  lemma BadEscapeCopied(s: Bytes)
    requires s != [] && s[0] == '%' && !EscapeAt(s, 0)
    ensures Decoded(s) == "%" + Decoded(s[1..])
  {
  }
}
