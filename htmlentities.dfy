/**
 * The entity codec of include/xstream.h: html_encode_ / html_encode escape
 * the five predefined entities of XML 1.0 section 4.6 and write other
 * unsafe bytes as decimal character references (section 4.1);
 * html_decode_ / html_decode reverse them. The reader decodes text and
 * attribute values with it, and the writer escapes with it.
 */
module HtmlEntities {
  import opened ByteText

  // ---------------------------------------------------------------------
  // Encoding

  /** What html_encode_ writes for one byte c. */
  function EncodeByte(c: Byte, utf8through: bool): Bytes
  {
    if c == '&' then "&amp;"
    else if c == '<' then "&lt;"
    else if c == '>' then "&gt;"
    else if c == '"' then "&quot;"
    else if c == '\'' then "&apos;"
    else if c == '\t' || c == '\n' then [c]
    else if (if c as int < 0x80 then c as int < 0x20 || c == '\'' else !utf8through)
    then "&#" + Decimal(c as int) + ";"
    else [c]
  }

  /** html_encode_ applied to a whole range. */
  function EncodeAll(s: Bytes, utf8through: bool): Bytes
  {
    if s == [] then [] else EncodeByte(s[0], utf8through) + EncodeAll(s[1..], utf8through)
  }

  /** A byte at which html_encode stops copying unchanged: white space,
      one of &<>"', or NUL (strchr also finds the string's terminator). */
  predicate StopsCopy(c: Byte)
  {
    IsSpace(c) || c == '&' || c == '<' || c == '>' || c == '"' || c == '\'' || c == '\0'
  }

  /** First index at or after p holding a byte that stops the copy. */
  function CopyEnd(s: Bytes, p: nat): (r: nat)
    requires p <= |s|
    ensures p <= r <= |s|
    ensures r < |s| ==> StopsCopy(s[r])
    ensures forall k :: p <= k < r ==> !StopsCopy(s[k])
    decreases |s| - p
  {
    if p < |s| && !StopsCopy(s[p]) then CopyEnd(s, p + 1) else p
  }

  /** html_encode: the bytes before the first stopping byte are copied as
      they are, the rest is encoded by html_encode_. */
  function HtmlEncoded(s: Bytes, utf8through: bool): Bytes
  {
    var k := CopyEnd(s, 0);
    if k == |s| then s else s[..k] + EncodeAll(s[k..], utf8through)
  }

  /** html_encode_(s + lo, s + |s|, utf8through, vec). */
  method EncodeInto(s: Bytes, lo: nat, utf8through: bool, vec: Bytes) returns (out: Bytes)
    requires lo <= |s|
    ensures out == vec + EncodeAll(s[lo..], utf8through)
  {
    out := vec;
    var ptr := lo;
    while ptr < |s|
      invariant lo <= ptr <= |s|
      invariant out + EncodeAll(s[ptr..], utf8through) == vec + EncodeAll(s[lo..], utf8through)
      decreases |s| - ptr
    {
      EncodeIntoStep(out, s, ptr, utf8through);
      out := out + EncodeByte(s[ptr], utf8through);
      ptr := ptr + 1;
    }
  }

  /** One pass of html_encode_'s loop: appending the byte's encoding
      leaves what the output and the rest's encoding make together. */
  lemma EncodeIntoStep(out: Bytes, s: Bytes, p: nat, utf8through: bool)
    requires p < |s|
    ensures out + EncodeAll(s[p..], utf8through)
      == (out + EncodeByte(s[p], utf8through)) + EncodeAll(s[p + 1..], utf8through)
  {
    EncodeAllStep(s, p, utf8through);
  }

  lemma EncodeAllStep(s: Bytes, p: nat, utf8through: bool)
    requires p < |s|
    ensures EncodeAll(s[p..], utf8through) == EncodeByte(s[p], utf8through) + EncodeAll(s[p + 1..], utf8through)
  {
    assert s[p..][1..] == s[p + 1..];
  }

  /** html_encode(str, utf8through). */
  method HtmlEncode(str: Bytes, utf8through: bool) returns (r: Bytes)
    ensures r == HtmlEncoded(str, utf8through)
  {
    var ptr := 0;
    while ptr < |str|
      invariant ptr <= |str|
      invariant CopyEnd(str, ptr) == CopyEnd(str, 0)
      decreases |str| - ptr
    {
      var c := str[ptr];
      if IsSpace(c) || c == '&' || c == '<' || c == '>' || c == '"' || c == '\'' || c == '\0' {
        break;
      }
      ptr := ptr + 1;
    }
    if ptr == |str| {
      return str;
    }
    r := EncodeInto(str, ptr, utf8through, str[..ptr]);
  }

  // ---------------------------------------------------------------------
  // Decoding

  /** The bytes that a reference `&t;` stands for: a reference starting
      with '#' gives the low byte of atoi of the rest, one of the five
      predefined names gives its character, any other name gives nothing. */
  function EntityValue(t: Bytes): Bytes
  {
    if |t| > 0 && t[0] == '#' then [LowByte(Atoi(t[1..]))]
    else if t == "amp" then "&"
    else if t == "lt" then "<"
    else if t == "gt" then ">"
    else if t == "quot" then "\""
    else if t == "apos" then "'"
    else []
  }

  /** One pass of html_decode_'s loop at the start of s: the bytes it
      appends, and how far the cursor moves. The ';' that closes a
      reference is looked for with strchr, which also stops at a NUL; when
      it finds no ';' the loop breaks, which is a move to the end. */
  function DecodeHead(s: Bytes): (r: (Bytes, nat))
    requires s != []
    ensures 0 < r.1 <= |s|
  {
    if s[0] == '&' then
      var next := StrChrFrom(s, 1, ';');
      if next == |s| || s[next] != ';' then ([], |s|) else (EntityValue(s[1..next]), next + 1)
    else ([s[0]], 1)
  }

  /** html_decode_ over a whole range. */
  function Decoded(s: Bytes): Bytes
    decreases |s|
  {
    if s == [] then [] else DecodeHead(s).0 + Decoded(s[DecodeHead(s).1..])
  }

  /** After a move to the end nothing more is appended. */
  lemma DecodedEnd(s: Bytes, v: Bytes)
    requires s != [] && DecodeHead(s) == (v, |s|)
    ensures Decoded(s) == v
  {
    assert s[|s|..] == [];
  }

  /** One pass read on the whole buffer: the pass at cursor p moves it to
      next, and decoding resumes there. */
  lemma DecodeAtStep(s: Bytes, p: nat, v: Bytes, next: nat)
    requires p < |s| && p < next <= |s| && DecodeHead(s[p..]) == (v, next - p)
    ensures Decoded(s[p..]) == v + Decoded(s[next..])
  {
    assert s[p..][next - p..] == s[next..];
  }

  /** What a pass at cursor p does, stated on the whole buffer. */
  lemma DecodeHeadAt(s: Bytes, p: nat)
    requires p < |s|
    ensures s[p] != '&' ==> DecodeHead(s[p..]) == ([s[p]], 1)
    ensures s[p] == '&' ==> var semi := StrChrFrom(s, p + 1, ';');
      DecodeHead(s[p..]) ==
        if semi == |s| || s[semi] != ';' then ([], |s| - p) else (EntityValue(s[p + 1..semi]), semi + 1 - p)
  {
    var r := s[p..];
    assert r[0] == s[p];
    if s[p] == '&' {
      StrChrFromSuffix(s, p, 1, ';');
      var semi := StrChrFrom(s, p + 1, ';');
      if semi < |s| {
        assert r[semi - p] == s[semi];
        assert r[1..semi - p] == s[p + 1..semi];
      }
    }
  }

  lemma DecodeAtPlain(s: Bytes, p: nat)
    requires p < |s| && s[p] != '&'
    ensures Decoded(s[p..]) == [s[p]] + Decoded(s[p + 1..])
  {
    DecodeHeadAt(s, p);
    DecodeAtStep(s, p, [s[p]], p + 1);
  }

  /** One pass of html_decode_'s loop body at cursor ptr: the bytes it
      appends and where the cursor goes next (the end of the range when
      strchr finds no ';' after an '&' and the loop breaks). */
  method DecodeAt(s: Bytes, ptr: nat) returns (v: Bytes, next: nat)
    requires ptr < |s|
    ensures ptr < next <= |s|
    ensures Decoded(s[ptr..]) == v + Decoded(s[next..])
  {
    var c := s[ptr];
    if c == '&' {
      var semi := FindChr(s, ptr + 1, ';');
      if semi == |s| || s[semi] != ';' {
        v, next := [], |s|;
      } else {
        v, next := EntityValue(s[ptr + 1..semi]), semi + 1;
      }
    } else {
      v, next := [c], ptr + 1;
    }
    DecodeHeadAt(s, ptr);
    DecodeAtStep(s, ptr, v, next);
  }

  /** html_decode_(s + lo, s + |s|, vec). */
  method DecodeInto(s: Bytes, lo: nat, vec: Bytes) returns (out: Bytes)
    requires lo <= |s|
    ensures out == vec + Decoded(s[lo..])
  {
    out := vec;
    var ptr := lo;
    ghost var goal := vec + Decoded(s[lo..]);
    while ptr < |s|
      invariant lo <= ptr <= |s|
      invariant out + Decoded(s[ptr..]) == goal
      decreases |s| - ptr
    {
      var v, next := DecodeAt(s, ptr);
      assert (out + v) + Decoded(s[next..]) == out + (v + Decoded(s[next..]));
      out := out + v;
      ptr := next;
    }
    assert s[ptr..] == [];
  }

  /** html_decode(str): copies the bytes before the first '&' and decodes the rest. */
  method HtmlDecode(str: Bytes) returns (r: Bytes)
    ensures r == Decoded(str)
  {
    var ptr := 0;
    DecodeSplitEnds(str);
    while ptr < |str|
      invariant ptr <= |str|
      invariant str[..ptr] + Decoded(str[ptr..]) == Decoded(str)
      decreases |str| - ptr
    {
      var c := str[ptr];
      if c == '&' {
        break;
      }
      DecodeKeepsPrefix(str, ptr);
      ptr := ptr + 1;
    }
    if ptr == |str| {
      return str;
    }
    r := DecodeInto(str, ptr, str[..ptr]);
  }

  /** The copied prefix grows by one byte that is not '&'. */
  lemma DecodeKeepsPrefix(s: Bytes, p: nat)
    requires p < |s| && s[p] != '&'
    ensures s[..p] + Decoded(s[p..]) == s[..p + 1] + Decoded(s[p + 1..])
  {
    DecodeAtPlain(s, p);
    assert (s[..p] + [s[p]]) + Decoded(s[p + 1..]) == s[..p] + ([s[p]] + Decoded(s[p + 1..]));
    assert s[..p + 1] == s[..p] + [s[p]];
  }

  /** The ends of HtmlDecode's loop: nothing copied yet, everything copied. */
  lemma DecodeSplitEnds(s: Bytes)
    ensures s[..0] + Decoded(s[0..]) == Decoded(s)
    ensures s[..|s|] + Decoded(s[|s|..]) == s
  {
    assert s[..0] == [] && s[0..] == s;
    assert s[..|s|] == s && s[|s|..] == [];
  }

  // ---------------------------------------------------------------------
  // Properties

  /** A stretch without '&' is copied by html_decode_. */
  lemma {:induction false} DecodePlainPrefix(a: Bytes, b: Bytes)
    requires forall k :: 0 <= k < |a| ==> a[k] != '&'
    ensures Decoded(a + b) == a + Decoded(b)
    decreases |a|
  {
    if a != [] {
      var ab := a + b;
      assert ab[0] == a[0] && ab[1..] == a[1..] + b;
      DecodePlainHead(ab);
      DecodePlainPrefix(a[1..], b);
      assert ([a[0]] + a[1..]) + Decoded(b) == [a[0]] + (a[1..] + Decoded(b));
      assert [a[0]] + a[1..] == a;
    } else {
      assert a + b == b;
    }
  }

  lemma DecodePlainHead(s: Bytes)
    requires s != [] && s[0] != '&'
    ensures Decoded(s) == [s[0]] + Decoded(s[1..])
  {
  }

  /** html_decode returns a string without '&' unchanged. */
  lemma DecodeWithoutAmpersand(s: Bytes)
    requires forall k :: 0 <= k < |s| ==> s[k] != '&'
    ensures Decoded(s) == s
  {
    DecodePlainPrefix(s, []);
    assert s + [] == s;
  }

  /** A complete reference `&t;` after a plain stretch a: a is copied, the
      reference gives EntityValue(t), and decoding resumes after the ';'. */
  lemma DecodeReference(a: Bytes, t: Bytes, b: Bytes)
    requires forall k :: 0 <= k < |a| ==> a[k] != '&'
    requires forall k :: 0 <= k < |t| ==> t[k] != ';' && t[k] != '\0'
    ensures Decoded(a + ("&" + t + ";") + b) == a + EntityValue(t) + Decoded(b)
  {
    var x := "&" + t + ";" + b;
    assert a + ("&" + t + ";") + b == a + x;
    DecodePlainPrefix(a, x);
    DecodeLeadingReference(t, b);
    assert (a + EntityValue(t)) + Decoded(b) == a + (EntityValue(t) + Decoded(b));
  }

  lemma DecodeLeadingReference(t: Bytes, b: Bytes)
    requires forall k :: 0 <= k < |t| ==> t[k] != ';' && t[k] != '\0'
    ensures Decoded("&" + t + ";" + b) == EntityValue(t) + Decoded(b)
  {
    var x := "&" + t + ";" + b;
    assert x[0] == '&';
    StrChrFromAt(x, 1, |t| + 1, ';');
    assert x[1..|t| + 1] == t;
    assert DecodeHead(x) == (EntityValue(t), |t| + 2);
    assert x[|t| + 2..] == b;
  }

  /** An '&' with neither ';' nor NUL anywhere after it ends the output. */
  lemma DecodeUnterminated(a: Bytes, b: Bytes)
    requires forall k :: 0 <= k < |a| ==> a[k] != '&'
    requires forall k :: 0 <= k < |b| ==> b[k] != ';' && b[k] != '\0'
    ensures Decoded(a + "&" + b) == a
  {
    var x := "&" + b;
    assert a + "&" + b == a + x;
    DecodePlainPrefix(a, x);
    StrChrFromAt(x, 1, |x|, ';');
    DecodedEnd(x, []);
  }

  /** A NUL after an '&' and before any ';' ends the output, whatever
      follows the NUL, a later ';' included. */
  lemma DecodeStopsAtNul(a: Bytes, t: Bytes, b: Bytes)
    requires forall k :: 0 <= k < |a| ==> a[k] != '&'
    requires forall k :: 0 <= k < |t| ==> t[k] != ';' && t[k] != '\0'
    ensures Decoded(a + "&" + t + "\0" + b) == a
  {
    var x := "&" + t + "\0" + b;
    assert a + "&" + t + "\0" + b == a + x;
    DecodePlainPrefix(a, x);
    assert x[0] == '&' && x[|t| + 1] == '\0';
    StrChrFromAt(x, 1, |t| + 1, ';');
    DecodedEnd(x, []);
  }

  /** For instance, "x&\0;y" decodes to "x" and "&#6\05;" to nothing. */
  lemma DecodeNulExamples()
    ensures Decoded("x&\0;y") == "x"
    ensures Decoded("&#6\05;") == []
  {
    DecodeStopsAtNul("x", [], ";y");
    assert "x" + "&" + [] + "\0" + ";y" == "x&\0;y";
    DecodeStopsAtNul([], "#6", "5;");
    assert [] + "&" + "#6" + "\0" + "5;" == "&#6\05;";
  }

  /** The five named references, and a decimal reference to any number,
      decode to one byte: the named character, or the number's low byte. */
  lemma EntityValues(n: nat)
    ensures EntityValue("amp") == "&" && EntityValue("lt") == "<" && EntityValue("gt") == ">"
    ensures EntityValue("quot") == "\"" && EntityValue("apos") == "'"
    ensures EntityValue("#" + Decimal(n)) == [LowByte(n)]
    ensures EntityValue("nbsp") == [] && EntityValue("") == []
  {
    var t := "#" + Decimal(n);
    assert t[1..] == Decimal(n);
    AtoiDecimal(n);
  }

  /** Decoding never lengthens its input: every reference is at least two
      bytes long and gives at most one. */
  lemma {:induction false} DecodeNotLonger(s: Bytes)
    ensures |Decoded(s)| <= |s|
    decreases |s|
  {
    if s != [] {
      var (v, n) := DecodeHead(s);
      DecodeNotLonger(s[n..]);
      assert |v| <= n by {
        if s[0] == '&' && n < |s| {
          assert n >= 2 && |v| <= 1;
        }
      }
    }
  }

  lemma DecodeOneReference(t: Bytes, c: Byte, rest: Bytes)
    requires forall k :: 0 <= k < |t| ==> t[k] != ';' && t[k] != '\0'
    requires EntityValue(t) == [c]
    ensures Decoded("&" + t + ";" + rest) == [c] + Decoded(rest)
  {
    DecodeReference([], t, rest);
    assert [] + ("&" + t + ";") + rest == "&" + t + ";" + rest;
  }

  lemma DecodeNamedEncoding(c: Byte, utf8through: bool, rest: Bytes)
    requires c == '&' || c == '<' || c == '>' || c == '"' || c == '\''
    ensures Decoded(EncodeByte(c, utf8through) + rest) == [c] + Decoded(rest)
  {
    var e := EncodeByte(c, utf8through);
    EntityValues(0);
    var t := if c == '&' then "amp" else if c == '<' then "lt" else if c == '>' then "gt"
      else if c == '"' then "quot" else "apos";
    assert e == "&" + t + ";";
    DecodeOneReference(t, c, rest);
  }

  lemma DecodeNumericEncoding(c: Byte, utf8through: bool, rest: Bytes)
    requires EncodeByte(c, utf8through) == "&#" + Decimal(c as int) + ";"
    ensures Decoded(EncodeByte(c, utf8through) + rest) == [c] + Decoded(rest)
  {
    var t := "#" + Decimal(c as int);
    assert "&#" + Decimal(c as int) + ";" == "&" + t + ";";
    EntityValues(c as int);
    assert LowByte(c as int) == c;
    DecodeOneReference(t, c, rest);
  }

  /** One encoded byte decodes back to that byte, whatever follows it. */
  lemma DecodeEncodedByte(c: Byte, utf8through: bool, rest: Bytes)
    ensures Decoded(EncodeByte(c, utf8through) + rest) == [c] + Decoded(rest)
  {
    var e := EncodeByte(c, utf8through);
    if c == '&' || c == '<' || c == '>' || c == '"' || c == '\'' {
      DecodeNamedEncoding(c, utf8through, rest);
    } else if e == [c] {
      DecodePlainPrefix(e, rest);
    } else {
      DecodeNumericEncoding(c, utf8through, rest);
    }
  }

  lemma {:induction false} DecodeEncodeAll(s: Bytes, utf8through: bool)
    ensures Decoded(EncodeAll(s, utf8through)) == s
    decreases |s|
  {
    if s != [] {
      DecodeEncodedByte(s[0], utf8through, EncodeAll(s[1..], utf8through));
      DecodeEncodeAll(s[1..], utf8through);
    }
  }

  /** html_decode(html_encode(s, utf8through)) == s for every byte string
      and both settings of utf8through. */
  lemma HtmlRoundTrip(s: Bytes, utf8through: bool)
    ensures Decoded(HtmlEncoded(s, utf8through)) == s
  {
    var k := CopyEnd(s, 0);
    if k == |s| {
      DecodeWithoutAmpersand(s);
    } else {
      assert HtmlEncoded(s, utf8through) == s[..k] + EncodeAll(s[k..], utf8through);
      DecodeCopiedThenEncoded(s, k, utf8through);
    }
  }

  /** The copied prefix comes back as it is, the encoded rest decodes to
      what was encoded. */
  lemma DecodeCopiedThenEncoded(s: Bytes, k: nat, utf8through: bool)
    requires k == CopyEnd(s, 0)
    ensures Decoded(s[..k] + EncodeAll(s[k..], utf8through)) == s
  {
    var x := EncodeAll(s[k..], utf8through);
    calc {
      Decoded(s[..k] + x);
      { DecodeCopiedPrefix(s, k, x); }
      s[..k] + Decoded(x);
      { DecodeEncodeAll(s[k..], utf8through); }
      s[..k] + s[k..];
    }
    assert s[..k] + s[k..] == s;
  }

  /** The bytes before CopyEnd contain no '&', so decoding copies them. */
  lemma DecodeCopiedPrefix(s: Bytes, k: nat, x: Bytes)
    requires k == CopyEnd(s, 0)
    ensures Decoded(s[..k] + x) == s[..k] + Decoded(x)
  {
    var a := s[..k];
    assert forall i :: 0 <= i < |a| ==> !StopsCopy(a[i]);
    DecodePlainPrefix(a, x);
  }

  /** What html_encode_ writes never contains <, >, " or ', so it can stand
      inside markup and inside either kind of quoted attribute value. */
  lemma {:induction false} EncodeAllIsMarkupFree(s: Bytes, utf8through: bool)
    ensures forall i :: 0 <= i < |EncodeAll(s, utf8through)| ==>
      EncodeAll(s, utf8through)[i] !in "<>\"'"
    decreases |s|
  {
    if s != [] {
      EncodeAllIsMarkupFree(s[1..], utf8through);
      var e := EncodeByte(s[0], utf8through);
      assert forall i :: 0 <= i < |e| ==> e[i] !in "<>\"'";
    }
  }

  lemma HtmlEncodedIsMarkupFree(s: Bytes, utf8through: bool)
    ensures forall i :: 0 <= i < |HtmlEncoded(s, utf8through)| ==>
      HtmlEncoded(s, utf8through)[i] !in "<>\"'"
  {
    EncodeAllIsMarkupFree(s[CopyEnd(s, 0)..], utf8through);
  }

  /** A byte that html_encode's copy-through prefix cannot pass on wrongly:
      not one of the control bytes other than white space and NUL, and
      below 0x80 unless non-ASCII bytes pass through anyway. */
  predicate CopiesFaithfully(c: Byte, utf8through: bool)
  {
    (c as int >= 0x20 || IsSpace(c) || c == '\0') && (c as int < 0x80 || utf8through)
  }

  lemma CopiedByteIsKept(c: Byte, utf8through: bool)
    requires !StopsCopy(c) && CopiesFaithfully(c, utf8through)
    ensures EncodeByte(c, utf8through) == [c]
  {
  }

  /** html_encode agrees with html_encode_ on the whole input when every
      byte is one the copy-through prefix passes on faithfully. */
  lemma HtmlEncodedIsEncodeAll(s: Bytes, utf8through: bool)
    requires forall i :: 0 <= i < |s| ==> CopiesFaithfully(s[i], utf8through)
    ensures HtmlEncoded(s, utf8through) == EncodeAll(s, utf8through)
  {
    var k := CopyEnd(s, 0);
    if k == |s| {
      CopiedPrefixEncodes(s, 0, k, utf8through);
      assert s[0..k] == s;
    } else {
      CopiedPrefixEncodes(s, 0, k, utf8through);
      EncodeAllSplit(s, k, utf8through);
    }
  }

  /** EncodeAll over s is EncodeAll over s[..k], then over s[k..]. */
  lemma EncodeAllSplit(s: Bytes, k: nat, utf8through: bool)
    requires k <= |s|
    ensures EncodeAll(s, utf8through) == EncodeAll(s[0..k], utf8through) + EncodeAll(s[k..], utf8through)
  {
    assert s[0..k] + s[k..] == s;
    EncodeAllAppend(s[0..k], s[k..], utf8through);
  }

  lemma {:induction false} CopiedPrefixEncodes(s: Bytes, i: nat, k: nat, utf8through: bool)
    requires i <= k <= |s|
    requires forall j :: i <= j < k ==> !StopsCopy(s[j]) && CopiesFaithfully(s[j], utf8through)
    ensures EncodeAll(s[i..k], utf8through) == s[i..k]
    decreases k - i
  {
    if i < k {
      assert s[i..k][1..] == s[i + 1..k];
      CopiedByteIsKept(s[i], utf8through);
      CopiedPrefixEncodes(s, i + 1, k, utf8through);
    }
  }

  lemma {:induction false} EncodeAllAppend(a: Bytes, b: Bytes, utf8through: bool)
    ensures EncodeAll(a + b, utf8through) == EncodeAll(a, utf8through) + EncodeAll(b, utf8through)
    decreases |a|
  {
    if a != [] {
      var u := utf8through;
      assert (a + b)[1..] == a[1..] + b;
      EncodeAllAppend(a[1..], b, u);
    } else {
      assert a + b == b;
    }
  }

  /** The copy-through prefix of html_encode passes control bytes, and
      non-ASCII bytes with utf8through off, unescaped, where html_encode_
      would write a reference: "a\x01" and "\xE9" are returned unchanged. */
  lemma CopiedBytesEscapeTheEncoder()
    ensures HtmlEncoded(['a', 1 as char], true) == ['a', 1 as char]
    ensures EncodeAll(['a', 1 as char], true) == "a&#1;"
    ensures HtmlEncoded([0xE9 as char], false) == [0xE9 as char]
    ensures EncodeAll([0xE9 as char], false) == "&#233;"
  {
    assert Decimal(1) == "1";
    assert Decimal(233) == "233";
  }
}
