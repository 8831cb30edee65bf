/**
 * The entity codec of the root xstream.h: encode_html_string writes the
 * five predefined entities of XML 1.0 section 4.6, backslash escapes for
 * five control bytes and decimal references for every other non-printable
 * byte; decode_html_string decodes only the five entity names and drops
 * every other reference. The reader in module XStream decodes text and
 * attribute values with it.
 */
module XStreamCodec {
  import opened ByteText
  import opened CStrings

  // ---------------------------------------------------------------------
  // encode_html_string (27-90)

  const Backspace: Byte := 8 as char
  const FormFeed: Byte := 12 as char

  /** What encode_html_string writes for one byte. */
  function EscapeByte(c: Byte): Bytes
  {
    if c == '&' then "&amp;"
    else if c == '<' then "&lt;"
    else if c == '>' then "&gt;"
    else if c == '"' then "&quot;"
    else if c == '\'' then "&apos;"
    else if c == Backspace then "\\b"
    else if c == FormFeed then "\\f"
    else if c == '\n' then "\\n"
    else if c == '\r' then "\\r"
    else if c == '\t' then "\\t"
    else if IsPrint(c) then [c]
    else "&#" + Decimal(c as int) + ";"
  }

  function Escaped(s: Bytes): Bytes
  {
    if s == [] then [] else EscapeByte(s[0]) + Escaped(s[1..])
  }

  lemma EscapedStep(s: Bytes, p: nat)
    requires p < |s|
    ensures Escaped(s[p..]) == EscapeByte(s[p]) + Escaped(s[p + 1..])
  {
    assert s[p..][1..] == s[p + 1..];
  }

  method EncodeHtmlString(s: Bytes) returns (r: Bytes)
    ensures r == Escaped(s)
  {
    r := [];
    var ptr := 0;
    while ptr < |s|
      invariant ptr <= |s|
      invariant r + Escaped(s[ptr..]) == Escaped(s)
      decreases |s| - ptr
    {
      var e := EscapeByte(s[ptr]);
      EscapedStep(s, ptr);
      assert (r + e) + Escaped(s[ptr + 1..]) == r + (e + Escaped(s[ptr + 1..]));
      r := r + e;
      ptr := ptr + 1;
    }
    assert s[ptr..] == [];
  }

  // ---------------------------------------------------------------------
  // decode_html_string (145-181)

  /** The byte an entity name stands for: only the five exact names count. */
  function EntityChar(t: Bytes): (r: Bytes)
    ensures |r| <= 1
    ensures r != [] <==> t in {"amp", "lt", "gt", "quot", "apos"}
  {
    if t == "amp" then "&"
    else if t == "lt" then "<"
    else if t == "gt" then ">"
    else if t == "quot" then "\""
    else if t == "apos" then "'"
    else []
  }

  /** decode_html_string: after '&' the name runs to the next ';' or the
      end of the range, and the cursor moves past the ';'. */
  function Unescaped(s: Bytes): Bytes
    decreases |s|
  {
    if s == [] then []
    else if s[0] == '&' then
      var n := IndexFrom(s, 1, ';');
      EntityChar(s[1..n]) + (if n < |s| then Unescaped(s[n + 1..]) else [])
    else [s[0]] + Unescaped(s[1..])
  }

  /** The IsEntity lambda: compares the name with the bytes after '&' until
      the name's terminator, and then requires the name to have used up all
      n bytes before the ';'. Reading past the n bytes finds ';' or the end
      of the range, neither of which is a letter of a name. */
  method IsEntity(s: Bytes, q: nat, n: nat, name: Bytes) returns (b: bool)
    requires q + n <= |s| && ';' !in name
    requires q + n < |s| ==> s[q + n] == ';'
    ensures b <==> s[q..q + n] == name
  {
    var i := 0;
    while true
      invariant i <= |name| && i <= n
      invariant s[q..q + i] == name[..i]
      decreases |name| - i
    {
      if i == |name| {
        b := i == n;
        assert name[..i] == name;
        if !b {
          assert |s[q..q + n]| != |name|;
        }
        return;
      }
      if i == n || s[q + i] != name[i] {
        if i < n {
          assert s[q..q + n][i] == s[q + i];
        }
        return false;
      }
      assert s[q..q + i + 1] == s[q..q + i] + [s[q + i]];
      assert name[..i + 1] == name[..i] + [name[i]];
      i := i + 1;
    }
  }

  lemma UnescapeAtPlain(s: Bytes, p: nat)
    requires p < |s| && s[p] != '&'
    ensures Unescaped(s[p..]) == [s[p]] + Unescaped(s[p + 1..])
  {
    assert s[p..][0] == s[p];
    assert s[p..][1..] == s[p + 1..];
  }

  lemma UnescapeAtEntity(s: Bytes, p: nat)
    requires p < |s| && s[p] == '&'
    ensures var e := IndexFrom(s, p + 1, ';');
      e < |s| ==> Unescaped(s[p..]) == EntityChar(s[p + 1..e]) + Unescaped(s[e + 1..])
    ensures var e := IndexFrom(s, p + 1, ';');
      e == |s| ==> Unescaped(s[p..]) == EntityChar(s[p + 1..e])
  {
    var e := IndexFrom(s, p + 1, ';');
    EntitySlices(s, p);
    if e < |s| {
      UnescapeEntityHead(s[p..], e - p, s[p + 1..e], s[e + 1..]);
    } else {
      UnescapeEntityHead(s[p..], e - p, s[p + 1..e], []);
    }
  }

  /** UnescapeAtEntity with the cursor moved past the ';', or to the end
      of the range when there is none. */
  lemma UnescapeAtNext(s: Bytes, p: nat, v: Bytes, next: nat)
    requires p < |s| && s[p] == '&'
    requires var e := IndexFrom(s, p + 1, ';'); v == EntityChar(s[p + 1..e]) && next == Min(e + 1, |s|)
    ensures Unescaped(s[p..]) == v + Unescaped(s[next..])
  {
    var e := IndexFrom(s, p + 1, ';');
    if e == |s| {
      assert next == |s|;
      assert s[next..] == [];
      UnescapeAtEntity(s, p);
      assert v + [] == v;
    } else {
      assert next == e + 1;
      UnescapeAtEntity(s, p);
    }
  }

  /** Where the '&' at p of s sits in the suffix s[p..]. */
  lemma EntitySlices(s: Bytes, p: nat)
    requires p < |s|
    ensures var r := s[p..]; var e := IndexFrom(s, p + 1, ';');
      IndexFrom(r, 1, ';') == e - p && r[0] == s[p] && r[1..e - p] == s[p + 1..e]
      && (e < |s| ==> r[e - p + 1..] == s[e + 1..])
  {
    IndexFromSuffix(s, p, 1, ';');
  }

  /** One step of Unescaped at an '&', given the name between the '&' and
      the ';' (or the end), and what follows the ';'. */
  lemma UnescapeEntityHead(r: Bytes, n: nat, name: Bytes, rest: Bytes)
    requires r != [] && r[0] == '&' && n == IndexFrom(r, 1, ';') && name == r[1..n]
    requires rest == if n < |r| then r[n + 1..] else []
    ensures Unescaped(r) == EntityChar(name) + (if n < |r| then Unescaped(rest) else [])
  {
  }

  /** The chain of IsEntity tests after an '&'. */
  method EntityAt(s: Bytes, q: nat, n: nat) returns (v: Bytes)
    requires q + n <= |s|
    requires q + n < |s| ==> s[q + n] == ';'
    ensures v == EntityChar(s[q..q + n])
  {
    var amp := IsEntity(s, q, n, "amp");
    var lt := IsEntity(s, q, n, "lt");
    var gt := IsEntity(s, q, n, "gt");
    var quot := IsEntity(s, q, n, "quot");
    var apos := IsEntity(s, q, n, "apos");
    if amp {
      v := "&";
    } else if lt {
      v := "<";
    } else if gt {
      v := ">";
    } else if quot {
      v := "\"";
    } else if apos {
      v := "'";
    } else {
      v := [];
    }
  }

  /** The '&' branch of that loop body: the entity's byte, if any, and
      the cursor past the ';' (the end of the range when there is none). */
  method EntityStep(s: Bytes, p: nat) returns (v: Bytes, next: nat)
    requires p < |s| && s[p] == '&'
    ensures var e := IndexFrom(s, p + 1, ';');
      v == EntityChar(s[p + 1..e]) && next == Min(e + 1, |s|)
  {
    var q := p + 1;
    var e := FindByte(s, q, ';');
    var n := e - q;
    v := EntityAt(s, q, n);
    next := Min(q + n + 1, |s|);
  }

  /** One pass of the loop body of decode_html_string at cursor p. */
  method UnescapeAt(s: Bytes, p: nat) returns (v: Bytes, next: nat)
    requires p < |s|
    ensures p < next <= |s|
    ensures Unescaped(s[p..]) == v + Unescaped(s[next..])
  {
    if s[p] == '&' {
      v, next := EntityStep(s, p);
      assert p < next <= |s|;
      UnescapeAtNext(s, p, v, next);
    } else {
      v := [s[p]];
      next := p + 1;
      UnescapeAtPlain(s, p);
    }
  }

  method DecodeHtmlString(s: Bytes) returns (r: Bytes)
    ensures r == Unescaped(s)
  {
    r := [];
    var ptr := 0;
    while ptr < |s|
      invariant ptr <= |s|
      invariant r + Unescaped(s[ptr..]) == Unescaped(s)
      decreases |s| - ptr
    {
      var v, next := UnescapeAt(s, ptr);
      assert (r + v) + Unescaped(s[next..]) == r + (v + Unescaped(s[next..]));
      r := r + v;
      ptr := next;
    }
    assert s[ptr..] == [];
  }

  // ---------------------------------------------------------------------
  // Codec properties

  /** A string without '&' is returned unchanged. */
  lemma {:induction false} UnescapeWithoutAmpersand(s: Bytes)
    requires forall k :: 0 <= k < |s| ==> s[k] != '&'
    ensures Unescaped(s) == s
    decreases |s|
  {
    if s != [] {
      UnescapeWithoutAmpersand(s[1..]);
    }
  }

  /** `&t;` stands for EntityChar(t), and decoding resumes after the ';'. */
  lemma UnescapeReference(t: Bytes, rest: Bytes)
    requires ';' !in t
    ensures Unescaped("&" + t + ";" + rest) == EntityChar(t) + Unescaped(rest)
  {
    var s := "&" + t + ";" + rest;
    IndexFromAt(s, 1, |t| + 1, ';');
    assert s[1..|t| + 1] == t;
    assert s[|t| + 2..] == rest;
  }

  /** An '&' whose name reaches the end of the range still yields its
      entity when the name is exact. */
  lemma UnescapeUnterminated(t: Bytes)
    requires ';' !in t
    ensures Unescaped("&" + t) == EntityChar(t)
  {
    var s := "&" + t;
    IndexFromAt(s, 1, |s|, ';');
    assert s[1..] == t;
  }

  /** Numeric references are not decoded: they vanish. */
  lemma NumericReferenceDropped(digits: Bytes, rest: Bytes)
    requires forall k :: 0 <= k < |digits| ==> IsDigit(digits[k])
    ensures Unescaped("&#" + digits + ";" + rest) == Unescaped(rest)
  {
    var t := "#" + digits;
    assert ';' !in t by {
      forall k | 0 <= k < |t|
        ensures t[k] != ';'
      {
        if k > 0 {
          assert t[k] == digits[k - 1];
        }
      }
    }
    assert "&#" + digits + ";" + rest == "&" + t + ";" + rest;
    UnescapeReference(t, rest);
  }

  lemma UnescapeNamed(c: Byte, t: Bytes, rest: Bytes)
    requires ';' !in t && EscapeByte(c) == "&" + t + ";" && EntityChar(t) == [c]
    ensures Unescaped(EscapeByte(c) + rest) == [c] + Unescaped(rest)
  {
    UnescapeReference(t, rest);
    assert EscapeByte(c) + rest == "&" + t + ";" + rest;
  }

  lemma UnescapeEscapedByte(c: Byte, rest: Bytes)
    requires IsPrint(c)
    ensures Unescaped(EscapeByte(c) + rest) == [c] + Unescaped(rest)
  {
    if c == '&' {
      UnescapeNamed(c, "amp", rest);
    } else if c == '<' {
      UnescapeNamed(c, "lt", rest);
    } else if c == '>' {
      UnescapeNamed(c, "gt", rest);
    } else if c == '"' {
      UnescapeNamed(c, "quot", rest);
    } else if c == '\'' {
      UnescapeNamed(c, "apos", rest);
    } else {
      assert EscapeByte(c) + rest == [c] + rest;
      assert ([c] + rest)[1..] == rest;
    }
  }

  /** For printable ASCII the codec round-trips. */
  lemma {:induction false} PrintableRoundTrip(s: Bytes)
    requires forall k :: 0 <= k < |s| ==> IsPrint(s[k])
    ensures Unescaped(Escaped(s)) == s
    decreases |s|
  {
    if s != [] {
      UnescapeEscapedByte(s[0], Escaped(s[1..]));
      PrintableRoundTrip(s[1..]);
    }
  }

  /** Outside printable ASCII it does not: a line break comes back as a
      backslash and an 'n', and a control byte is lost. */
  lemma ControlBytesDoNotRoundTrip()
    ensures Unescaped(Escaped("\n")) == "\\n"
    ensures Unescaped(Escaped([1 as char])) == []
  {
    assert Escaped("\n") == "\\n";
    UnescapeWithoutAmpersand("\\n");
    assert Decimal(1) == "1";
    assert Escaped([1 as char]) == "&#1;";
    NumericReferenceDropped("1", []);
    assert "&#" + "1" + ";" + [] == "&#1;";
  }
}
