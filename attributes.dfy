/**
 * The attribute scan inside a start tag, which all three scanner
 * revisions share (include/xstream.h 523-582, xstream.h 319-373,
 * xstream.cpp 165-219). The revisions differ only in how an attribute
 * value ends: in the two headers a quoted value ends only at its closing
 * quote, in xstream.cpp also at white space, '>' or '/'.
 */
module Attributes {
  import opened ByteText

  /** A recorded attribute: the raw key and value spans. */
  datatype Attr = Attr(key: Bytes, value: Bytes)

  /** Whether byte c ends an attribute value whose opening quote was
      quote ('\0' when the value is unquoted). quoteAware selects the rule
      of the two headers; otherwise the rule of xstream.cpp applies. */
  predicate EndsValue(c: Byte, quote: Byte, quoteAware: bool)
  {
    if quoteAware then
      (if quote != '\0' then c == quote else IsSpace(c) || c == '>' || c == '/')
    else
      c == quote || IsSpace(c) || c == '>' || c == '/'
  }

  /** A byte that stops the search for '=' without recording anything. */
  predicate EndsName(c: Byte)
  {
    IsSpace(c) || c == '>' || c == '/'
  }

  /** The value span from eq + 1 to right, without its quotes when the
      span starts and ends with the quote byte and is longer than one. */
  function ValueSpan(buf: Bytes, eq: nat, right: nat, quote: Byte): (v: Bytes)
    requires eq < right <= |buf|
    ensures |v| <= right - eq - 1
  {
    var left := eq + 1;
    if left + 1 < right && buf[left] == quote && buf[right - 1] == quote
    then buf[left + 1..right - 1]
    else buf[left..right]
  }

  /** The inner loop over one attribute, from cursor p: the cursor where
      it stops and the attribute it records, if any. eq is the position of
      the '=' once seen, quote the opening quote after it. */
  function AttrScan(buf: Bytes, left: nat, p: nat, eq: Option<nat>, quote: Byte, quoteAware: bool)
    : (r: (nat, Option<Attr>))
    requires left <= p <= |buf|
    requires eq.Some? ==> left <= eq.value < p
    ensures p <= r.0 <= |buf|
    decreases |buf| - p
  {
    if p == |buf| then (p, Nothing)
    else if eq.Nothing? then
      if buf[p] == '=' then
        var q := p + 1;
        if q < |buf| && (buf[q] == '\'' || buf[q] == '"')
        then AttrScan(buf, left, q + 1, Some(p), buf[q], quoteAware)
        else AttrScan(buf, left, q, Some(p), quote, quoteAware)
      else if EndsName(buf[p]) then (p, Nothing)
      else AttrScan(buf, left, p + 1, eq, quote, quoteAware)
    else if EndsValue(buf[p], quote, quoteAware) then
      var right := if buf[p] == quote then p + 1 else p;
      (right, Some(Attr(buf[left..eq.value], ValueSpan(buf, eq.value, right, quote))))
    else AttrScan(buf, left, p + 1, eq, quote, quoteAware)
  }

  /** Where the scan of an attribute whose name starts at left begins: two
      bytes further on, before anything is tested. */
  function AttrStart(buf: Bytes, left: nat): nat
  {
    Min(left + 2, |buf|)
  }

  /** The outer loop over a tag's attributes from cursor p, appending what
      it records to atts. start is the byte after '<' ('/' for an end tag,
      whose attributes are not scanned). */
  function AttrsScan(buf: Bytes, p: nat, start: Byte, quoteAware: bool, atts: seq<Attr>)
    : (r: (nat, seq<Attr>))
    requires p <= |buf|
    ensures p <= r.0 <= |buf|
    ensures |atts| <= |r.1| && r.1[..|atts|] == atts
    decreases |buf| - p
  {
    if p < |buf| && IsSpace(buf[p]) then
      var q := SkipSpaces(buf, p + 1);
      if start != '/' && q < |buf| && IsSymF(buf[q]) then
        var s := AttrScan(buf, q, AttrStart(buf, q), Nothing, '\0', quoteAware);
        var atts' := if s.1.Some? then atts + [s.1.value] else atts;
        var r := AttrsScan(buf, s.0, start, quoteAware, atts');
        assert r.1[..|atts|] == r.1[..|atts'|][..|atts|];
        r
      else (q, atts)
    else (p, atts)
  }

  /** The attributes of a tag whose name ends at p, and where the scan stops. */
  function TagAttributes(buf: Bytes, p: nat, start: Byte, quoteAware: bool): (r: (nat, seq<Attr>))
    requires p <= |buf|
    ensures p <= r.0 <= |buf|
  {
    AttrsScan(buf, p, start, quoteAware, [])
  }

  /** The inner loop: scans one attribute whose name starts at left. */
  method ScanAttribute(buf: Bytes, left: nat, quoteAware: bool) returns (p: nat, att: Option<Attr>)
    requires left < |buf|
    ensures (p, att) == AttrScan(buf, left, AttrStart(buf, left), Nothing, '\0', quoteAware)
  {
    p := Min(left + 2, |buf|);
    var eq: Option<nat> := Nothing;
    var quote: Byte := '\0';
    att := Nothing;
    while p < |buf|
      invariant left <= p <= |buf|
      invariant eq.Some? ==> left <= eq.value < p
      invariant AttrScan(buf, left, p, eq, quote, quoteAware)
        == AttrScan(buf, left, AttrStart(buf, left), Nothing, '\0', quoteAware)
      decreases |buf| - p
    {
      if eq.Nothing? {
        if buf[p] == '=' {
          eq := Some(p);
          p := p + 1;
          if p < |buf| {
            var q := buf[p];
            if q == '\'' || q == '"' {
              quote := q;
              p := p + 1;
            }
          }
        } else if IsSpace(buf[p]) || buf[p] == '>' || buf[p] == '/' {
          break;
        } else {
          p := p + 1;
        }
      } else if EndsValue(buf[p], quote, quoteAware) {
        if buf[p] == quote {
          p := p + 1;
        }
        var l, r := TrimQuotes(buf, eq.value, p, quote);
        att := Some(Attr(buf[left..eq.value], buf[l..r]));
        break;
      } else {
        p := p + 1;
      }
    }
  }

  /** The bounds of the value after the '=' at eq, up to right, with a pair
      of enclosing quotes dropped. */
  method TrimQuotes(buf: Bytes, eq: nat, right: nat, quote: Byte) returns (l: nat, r: nat)
    requires eq < right <= |buf|
    ensures l <= r <= |buf| && buf[l..r] == ValueSpan(buf, eq, right, quote)
  {
    l, r := eq + 1, right;
    if l + 1 < r && buf[l] == quote && buf[r - 1] == quote {
      l, r := l + 1, r - 1;
    }
  }

  /** The outer loop: scans the attributes of a tag whose name ends at p0. */
  method ScanAttributes(buf: Bytes, p0: nat, start: Byte, quoteAware: bool) returns (p: nat, atts: seq<Attr>)
    requires p0 <= |buf|
    ensures (p, atts) == TagAttributes(buf, p0, start, quoteAware)
  {
    p := p0;
    atts := [];
    while p < |buf| && IsSpace(buf[p])
      invariant p0 <= p <= |buf|
      invariant AttrsScan(buf, p, start, quoteAware, atts) == AttrsScan(buf, p0, start, quoteAware, [])
      decreases |buf| - p
    {
      ghost var before := p;
      p := p + 1;
      p := SkipSpacesLoop(buf, p);
      if start != '/' && p < |buf| && IsSymF(buf[p]) {
        var att;
        p, att := ScanAttribute(buf, p, quoteAware);
        if att.Some? {
          atts := atts + [att.value];
        }
      } else {
        break;
      }
    }
  }

  // ---------------------------------------------------------------------
  // Properties

  /** An attribute is recorded only once an '=' has been seen: whatever the
      inner loop records has the bytes from its name start up to that '='
      as its key, and the scan ends past the '='. */
  lemma {:induction false} RecordedAfterEquals(buf: Bytes, left: nat, p: nat, eq: Option<nat>, quote: Byte, quoteAware: bool)
    requires left <= p <= |buf|
    requires eq.Some? ==> left <= eq.value < p && buf[eq.value] == '='
    ensures var r := AttrScan(buf, left, p, eq, quote, quoteAware);
      r.1.Some? ==> exists e :: left <= e < r.0 && buf[e] == '=' && r.1.value.key == buf[left..e]
    decreases |buf| - p
  {
    var r := AttrScan(buf, left, p, eq, quote, quoteAware);
    if p < |buf| {
      if eq.Nothing? {
        if buf[p] == '=' {
          var q := p + 1;
          if q < |buf| && (buf[q] == '\'' || buf[q] == '"') {
            RecordedAfterEquals(buf, left, q + 1, Some(p), buf[q], quoteAware);
          } else {
            RecordedAfterEquals(buf, left, q, Some(p), quote, quoteAware);
          }
        } else if !EndsName(buf[p]) {
          RecordedAfterEquals(buf, left, p + 1, eq, quote, quoteAware);
        }
      } else if EndsValue(buf[p], quote, quoteAware) {
        assert buf[eq.value] == '=';
      } else {
        RecordedAfterEquals(buf, left, p + 1, eq, quote, quoteAware);
      }
    }
  }

  /** A name that reaches white space, '>', '/' or the end of the buffer
      before any '=' records nothing: `<a selected>` keeps no attribute. */
  lemma {:induction false} NoEqualsRecordsNothing(buf: Bytes, left: nat, p: nat, k: nat, quote: Byte, quoteAware: bool)
    requires left <= p <= k <= |buf|
    requires forall j :: p <= j < k ==> buf[j] != '=' && !EndsName(buf[j])
    requires k == |buf| || EndsName(buf[k])
    ensures AttrScan(buf, left, p, Nothing, quote, quoteAware) == (k, Nothing)
    decreases k - p
  {
    if p < k {
      NoEqualsRecordsNothing(buf, left, p + 1, k, quote, quoteAware);
    }
  }

  /** A value in quotes q, scanned by the rule of the two headers: it runs
      to the next q, whatever lies between, and is recorded without its
      quotes; the scan resumes after the closing quote. */
  lemma QuotedValueInHeaders(buf: Bytes, left: nat, e: nat, q: Byte)
    requires left <= e && e + 1 < |buf| && buf[e] == '=' && buf[e + 1] == q
    requires q == '"' || q == '\''
    requires IndexFrom(buf, e + 2, q) < |buf|
    ensures var k := IndexFrom(buf, e + 2, q);
      AttrScan(buf, left, e, Nothing, '\0', true) == (k + 1, Some(Attr(buf[left..e], buf[e + 2..k])))
  {
    var k := IndexFrom(buf, e + 2, q);
    IndexFromIsFirst(buf, e + 2, q);
    QuotedRun(buf, left, e, e + 2, k, q);
  }

  lemma {:induction false} QuotedRun(buf: Bytes, left: nat, e: nat, p: nat, k: nat, q: Byte)
    requires left <= e < p <= k < |buf| && buf[e] == '=' && buf[e + 1] == q && buf[k] == q
    requires q == '"' || q == '\''
    requires p >= e + 2
    requires forall j :: p <= j < k ==> buf[j] != q
    ensures AttrScan(buf, left, p, Some(e), q, true) == (k + 1, Some(Attr(buf[left..e], buf[e + 2..k])))
    ensures p == e + 2 ==> AttrScan(buf, left, e, Nothing, '\0', true) == AttrScan(buf, left, p, Some(e), q, true)
    decreases k - p
  {
    if p < k {
      QuotedRun(buf, left, e, p + 1, k, q);
    }
  }

  /** Under the rule of xstream.cpp a quoted value ends at the first byte
      that is its quote, white space, '>' or '/'. Only when that byte is
      the closing quote are the quotes stripped; otherwise the opening
      quote stays in the value. */
  lemma QuotedValueInCpp(buf: Bytes, left: nat, e: nat, k: nat, q: Byte)
    requires left <= e && e + 2 <= k < |buf| && buf[e] == '=' && buf[e + 1] == q
    requires q == '"' || q == '\''
    requires forall j :: e + 2 <= j < k ==> !EndsValue(buf[j], q, false)
    requires EndsValue(buf[k], q, false)
    ensures buf[k] == q ==>
      AttrScan(buf, left, e, Nothing, '\0', false) == (k + 1, Some(Attr(buf[left..e], buf[e + 2..k])))
    ensures buf[k] != q ==>
      AttrScan(buf, left, e, Nothing, '\0', false) == (k, Some(Attr(buf[left..e], buf[e + 1..k])))
  {
    CppRun(buf, left, e, e + 2, k, q);
  }

  lemma {:induction false} CppRun(buf: Bytes, left: nat, e: nat, p: nat, k: nat, q: Byte)
    requires left <= e && e + 2 <= p <= k < |buf| && buf[e] == '=' && buf[e + 1] == q
    requires q == '"' || q == '\''
    requires forall j :: p <= j < k ==> !EndsValue(buf[j], q, false)
    requires EndsValue(buf[k], q, false)
    ensures AttrScan(buf, left, p, Some(e), q, false) == AttrScan(buf, left, k, Some(e), q, false)
    ensures p == e + 2 ==> AttrScan(buf, left, e, Nothing, '\0', false) == AttrScan(buf, left, p, Some(e), q, false)
    decreases k - p
  {
    if p < k {
      CppRun(buf, left, e, p + 1, k, q);
    }
  }

  /** The name scan starts two bytes after the name's first byte, so a
      one-letter attribute is never recorded, while a two-letter one is:
      in ` a="1" bc="2">` only bc is kept. */
  lemma SingleLetterNamesAreSkipped()
    ensures TagAttributes(" a=\"1\" bc=\"2\">", 0, '\0', true).1 == [Attr("bc", "2")]
  {
    var buf: Bytes := " a=\"1\" bc=\"2\">";
    assert SkipSpaces(buf, 1) == 1;
    var s := AttrScan(buf, 1, 3, Nothing, '\0', true);
    assert s == (6, Nothing);
    assert SkipSpaces(buf, 7) == 7;
    assert AttrScan(buf, 7, 12, Some(9), '"', true) == (13, Some(Attr(buf[7..9], buf[11..12])));
    assert AttrScan(buf, 7, 9, Nothing, '\0', true) == AttrScan(buf, 7, 11, Some(9), '"', true);
    assert buf[7..9] == "bc" && buf[11..12] == "2";
  }

  // ---------------------------------------------------------------------
  // Lookup

  /** The first attribute with the given key (the loop in attribute, 709-719). */
  function Lookup(atts: seq<Attr>, key: Bytes): Option<Bytes>
  {
    if atts == [] then Nothing
    else if atts[0].key == key then Some(atts[0].value)
    else Lookup(atts[1..], key)
  }

  /** Lookup finds a key exactly when some attribute has it, and then
      returns the value of the first such attribute. */
  lemma {:induction false} LookupFirst(atts: seq<Attr>, key: Bytes)
    ensures Lookup(atts, key).Nothing? <==> forall i :: 0 <= i < |atts| ==> atts[i].key != key
    ensures Lookup(atts, key).Some? ==>
      exists i :: 0 <= i < |atts| && atts[i].key == key && atts[i].value == Lookup(atts, key).value
        && forall j :: 0 <= j < i ==> atts[j].key != key
  {
    if atts != [] && atts[0].key != key {
      LookupFirst(atts[1..], key);
      if Lookup(atts, key).Some? {
        var i :| 0 <= i < |atts[1..]| && atts[1..][i].key == key && atts[1..][i].value == Lookup(atts, key).value
          && forall j :: 0 <= j < i ==> atts[1..][j].key != key;
        assert forall j :: 0 <= j < i + 1 ==> atts[j].key != key by {
          forall j | 0 <= j < i + 1
            ensures atts[j].key != key
          {
            if j > 0 {
              assert atts[j] == atts[1..][j - 1];
            }
          }
        }
        assert atts[i + 1] == atts[1..][i];
      } else {
        forall i | 0 <= i < |atts|
          ensures atts[i].key != key
        {
          if i > 0 {
            assert atts[i] == atts[1..][i - 1];
          }
        }
      }
    }
  }
}
