/**
 * The earlier reader in the root xstream.h (class xstream). Unlike the
 * reader of include/xstream.h it has no frame stack: one flat list of
 * character fragments and one attribute list belong to the last event, and
 * the current path is a string with a stack of saved paths beside it. It
 * decodes text and attribute values with the codec of module XStreamCodec.
 */
module XStream {
  import opened ByteText
  import opened Attributes
  import opened CStrings
  import opened XStreamCodec

  // ---------------------------------------------------------------------
  // Scanner state (92-117, 204-211)

  datatype StateType = None | Error | Comment | StartElement | EndElement | Characters

  datatype PartKind = TextPart | CDataPart | CommentPart

  datatype CharPart = CharPart(kind: PartKind, bytes: Bytes)

  const CDataOpen: Bytes := "<![CDATA["
  const CDataClose: Bytes := "]]>"
  const CommentOpen: Bytes := "!--"
  const CommentClose: Bytes := "-->"

  /** Cursor, start of pending text (chars_), the fragments and attributes
      of the last event, the state, the deferred end of a self-closing tag,
      the element name, the saved paths and the current path. */
  datatype Scanner = Scanner(ptr: nat, chars: Mark, parts: seq<CharPart>, atts: seq<Attr>, state: StateType,
                             nextEnd: bool, name: Bytes, paths: seq<Bytes>, path: Bytes)

  predicate Sane(buf: Bytes, s: Scanner)
  {
    s.ptr <= |buf| && (s.chars.Ptr? ==> s.chars.at <= s.ptr)
  }

  /** The state after the constructor (init, 204-211). */
  function Initial(): (s: Scanner)
    ensures s.path == "/" && s.paths == [] && s.state == None
  {
    Scanner(0, Null, [], [], None, false, [], [], "/")
  }

  /** insert_chars: empty fragments are not stored. */
  function Inserted(parts: seq<CharPart>, kind: PartKind, bytes: Bytes): seq<CharPart>
  {
    if bytes == [] then parts else parts + [CharPart(kind, bytes)]
  }

  /** The head of next(): after an EndElement the saved path comes back,
      or "/" when none is saved. */
  function Restore(s: Scanner): Scanner
  {
    if s.state != EndElement then s
    else if s.paths == [] then s.(path := "/")
    else s.(path := s.paths[|s.paths| - 1], paths := s.paths[..|s.paths| - 1])
  }

  /** The head of the loop: a fresh text start clears the fragments. */
  function Begin(s: Scanner): (r: Scanner)
    ensures r.chars.Ptr?
  {
    if s.chars.Null? then s.(parts := [], chars := Ptr(s.ptr)) else s
  }

  /** The close of a tag (374-399): an optional '/', for a '<?' tag an
      optional '?', then '>' or an error. A start tag saves the current
      path and extends it; a '<?' tag replaces it without saving. */
  function CloseTag(buf: Bytes, s: Scanner, start: Byte): Scanner
    requires Sane(buf, s) && s.chars.Ptr?
  {
    var a := s.ptr;
    var closes := a < |buf| && buf[a] == '/';
    var b := if closes then a + 1 else a;
    var c := if start == '?' && b < |buf| && buf[b] == '?' then b + 1 else b;
    var s1 := s.(nextEnd := closes || s.nextEnd);
    if c < |buf| && buf[c] == '>' then
      var s2 := s1.(ptr := c + 1, chars := Null);
      if start == '/' then s2.(state := EndElement)
      else if start == '?' then s2.(path := "/" + s.name, state := StartElement)
      else if s.paths == [] then s2.(paths := ["/"], path := "/" + s.name, state := StartElement)
      else s2.(paths := s.paths + [s.path], path := s.path + "/" + s.name, state := StartElement)
    else s1.(ptr := c, state := Error)
  }

  /** A tag from its name on (311-400). */
  function ScanTag(buf: Bytes, s: Scanner, start: Byte): Scanner
    requires Sane(buf, s) && s.chars.Ptr? && s.ptr < |buf|
    requires IsSymF(buf[s.ptr]) || buf[s.ptr] == '?'
  {
    var e := SymEnd(buf, s.ptr + 1);
    var (a, atts) := TagAttributes(buf, e, start, true);
    CloseTag(buf, s.(ptr := a, name := buf[s.ptr..e], parts := [], atts := atts), start)
  }

  /** The markup after a '<' (291-402): a comment, whose body is kept as a
      text fragment, or a tag. */
  function ScanMarkup(buf: Bytes, s: Scanner): Scanner
    requires Sane(buf, s) && s.chars.Ptr?
  {
    var p := s.ptr;
    if p + 3 < |buf| && buf[p..p + 3] == CommentOpen then
      var q := DelimFrom(buf, p + 3, CommentClose);
      s.(ptr := Min(q + 3, |buf|), parts := Inserted(s.parts, TextPart, buf[p + 3..q]), state := Comment)
    else ScanStart(buf, s.(parts := []))
  }

  /** What follows '<' when it is not a comment (304-402): '?' stays part
      of the name, while '/' and '!' are consumed. */
  function ScanStart(buf: Bytes, s: Scanner): Scanner
    requires Sane(buf, s) && s.chars.Ptr?
  {
    var p := s.ptr;
    var start: Byte := if p < |buf| && (buf[p] == '?' || buf[p] == '/' || buf[p] == '!') then buf[p] else '\0';
    var n0 := if start == '/' || start == '!' then p + 1 else p;
    if n0 < |buf| && (IsSymF(buf[n0]) || buf[n0] == '?') then ScanTag(buf, s.(ptr := n0), start)
    else s.(ptr := n0, state := Error)
  }

  /** A text run (403-425): the inner loop finds the next '<'. The run is
      reported only when it ends at "</" or "<!" after a StartElement or
      Characters event; otherwise the outer loop goes round again at the
      '<' (done is false), with the run still among the fragments. Text
      that reaches the end of the buffer ends the call with None. */
  function TextRun(buf: Bytes, s: Scanner): (r: (Scanner, bool, bool))
    requires Sane(buf, s) && s.chars.Ptr? && s.ptr < |buf| && buf[s.ptr] != '<'
    ensures !r.2 ==> s.ptr < r.0.ptr < |buf| && Sane(buf, r.0) && r.0.chars.Ptr?
  {
    var q := IndexFrom(buf, s.ptr, '<');
    if q == |buf| then (s.(ptr := q, state := None), false, true)
    else
      var s1 := s.(ptr := q, parts := Inserted(s.parts, TextPart, buf[s.chars.at..q]));
      if q + 1 < |buf| && (buf[q + 1] == '/' || buf[q + 1] == '!')
         && (s.state == StartElement || s.state == Characters)
      then (s1.(chars := Null, state := Characters), true, true)
      else (s1, false, false)
  }

  /** One pass of the while(1) loop of next() (273-429): the state it
      leaves, the call's result, and whether the call returns (done). Only a
      skipped text run goes round again. */
  function Pass(buf: Bytes, s: Scanner): (r: (Scanner, bool, bool))
    requires Sane(buf, s) && s.chars.Ptr?
    ensures !r.2 ==> s.ptr < r.0.ptr < |buf| && Sane(buf, r.0) && r.0.chars.Ptr?
  {
    var p := s.ptr;
    if s.nextEnd then (s.(nextEnd := false, state := EndElement), true, true)
    else if p + 9 < |buf| && buf[p..p + 9] == CDataOpen then (CDataSection(buf, s), true, true)
    else if p < |buf| && buf[p] == '<' then (ScanMarkup(buf, s.(ptr := p + 1)), true, true)
    else if p < |buf| then TextRun(buf, s)
    else (s.(state := None), false, true)
  }

  /** A CDATA section at the cursor: its body, up to "]]>" or the end of
      the buffer, is kept as it is in a CDataPart, and the cursor moves
      past the "]]>". */
  function CDataSection(buf: Bytes, s: Scanner): Scanner
    requires Sane(buf, s) && s.ptr + 9 < |buf|
  {
    var q := DelimFrom(buf, s.ptr + 9, CDataClose);
    s.(ptr := Min(q + 3, |buf|), chars := Null, parts := Inserted(s.parts, CDataPart, buf[s.ptr + 9..q]))
  }

  /** The while(1) loop of next() (268-430). */
  function ScanLoop(buf: Bytes, s: Scanner): (r: (Scanner, bool))
    requires Sane(buf, s) && s.chars.Ptr?
    decreases |buf| - s.ptr
  {
    var (t, more, done) := Pass(buf, s);
    if done then (t, more) else ScanLoop(buf, t)
  }

  /** next() (258-431). */
  function NextEvent(buf: Bytes, s: Scanner): (r: (Scanner, bool))
    requires Sane(buf, s)
  {
    ScanLoop(buf, Begin(Restore(s)))
  }

  // ---------------------------------------------------------------------
  // Queries (432-503)

  /** A fragment's share of text(): decoded text, CDATA as it is, nothing
      for a comment fragment (decode_html_string(parts), 182-203). */
  function PartText(p: CharPart): Bytes
  {
    match p.kind
    case TextPart => Unescaped(p.bytes)
    case CDataPart => p.bytes
    case CommentPart => []
  }

  function PartsText(parts: seq<CharPart>): Bytes
  {
    if parts == [] then [] else PartsText(parts[..|parts| - 1]) + PartText(parts[|parts| - 1])
  }

  /** text() (476-486): the name for a start or end tag, the decoded
      fragments for characters, and nothing otherwise. */
  function EventText(s: Scanner): Bytes
  {
    match s.state
    case StartElement => s.name
    case EndElement => s.name
    case Characters => PartsText(s.parts)
    case _ => []
  }

  /** The attribute pairs with their values decoded (attributes, 495-503). */
  function DecodedAttrs(atts: seq<Attr>): (r: seq<Attr>)
    ensures |r| == |atts|
  {
    if atts == [] then [] else DecodedAttrs(atts[..|atts| - 1]) + [Attr(atts[|atts| - 1].key, Unescaped(atts[|atts| - 1].value))]
  }

  /** No NUL in the name or any path, as the C-string queries need. */
  predicate NulFree(s: Scanner)
  {
    '\0' !in s.name && '\0' !in s.path && forall i :: 0 <= i < |s.paths| ==> '\0' !in s.paths[i]
  }

  // ---------------------------------------------------------------------
  // Properties of next()

  /** How one call may change the paths: not at all, or as a start tag
      does (a '<?' tag sets "/name"; the first element saves "/" and gets
      "/name"; a nested one saves the path and appends "/name"). */
  predicate PathStep(before: Scanner, r: Scanner)
  {
    (r.paths == before.paths && r.path == before.path)
    || (r.state == StartElement && r.name != [] && r.name[0] == '?'
        && r.paths == before.paths && r.path == "/" + r.name)
    || (r.state == StartElement && r.name != [] &&
        if before.paths == [] then r.paths == ["/"] && r.path == "/" + r.name
        else r.paths == before.paths + [before.path] && r.path == before.path + "/" + r.name)
  }

  /** What every event promises about the state it produces from s. */
  predicate EventOk(buf: Bytes, s: Scanner, r: Scanner)
  {
    Sane(buf, r) && s.ptr <= r.ptr && PathStep(s, r) && (NulFree(s) ==> NulFree(r))
  }

  lemma CloseTagOk(buf: Bytes, s: Scanner, start: Byte)
    requires Sane(buf, s) && s.chars.Ptr? && s.name != [] && (start == '?' ==> s.name[0] == '?')
    ensures var r := CloseTag(buf, s, start); EventOk(buf, s, r) && r.state != Characters && r.state != None
  {
  }

  lemma ScanTagOk(buf: Bytes, s: Scanner, start: Byte)
    requires Sane(buf, s) && s.chars.Ptr? && s.ptr < |buf|
    requires IsSymF(buf[s.ptr]) || buf[s.ptr] == '?'
    requires start == '?' ==> buf[s.ptr] == '?'
    ensures var r := ScanTag(buf, s, start); EventOk(buf, s, r) && r.state != Characters && r.state != None
  {
    var e := SymEnd(buf, s.ptr + 1);
    var (a, atts) := TagAttributes(buf, e, start, true);
    TagNameNulFree(buf, s.ptr);
    CloseTagOk(buf, s.(ptr := a, name := buf[s.ptr..e], parts := [], atts := atts), start);
  }

  /** A tag's event carries the name scanned at the cursor and the
      attributes scanned after it, with no fragments. */
  lemma ScanTagRecords(buf: Bytes, s: Scanner, start: Byte)
    requires Sane(buf, s) && s.chars.Ptr? && s.ptr < |buf|
    requires IsSymF(buf[s.ptr]) || buf[s.ptr] == '?'
    ensures var e := SymEnd(buf, s.ptr + 1); var r := ScanTag(buf, s, start);
      r.name == buf[s.ptr..e] && r.atts == TagAttributes(buf, e, start, true).1 && r.parts == []
  {
    var e := SymEnd(buf, s.ptr + 1);
    var (a, atts) := TagAttributes(buf, e, start, true);
    CloseTagRecords(buf, s.(ptr := a, name := buf[s.ptr..e], parts := [], atts := atts), start);
  }

  /** The close of a tag keeps its name, attributes and fragments. */
  lemma CloseTagRecords(buf: Bytes, s: Scanner, start: Byte)
    requires Sane(buf, s) && s.chars.Ptr?
    ensures var r := CloseTag(buf, s, start); r.name == s.name && r.atts == s.atts && r.parts == s.parts
  {
  }

  lemma ScanStartOk(buf: Bytes, s: Scanner)
    requires Sane(buf, s) && s.chars.Ptr?
    ensures var r := ScanStart(buf, s); EventOk(buf, s, r) && r.state != Characters && r.state != None
  {
    var p := s.ptr;
    var start: Byte := if p < |buf| && (buf[p] == '?' || buf[p] == '/' || buf[p] == '!') then buf[p] else '\0';
    var n0 := if start == '/' || start == '!' then p + 1 else p;
    if n0 < |buf| && (IsSymF(buf[n0]) || buf[n0] == '?') {
      ScanTagOk(buf, s.(ptr := n0), start);
    }
  }

  lemma ScanMarkupOk(buf: Bytes, s: Scanner)
    requires Sane(buf, s) && s.chars.Ptr?
    ensures var r := ScanMarkup(buf, s); EventOk(buf, s, r) && r.state != Characters && r.state != None
  {
    var p := s.ptr;
    if !(p + 3 < |buf| && buf[p..p + 3] == CommentOpen) {
      ScanStartOk(buf, s.(parts := []));
    }
  }

  /** Every call keeps the state sane, never moves the cursor back,
      returns false only with None at the end of the buffer, and changes
      the paths only as PathStep allows. */
  /** A text run that ends the call leaves an event the loop may report. */
  lemma TextRunOk(buf: Bytes, s: Scanner)
    requires Sane(buf, s) && s.chars.Ptr? && s.ptr < |buf| && buf[s.ptr] != '<'
    ensures var r := TextRun(buf, s);
      r.2 ==> EventOk(buf, s, r.0) && (!r.1 ==> r.0.state == None && r.0.ptr == |buf|)
              && (r.0.state == Characters ==> s.state == StartElement || s.state == Characters)
    ensures var r := TextRun(buf, s);
      !r.2 ==> r.0.state == s.state && r.0.name == s.name && r.0.paths == s.paths
               && r.0.path == s.path && r.0.nextEnd == s.nextEnd
  {
  }

  /** A pass that ends the call leaves an event the loop may report; one
      that does not keeps the event's state, name and paths. */
  lemma PassOk(buf: Bytes, s: Scanner)
    requires Sane(buf, s) && s.chars.Ptr?
    ensures var r := Pass(buf, s);
      r.2 ==> EventOk(buf, s, r.0) && (!r.1 ==> r.0.state == None && r.0.ptr == |buf|)
              && (r.0.state == Characters ==> s.state == StartElement || s.state == Characters)
    ensures var r := Pass(buf, s);
      !r.2 ==> r.0.state == s.state && r.0.name == s.name && r.0.paths == s.paths
               && r.0.path == s.path && r.0.nextEnd == s.nextEnd
  {
    var p := s.ptr;
    if s.nextEnd {
    } else if p + 9 < |buf| && buf[p..p + 9] == CDataOpen {
    } else if p < |buf| && buf[p] == '<' {
      ScanMarkupOk(buf, s.(ptr := p + 1));
    } else if p < |buf| {
      TextRunOk(buf, s);
    }
  }

  lemma {:induction false} ScanLoopOk(buf: Bytes, s: Scanner)
    requires Sane(buf, s) && s.chars.Ptr?
    ensures var r := ScanLoop(buf, s); EventOk(buf, s, r.0) && (!r.1 ==> r.0.state == None && r.0.ptr == |buf|)
    ensures ScanLoop(buf, s).0.state == Characters ==> s.state == StartElement || s.state == Characters
    decreases |buf| - s.ptr
  {
    PassOk(buf, s);
    var (t, more, done) := Pass(buf, s);
    if !done {
      ScanLoopOk(buf, t);
    }
  }

  lemma NextOk(buf: Bytes, s: Scanner)
    requires Sane(buf, s)
    ensures var r := NextEvent(buf, s);
      Sane(buf, r.0) && s.ptr <= r.0.ptr && (!r.1 ==> r.0.state == None && r.0.ptr == |buf|)
      && PathStep(Restore(s), r.0)
  {
    ScanLoopOk(buf, Begin(Restore(s)));
  }

  /** A Characters event only ever follows a StartElement or Characters
      event: a text run is reported only then, and a CDATA section keeps
      the previous state. */
  lemma CharactersFollowStartOrCharacters(buf: Bytes, s: Scanner)
    requires Sane(buf, s) && NextEvent(buf, s).0.state == Characters
    ensures s.state == StartElement || s.state == Characters
  {
    ScanLoopOk(buf, Begin(Restore(s)));
  }

  /** After an EndElement the next call starts from the path saved by the
      matching start tag: for the first element that is "/". */
  lemma EndRestoresSavedPath(before: Scanner, r: Scanner)
    requires r.state == EndElement && r.name != [] && r.name[0] != '?'
    requires if before.paths == [] then r.paths == ["/"] && r.path == "/" + r.name
             else r.paths == before.paths + [before.path] && r.path == before.path + "/" + r.name
    ensures Restore(r).paths == before.paths
    ensures Restore(r).path == if before.paths == [] then "/" else before.path
  {
    if before.paths != [] {
      assert r.paths[..|r.paths| - 1] == before.paths;
    }
  }

  /** With a deferred end pending, the call reports EndElement for the same
      name, attributes and cursor, without reading input. */
  lemma SelfClosingEnd(buf: Bytes, s: Scanner)
    requires Sane(buf, s) && s.nextEnd
    ensures var (t, more) := NextEvent(buf, s);
      more && t.state == EndElement && !t.nextEnd && t.ptr == s.ptr && t.name == s.name && t.atts == s.atts
  {
  }

  /** A '/' just before the '>' of a start tag defers that element's end. */
  lemma SlashDefersEnd(buf: Bytes, s: Scanner, start: Byte)
    requires Sane(buf, s) && s.chars.Ptr? && start != '/'
    requires s.ptr + 1 < |buf| && buf[s.ptr] == '/' && buf[s.ptr + 1] == '>'
    ensures var r := CloseTag(buf, s, start); r.state == StartElement && r.nextEnd && r.ptr == s.ptr + 2
  {
  }

  /** A tag `<name …>` or `<?name …?>` at the cursor: the call reports it
      with the tag's name and the attributes scanned after that name. */
  lemma TagAttributesRecorded(buf: Bytes, t: Scanner)
    requires Sane(buf, t) && t.chars.Ptr? && !t.nextEnd
    requires t.ptr + 1 < |buf| && buf[t.ptr] == '<' && (IsSymF(buf[t.ptr + 1]) || buf[t.ptr + 1] == '?')
    ensures var start: Byte := if buf[t.ptr + 1] == '?' then '?' else '\0';
      var e := SymEnd(buf, t.ptr + 2); var r := ScanLoop(buf, t).0;
      r.name == buf[t.ptr + 1..e] && r.atts == TagAttributes(buf, e, start, true).1 && r.parts == []
  {
    var start: Byte := if buf[t.ptr + 1] == '?' then '?' else '\0';
    var u := t.(ptr := t.ptr + 1, parts := []);
    PassAtTag(buf, t);
    ScanTagRecords(buf, u, start);
    ScanLoopDone(buf, t);
  }

  /** At `<name` or `<?name` a pass is the scan of that tag, and it ends
      the call. */
  lemma PassAtTag(buf: Bytes, t: Scanner)
    requires Sane(buf, t) && t.chars.Ptr? && !t.nextEnd
    requires t.ptr + 1 < |buf| && buf[t.ptr] == '<' && (IsSymF(buf[t.ptr + 1]) || buf[t.ptr + 1] == '?')
    ensures var start: Byte := if buf[t.ptr + 1] == '?' then '?' else '\0';
      Pass(buf, t) == (ScanTag(buf, t.(ptr := t.ptr + 1, parts := []), start), true, true)
  {
    var p := t.ptr;
    var start: Byte := if buf[p + 1] == '?' then '?' else '\0';
    if p + 9 < |buf| {
      assert buf[p..p + 9][1] == buf[p + 1];
    }
    if p + 4 < |buf| {
      assert buf[p + 1..p + 4][0] == buf[p + 1];
    }
    var u := t.(ptr := p + 1);
    assert Pass(buf, t) == (ScanMarkup(buf, u), true, true);
    assert u.(parts := []) == t.(ptr := p + 1, parts := []);
  }

  /** Away from a '<' and a pending end, a pass is a text run. */
  lemma PassIsTextRun(buf: Bytes, t: Scanner)
    requires Sane(buf, t) && t.chars.Ptr? && !t.nextEnd && t.ptr < |buf| && buf[t.ptr] != '<'
    ensures Pass(buf, t) == TextRun(buf, t)
  {
    assert buf[t.ptr] != CDataOpen[0];
  }

  /** A pass that ends the call gives the loop's result. */
  lemma ScanLoopDone(buf: Bytes, t: Scanner)
    requires Sane(buf, t) && t.chars.Ptr? && Pass(buf, t).2
    ensures ScanLoop(buf, t) == (Pass(buf, t).0, Pass(buf, t).1)
  {
  }

  /** A text run that reaches the end of the buffer is never reported: the
      loop ends with None at the end of the buffer. */
  lemma TrailingTextDropped(buf: Bytes, t: Scanner)
    requires Sane(buf, t) && t.chars.Ptr?
    requires !t.nextEnd && t.ptr < |buf| && buf[t.ptr] != '<' && IndexFrom(buf, t.ptr, '<') == |buf|
    ensures var (r, more) := ScanLoop(buf, t); !more && r.state == None && r.ptr == |buf|
  {
  }

  /** A run ending at "</" or "<!" after a StartElement or Characters event
      is reported as Characters, with the run stored as a text fragment. */
  lemma TextReported(buf: Bytes, t: Scanner, q: nat)
    requires Sane(buf, t) && t.chars.Ptr?
    requires !t.nextEnd && t.ptr < |buf| && buf[t.ptr] != '<' && q == IndexFrom(buf, t.ptr, '<')
      && q + 1 < |buf| && (buf[q + 1] == '/' || buf[q + 1] == '!')
      && (t.state == StartElement || t.state == Characters)
    ensures ScanLoop(buf, t) == (t.(ptr := q, chars := Null, state := Characters,
                                    parts := Inserted(t.parts, TextPart, buf[t.chars.at..q])), true)
  {
    var s1 := t.(ptr := q, parts := Inserted(t.parts, TextPart, buf[t.chars.at..q]));
    assert TextRun(buf, t) == (s1.(chars := Null, state := Characters), true, true);
    PassIsTextRun(buf, t);
    ScanLoopDone(buf, t);
  }

  /** At a '<' the loop always reports something and asks for more. */
  lemma AtMarkupMore(buf: Bytes, t: Scanner)
    requires Sane(buf, t) && t.chars.Ptr? && t.ptr < |buf| && buf[t.ptr] == '<'
    ensures ScanLoop(buf, t).1
  {
  }

  /** Any other run is skipped: the loop goes on to the markup at the '<',
      keeping the run among the fragments, and reports that markup. */
  lemma TextSkipped(buf: Bytes, t: Scanner, q: nat)
    requires Sane(buf, t) && t.chars.Ptr?
    requires !t.nextEnd && t.ptr < |buf| && buf[t.ptr] != '<' && q == IndexFrom(buf, t.ptr, '<') && q < |buf|
      && !(q + 1 < |buf| && (buf[q + 1] == '/' || buf[q + 1] == '!') && (t.state == StartElement || t.state == Characters))
    ensures var s1 := t.(ptr := q, parts := Inserted(t.parts, TextPart, buf[t.chars.at..q]));
      ScanLoop(buf, t) == ScanLoop(buf, s1) && ScanLoop(buf, s1).1
  {
    var s1 := t.(ptr := q, parts := Inserted(t.parts, TextPart, buf[t.chars.at..q]));
    PassIsTextRun(buf, t);
    TextRunSkips(buf, t, q);
    ScanLoopGoesOn(buf, t);
    AtMarkupMore(buf, s1);
  }

  lemma TextRunSkips(buf: Bytes, t: Scanner, q: nat)
    requires Sane(buf, t) && t.chars.Ptr?
    requires t.ptr < |buf| && buf[t.ptr] != '<' && q == IndexFrom(buf, t.ptr, '<') && q < |buf|
      && !(q + 1 < |buf| && (buf[q + 1] == '/' || buf[q + 1] == '!') && (t.state == StartElement || t.state == Characters))
    ensures TextRun(buf, t) == (t.(ptr := q, parts := Inserted(t.parts, TextPart, buf[t.chars.at..q])), false, false)
    ensures buf[q] == '<'
  {
  }

  /** A pass that does not end the call leaves the rest to the loop. */
  lemma ScanLoopGoesOn(buf: Bytes, t: Scanner)
    requires Sane(buf, t) && t.chars.Ptr? && !Pass(buf, t).2
    ensures ScanLoop(buf, t) == ScanLoop(buf, Pass(buf, t).0)
  {
  }

  /** No call puts a NUL into the name or a path. */
  lemma NextNulFree(buf: Bytes, s: Scanner)
    requires Sane(buf, s) && NulFree(s)
    ensures NulFree(NextEvent(buf, s).0)
  {
    var r := Restore(s);
    assert NulFree(r) by {
      if s.state == EndElement && s.paths != [] {
        assert s.paths[..|s.paths| - 1] == r.paths;
      }
    }
    ScanLoopOk(buf, Begin(r));
  }

  // ---------------------------------------------------------------------
  // Query properties

  lemma PartsTextInserted(parts: seq<CharPart>, kind: PartKind, bytes: Bytes)
    ensures PartsText(Inserted(parts, kind, bytes)) == PartsText(parts) + PartText(CharPart(kind, bytes))
  {
    if bytes != [] {
      var q := parts + [CharPart(kind, bytes)];
      assert q[..|q| - 1] == parts;
    } else {
      assert PartText(CharPart(kind, bytes)) == [] by {
        assert Unescaped([]) == [];
      }
    }
  }

  /** The text of a reported run is that run decoded, after whatever
      fragments the event already held. */
  lemma ReportedTextIsDecoded(buf: Bytes, t: Scanner, q: nat)
    requires Sane(buf, t) && t.chars.Ptr?
    requires !t.nextEnd && t.ptr < |buf| && buf[t.ptr] != '<' && q == IndexFrom(buf, t.ptr, '<')
      && q + 1 < |buf| && (buf[q + 1] == '/' || buf[q + 1] == '!')
      && (t.state == StartElement || t.state == Characters)
    ensures EventText(ScanLoop(buf, t).0) == PartsText(t.parts) + Unescaped(buf[t.chars.at..q])
  {
    TextReported(buf, t, q);
    PartsTextInserted(t.parts, TextPart, buf[t.chars.at..q]);
  }

  /** attributes() keeps every key and order and decodes every value. */
  lemma {:induction false} DecodedAttrsAt(atts: seq<Attr>)
    ensures forall i :: 0 <= i < |atts| ==>
      DecodedAttrs(atts)[i] == Attr(atts[i].key, Unescaped(atts[i].value))
    decreases |atts|
  {
    if atts != [] {
      DecodedAttrsAt(atts[..|atts| - 1]);
    }
  }

  // ---------------------------------------------------------------------
  // The reader object

  class Reader {
    const buf: Bytes
    var ptr: nat
    var chars: Mark
    var parts: seq<CharPart>
    var atts: seq<Attr>
    var state: StateType
    var nextEnd: bool
    var name: Bytes
    var paths: seq<Bytes>
    var path: Bytes

    function Snap(): Scanner
      reads this
    {
      Scanner(ptr, chars, parts, atts, state, nextEnd, name, paths, path)
    }

    ghost predicate Valid()
      reads this
    {
      Sane(buf, Snap()) && NulFree(Snap())
    }

    /** xstream(begin, end) and its other constructors, by init. */
    constructor (b: Bytes)
      ensures buf == b && Snap() == Initial() && Valid()
    {
      buf := b;
      ptr := 0;
      chars := Null;
      parts := [];
      atts := [];
      state := None;
      nextEnd := false;
      name := [];
      paths := [];
      path := "/";
    }

    method InsertChars(kind: PartKind, begin: nat, end: nat)
      requires begin <= end <= |buf|
      modifies this
      ensures Snap() == old(Snap()).(parts := Inserted(old(parts), kind, buf[begin..end]))
    {
      if begin != end {
        parts := parts + [CharPart(kind, buf[begin..end])];
      }
    }

    /** The close of a tag (374-402). */
    method FinishTag(start: Byte)
      requires Sane(buf, Snap()) && chars.Ptr?
      modifies this
      ensures Snap() == CloseTag(buf, old(Snap()), start)
    {
      if ptr < |buf| && buf[ptr] == '/' {
        ptr := ptr + 1;
        nextEnd := true;
      }
      if start == '?' && ptr < |buf| && buf[ptr] == '?' {
        ptr := ptr + 1;
      }
      if ptr < |buf| && buf[ptr] == '>' {
        ptr := ptr + 1;
        chars := Null;
        if start == '/' {
          state := EndElement;
        } else {
          if start == '?' {
            path := "/" + name;
          } else if paths == [] {
            paths := paths + ["/"];
            path := "/" + name;
          } else {
            paths := paths + [path];
            path := path + "/" + name;
          }
          state := StartElement;
        }
        return;
      }
      state := Error;
    }

    /** A tag from its name on (311-402). */
    method ReadTag(start: Byte)
      requires Sane(buf, Snap()) && chars.Ptr? && ptr < |buf|
      requires IsSymF(buf[ptr]) || buf[ptr] == '?'
      modifies this
      ensures Snap() == ScanTag(buf, old(Snap()), start)
    {
      var left := ptr;
      ptr := SkipSymLoop(buf, ptr + 1);
      parts := [];
      name := buf[left..ptr];
      atts := [];
      var a;
      ptr, a := ScanAttributes(buf, ptr, start, true);
      atts := a;
      FinishTag(start);
    }

    /** The markup after a '<' (292-402). */
    method ReadMarkup()
      requires Sane(buf, Snap()) && chars.Ptr?
      modifies this
      ensures Snap() == ScanMarkup(buf, old(Snap()))
    {
      if ptr + 3 < |buf| && buf[ptr..ptr + 3] == CommentOpen {
        ptr := ptr + 3;
        var left := ptr;
        ptr := FindDelim(buf, ptr, CommentClose);
        InsertChars(TextPart, left, ptr);
        ptr := Min(ptr + 3, |buf|);
        state := Comment;
        return;
      }
      parts := [];
      ReadStart();
    }

    /** A tag, or an error, after '<' (304-402). */
    method ReadStart()
      requires Sane(buf, Snap()) && chars.Ptr?
      modifies this
      ensures Snap() == ScanStart(buf, old(Snap()))
    {
      ghost var s0 := Snap();
      var start: Byte := '\0';
      if ptr < |buf| && buf[ptr] == '?' {
        start := buf[ptr];
      } else if ptr < |buf| && (buf[ptr] == '/' || buf[ptr] == '!') {
        start := buf[ptr];
        ptr := ptr + 1;
      }
      assert Snap() == s0.(ptr := ptr);
      if ptr < |buf| && (IsSymF(buf[ptr]) || buf[ptr] == '?') {
        ReadTag(start);
      } else {
        state := Error;
      }
    }

    /** One pass of the while(1) loop of next() (269-429): either the
        call's result, or, after a skipped text run, the state at its '<'
        for the next pass. */
    method Round() returns (done: bool, more: bool)
      requires Sane(buf, Snap()) && chars.Ptr?
      modifies this
      ensures (Snap(), more, done) == Pass(buf, old(Snap()))
    {
      if nextEnd {
        nextEnd := false;
        state := EndElement;
        return true, true;
      }
      if ptr + 9 < |buf| && buf[ptr] == '<' {
        if buf[ptr..ptr + 9] == CDataOpen {
          ReadCData();
          return true, true;
        }
      }
      if ptr < |buf| && buf[ptr] == '<' {
        ptr := ptr + 1;
        ScanMarkupOk(buf, Snap());
        ReadMarkup();
        return true, true;
      } else if ptr < |buf| {
        more, done := ReadText();
      } else {
        state := None;
        return true, false;
      }
    }

    /** The CDATA branch of next() (278-289). */
    method ReadCData()
      requires Sane(buf, Snap()) && ptr + 9 < |buf|
      modifies this
      ensures Snap() == CDataSection(buf, old(Snap()))
    {
      ptr := ptr + 9;
      var left := ptr;
      ptr := FindDelim(buf, ptr, CDataClose);
      InsertChars(CDataPart, left, ptr);
      ptr := Min(ptr + 3, |buf|);
      chars := Null;
    }

    /** The text run of next() (403-425). */
    method ReadText() returns (more: bool, done: bool)
      requires Sane(buf, Snap()) && chars.Ptr? && ptr < |buf| && buf[ptr] != '<'
      modifies this
      ensures (Snap(), more, done) == TextRun(buf, old(Snap()))
    {
      ptr := FindByte(buf, ptr, '<');
      if ptr == |buf| {
        state := None;
        return false, true;
      }
      InsertChars(TextPart, chars.at, ptr);
      if ptr + 1 < |buf| && (buf[ptr + 1] == '/' || buf[ptr + 1] == '!') {
        if state == StartElement || state == Characters {
          chars := Null;
          state := Characters;
          return true, true;
        }
      }
      return false, false;
    }

    /** next(). */
    method Next() returns (more: bool)
      requires Valid()
      modifies this
      ensures Valid()
      ensures (Snap(), more) == NextEvent(buf, old(Snap()))
    {
      ghost var s0 := Snap();
      if state == EndElement {
        if paths == [] {
          path := "/";
        } else {
          path := paths[|paths| - 1];
          paths := paths[..|paths| - 1];
        }
      }
      assert Snap() == Restore(s0);
      if chars.Null? {
        parts := [];
        chars := Ptr(ptr);
      }
      ghost var goal := ScanLoop(buf, Snap());
      NextOk(buf, s0);
      NextNulFree(buf, s0);
      while true
        invariant Sane(buf, Snap()) && chars.Ptr?
        invariant ScanLoop(buf, Snap()) == goal
        decreases |buf| - ptr
      {
        var done;
        done, more := Round();
        if done {
          return;
        }
      }
    }

    function Path(): Bytes
      reads this
    {
      path
    }

    /** match(p): a StartElement whose path is p, or p less one trailing
        '/'. */
    function Match(p: Bytes): (b: bool)
      reads this
      requires Valid() && '\0' !in p
      ensures b <==> state == StartElement && (p == path || p == path + "/")
    {
      MatchInternalMeaning(p, path);
      state == StartElement && MatchInternal(p, path)
    }

    /** match_end(p): the same for an EndElement. */
    function MatchEnd(p: Bytes): (b: bool)
      reads this
      requires Valid() && '\0' !in p
      ensures b <==> state == EndElement && (p == path || p == path + "/")
    {
      MatchInternalMeaning(p, path);
      state == EndElement && MatchInternal(p, path)
    }

    /** isStartElement(name) with a C string: strncmp over the element
        name's length, then the terminator. */
    function IsStartElementNamed(s: Bytes): (b: bool)
      reads this
      requires Valid() && '\0' !in s
      ensures b <==> state == StartElement && s == name
    {
      StrNEqualMeaning(s, name, |name|);
      var sz := s + ['\0'];
      state == StartElement && StrNEqual(sz, name + ['\0'], |name|) && |name| < |sz| && sz[|name|] == '\0'
    }

    function IsEndElementNamed(s: Bytes): (b: bool)
      reads this
      requires Valid() && '\0' !in s
      ensures b <==> state == EndElement && s == name
    {
      StrNEqualMeaning(s, name, |name|);
      var sz := s + ['\0'];
      state == EndElement && StrNEqual(sz, name + ['\0'], |name|) && |name| < |sz| && sz[|name|] == '\0'
    }

    /** text(). */
    method Text() returns (r: Bytes)
      ensures r == EventText(Snap())
    {
      if state == StartElement || state == EndElement {
        return name;
      }
      if state != Characters {
        return [];
      }
      r := [];
      var i := 0;
      while i < |parts|
        invariant 0 <= i <= |parts|
        invariant r == PartsText(parts[..i])
      {
        var v: Bytes;
        match parts[i].kind {
          case TextPart => v := DecodeHtmlString(parts[i].bytes);
          case CDataPart => v := parts[i].bytes;
          case CommentPart => v := [];
        }
        assert parts[..i + 1][..i] == parts[..i];
        r := r + v;
        i := i + 1;
      }
      assert parts[..i] == parts;
    }

    /** attribute(name, defval): the first match decoded, or defval. */
    method Attribute(key: Bytes, defval: Bytes) returns (r: Bytes)
      ensures r == match Lookup(atts, key) case Some(v) => Unescaped(v) case Nothing => defval
    {
      var i := 0;
      while i < |atts|
        invariant 0 <= i <= |atts|
        invariant Lookup(atts[i..], key) == Lookup(atts, key)
      {
        if atts[i].key == key {
          r := DecodeHtmlString(atts[i].value);
          return;
        }
        assert atts[i..][1..] == atts[i + 1..];
        i := i + 1;
      }
      return defval;
    }

    /** attributes(): every recorded pair, in order, with decoded values. */
    method Attributes() returns (r: seq<Attr>)
      ensures r == DecodedAttrs(atts)
    {
      r := [];
      var i := 0;
      while i < |atts|
        invariant 0 <= i <= |atts|
        invariant r == DecodedAttrs(atts[..i])
      {
        var v := DecodeHtmlString(atts[i].value);
        assert atts[..i + 1][..i] == atts[..i];
        r := r + [Attr(atts[i].key, v)];
        i := i + 1;
      }
      assert atts[..i] == atts;
    }
  }
}
