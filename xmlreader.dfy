/**
 * The pull reader of include/xstream.h (class Reader, 164-733).
 *
 * The reader walks an immutable byte buffer with a cursor and reports
 * one event per call. Above a root frame it keeps a stack of frames, one
 * per open element. Each frame holds the element's path, its raw
 * attribute spans and the character fragments scanned while it was on
 * top.
 *
 * The value-level meaning of one call is the function Advance on a
 * Scanner snapshot. The class Reader holds the same state in fields, and
 * each of its methods is proved to move that state as the corresponding
 * function says.
 */
module XmlReader {
  import opened ByteText
  import opened Attributes
  import opened HtmlEntities
  import opened CStrings

  datatype StateType = None | Error | Comment | StartElement | EndElement | Characters | Declaration

  datatype PartKind = TextPart | CDataPart | CommentPart

  /** A fragment of character data, kept raw (CharPart, 212-233). */
  datatype CharPart = CharPart(kind: PartKind, bytes: Bytes)

  /** A stack frame (Tag, 298-308). */
  datatype Tag = Tag(path: Bytes, atts: seq<Attr>, chars: seq<CharPart>)

  const RootFrame: Tag := Tag([], [], [])

  const CDataOpen: Bytes := "<![CDATA["
  const CDataClose: Bytes := "]]>"
  const CommentOpen: Bytes := "!--"
  const CommentClose: Bytes := "-->"

  /** The reader's scanning state: cursor, start of pending text
      (chars_), last event, the deferred end of a self-closing tag, the
      element name and the frame stack. */
  datatype Scanner = Scanner(ptr: nat, chars: Mark, state: StateType, nextEnd: bool, name: Bytes, stack: seq<Tag>)

  /** What every reachable state satisfies: the cursor is in the buffer,
      the pending text starts before it, and the root frame is there. */
  predicate Sane(buf: Bytes, s: Scanner)
  {
    s.ptr <= |buf| && |s.stack| >= 1 && (s.chars.Ptr? ==> s.chars.at <= s.ptr)
  }

  function Top(stack: seq<Tag>): Tag
    requires |stack| >= 1
  {
    stack[|stack| - 1]
  }

  /** The state after the constructor (init and reset_stack, 337-349). */
  function Initial(): (s: Scanner)
    ensures |s.stack| == 1
  {
    Scanner(0, Null, None, false, [], [RootFrame])
  }

  // ---------------------------------------------------------------------
  // Character fragments

  /** EncodedCharacters::append: empty fragments are not stored. */
  function AppendPart(parts: seq<CharPart>, kind: PartKind, bytes: Bytes): seq<CharPart>
  {
    if bytes == [] then parts else parts + [CharPart(kind, bytes)]
  }

  /** append_chars: the fragment goes to the frame on top. */
  function TopAppended(stack: seq<Tag>, kind: PartKind, bytes: Bytes): seq<Tag>
    requires |stack| >= 1
  {
    stack[..|stack| - 1] + [Top(stack).(chars := AppendPart(Top(stack).chars, kind, bytes))]
  }

  /** CharPart::decode: text is entity-decoded, CDATA copied verbatim, a
      comment contributes nothing. */
  function PartText(p: CharPart): Bytes
  {
    match p.kind
    case TextPart => Decoded(p.bytes)
    case CDataPart => p.bytes
    case CommentPart => []
  }

  /** EncodedCharacters::to_string: the fragments' texts in order. */
  function PartsText(parts: seq<CharPart>): Bytes
  {
    if parts == [] then [] else PartsText(parts[..|parts| - 1]) + PartText(parts[|parts| - 1])
  }

  // ---------------------------------------------------------------------
  // Frame stack maintenance at the start of a call (453-473)

  /** The frame path ends in '/' followed by name. */
  predicate EndsWithName(path: Bytes, name: Bytes)
  {
    |path| > |name| && path[|path| - |name| - 1] == '/' && path[|path| - |name|..] == name
  }

  /** The innermost frame below index i, above the root, whose path ends
      in '/' + name. */
  function CutIndex(stack: seq<Tag>, name: Bytes, i: nat): (r: Option<nat>)
    requires i <= |stack|
    ensures r.Some? ==> 1 <= r.value < i
  {
    if i <= 1 then Nothing
    else if EndsWithName(stack[i - 1].path, name) then Some(i - 1)
    else CutIndex(stack, name, i - 1)
  }

  /** The stack after an EndElement for name has been reported. */
  function AfterEnd(stack: seq<Tag>, name: Bytes): seq<Tag>
  {
    match CutIndex(stack, name, |stack|)
    case Some(i) => stack[..i]
    case Nothing => stack
  }

  /** The frame changes made before scanning: the element that just ended
      is cut off, a declaration's frame is popped. */
  function Prepare(s: Scanner): (r: Scanner)
    requires |s.stack| >= 1
    ensures |r.stack| >= 1
  {
    if s.state == EndElement then s.(stack := AfterEnd(s.stack, s.name))
    else if s.state == Declaration then
      s.(stack := if |s.stack| > 1 then s.stack[..|s.stack| - 1] else [RootFrame])
    else s
  }

  /** Text pending since the last event starts at the cursor if none is. */
  function Started(s: Scanner): (r: Scanner)
    ensures r.chars.Ptr?
  {
    if s.chars.Null? then s.(chars := Ptr(s.ptr)) else s
  }

  // ---------------------------------------------------------------------
  // One event

  /** The stack keeps its frames, and only the top frame gains at most one
      fragment, which is not empty. */
  predicate TopGrows(before: seq<Tag>, after: seq<Tag>)
    requires |before| >= 1 && |after| >= 1
  {
    var old_ := Top(before).chars;
    var new_ := Top(after).chars;
    |after| == |before| && after[..|after| - 1] == before[..|before| - 1]
    && Top(after).(chars := old_) == Top(before)
    && old_ <= new_ && |new_| <= |old_| + 1
    && (|new_| == |old_| + 1 ==> new_[|old_|].bytes != [])
  }

  /** How an event may change the frame stack it starts from: StartElement
      and Declaration push one fresh frame, Characters and Comment extend
      the top frame's fragments by at most one, and every other event
      leaves the stack alone. */
  predicate EventFrames(before: seq<Tag>, r: Scanner)
    requires |before| >= 1 && |r.stack| >= 1
  {
    match r.state
    case StartElement =>
      |r.stack| == |before| + 1 && r.stack[..|before|] == before
      && Top(r.stack).path == Top(before).path + "/" + r.name && Top(r.stack).chars == []
    case Declaration =>
      |r.stack| == |before| + 1 && r.stack[..|before|] == before
      && Top(r.stack).path == r.name && Top(r.stack).chars == []
    case Characters => TopGrows(before, r.stack)
    case Comment => TopGrows(before, r.stack)
    case _ => r.stack == before
  }

  /** What every event promises: the state stays sane, the cursor never
      moves back, false comes only with None at the end of the buffer, and
      the frame stack changes as EventFrames allows. */
  predicate EventOk(buf: Bytes, s: Scanner, r: (Scanner, bool))
    requires |s.stack| >= 1
  {
    Sane(buf, r.0) && s.ptr <= r.0.ptr
    && (r.1 <==> r.0.state != None)
    && (!r.1 ==> r.0.ptr == |buf|)
    && EventFrames(s.stack, r.0)
  }

  /** The rest of a tag once its attributes are scanned (583-611): an
      optional '/', the '?' of a declaration, then '>' or an error. The
      cursor is where the attribute scan stopped. */
  function CloseTag(buf: Bytes, s: Scanner, start: Byte, atts: seq<Attr>): (r: (Scanner, bool))
    requires Sane(buf, s) && s.chars.Ptr?
  {
    var a := s.ptr;
    var closes := a < |buf| && buf[a] == '/';
    var b := if closes then a + 1 else a;
    var s1 := s.(nextEnd := closes || s.nextEnd);
    var decl := start == '!' || (start == '?' && b < |buf| && buf[b] == '?');
    if decl && b + 1 < |buf| && buf[b + 1] == '>' then
      (s1.(ptr := b + 2, state := Declaration, stack := s.stack + [Tag(s.name, atts, [])]), true)
    else
      var d := if decl then b + 1 else b;
      if d < |buf| && buf[d] == '>' then
        if start == '/' then (s1.(ptr := d + 1, chars := Null, state := EndElement), true)
        else (s1.(ptr := d + 1, chars := Null, state := StartElement,
                  stack := s.stack + [Tag(Top(s.stack).path + "/" + s.name, atts, [])]), true)
      else (s1.(ptr := d, state := Error), true)
  }

  /** A tag from its name start (515-611): the name, its attributes, and
      the close. start is the byte after '<' when that is '/', '?' or '!'. */
  function ScanTag(buf: Bytes, s: Scanner, start: Byte): (r: (Scanner, bool))
    requires Sane(buf, s) && s.ptr < |buf| && s.chars.Ptr?
    requires IsSymF(buf[s.ptr]) || buf[s.ptr] == '?'
    requires start == '!' ==> buf[s.ptr] == '!'
  {
    var e := SymEnd(buf, s.ptr + 1);
    var (a, atts) := TagAttributes(buf, e, start, true);
    CloseTag(buf, s.(ptr := a, name := buf[s.ptr..e]), start, atts)
  }

  /** The markup after a '<' (488-611), with the cursor past the '<'. */
  function ScanMarkup(buf: Bytes, s: Scanner): (r: (Scanner, bool))
    requires Sane(buf, s) && s.chars.Ptr?
  {
    var p := s.ptr;
    if p + 3 < |buf| && buf[p..p + 3] == CommentOpen then
      var q := DelimFrom(buf, p + 3, CommentClose);
      (s.(ptr := Min(q + 3, |buf|), chars := Null, state := Comment,
          stack := TopAppended(s.stack, CommentPart, buf[p + 3..q])), true)
    else
      var start: Byte := if p < |buf| && (buf[p] == '/' || buf[p] == '?' || buf[p] == '!') then buf[p] else '\0';
      var n0 := if start == '/' then p + 1 else p;
      if n0 < |buf| && (IsSymF(buf[n0]) || buf[n0] == '?') then ScanTag(buf, s.(ptr := n0), start)
      else (s.(ptr := n0, state := Error), true)
  }

  /** The scanning loop of _internal_next (474-637), from a state whose
      pending-text mark is set. */
  function Scan(buf: Bytes, s: Scanner): (r: (Scanner, bool))
    requires Sane(buf, s) && s.chars.Ptr?
  {
    var p := s.ptr;
    if s.nextEnd then (s.(nextEnd := false, state := EndElement), true)
    else if p + 9 < |buf| && buf[p..p + 9] == CDataOpen then
      var q := DelimFrom(buf, p + 9, CDataClose);
      (s.(ptr := Min(q + 3, |buf|), chars := Null, state := Characters,
          stack := TopAppended(s.stack, CDataPart, buf[p + 9..q])), true)
    else if p < |buf| && buf[p] == '<' then ScanMarkup(buf, s.(ptr := p + 1))
    else if p < |buf| then
      var q := IndexFrom(buf, p, '<');
      if q == |buf| then (s.(ptr := q, state := None), false)
      else (s.(ptr := q, chars := Null, state := Characters,
               stack := TopAppended(s.stack, TextPart, buf[s.chars.at..q])), true)
    else (s.(state := None), false)
  }

  /** _internal_next: one event. */
  function Advance(buf: Bytes, s: Scanner): (r: (Scanner, bool))
    requires Sane(buf, s)
  {
    Scan(buf, Started(Prepare(s)))
  }

  lemma CloseTagOk(buf: Bytes, s: Scanner, start: Byte, atts: seq<Attr>)
    requires Sane(buf, s) && s.chars.Ptr? && start != '!'
    ensures var r := CloseTag(buf, s, start, atts); r.1 && EventOk(buf, s, r)
  {
  }

  lemma ScanTagOk(buf: Bytes, s: Scanner, start: Byte)
    requires Sane(buf, s) && s.ptr < |buf| && s.chars.Ptr?
    requires IsSymF(buf[s.ptr]) || buf[s.ptr] == '?'
    requires start == '!' ==> buf[s.ptr] == '!'
    ensures var r := ScanTag(buf, s, start); r.1 && EventOk(buf, s, r)
  {
    var e := SymEnd(buf, s.ptr + 1);
    var (a, atts) := TagAttributes(buf, e, start, true);
    CloseTagOk(buf, s.(ptr := a, name := buf[s.ptr..e]), start, atts);
  }

  /** The close keeps the scanned name, and a pushed frame holds the
      attributes it was given. */
  lemma CloseTagRecords(buf: Bytes, s: Scanner, start: Byte, atts: seq<Attr>)
    requires Sane(buf, s) && s.chars.Ptr?
    ensures var r := CloseTag(buf, s, start, atts).0;
      r.name == s.name
      && (r.state == StartElement || r.state == Declaration ==> |r.stack| >= 1 && Top(r.stack).atts == atts)
  {
  }

  /** A tag's event carries the name scanned at the cursor, and the frame
      a StartElement or Declaration pushes holds the attributes scanned
      after that name. */
  lemma ScanTagRecords(buf: Bytes, s: Scanner, start: Byte)
    requires Sane(buf, s) && s.ptr < |buf| && s.chars.Ptr?
    requires IsSymF(buf[s.ptr]) || buf[s.ptr] == '?'
    requires start == '!' ==> buf[s.ptr] == '!'
    ensures var e := SymEnd(buf, s.ptr + 1); var r := ScanTag(buf, s, start).0;
      r.name == buf[s.ptr..e]
      && (r.state == StartElement || r.state == Declaration ==>
            |r.stack| >= 1 && Top(r.stack).atts == TagAttributes(buf, e, start, true).1)
  {
    var e := SymEnd(buf, s.ptr + 1);
    var (a, atts) := TagAttributes(buf, e, start, true);
    CloseTagRecords(buf, s.(ptr := a, name := buf[s.ptr..e]), start, atts);
  }

  lemma ScanMarkupOk(buf: Bytes, s: Scanner)
    requires Sane(buf, s) && s.chars.Ptr?
    ensures var r := ScanMarkup(buf, s); r.1 && EventOk(buf, s, r)
  {
    var p := s.ptr;
    if !(p + 3 < |buf| && buf[p..p + 3] == CommentOpen) {
      var start: Byte := if p < |buf| && (buf[p] == '/' || buf[p] == '?' || buf[p] == '!') then buf[p] else '\0';
      var n0 := if start == '/' then p + 1 else p;
      if n0 < |buf| && (IsSymF(buf[n0]) || buf[n0] == '?') {
        ScanTagOk(buf, s.(ptr := n0), start);
      }
    }
  }

  lemma ScanOk(buf: Bytes, s: Scanner)
    requires Sane(buf, s) && s.chars.Ptr?
    ensures EventOk(buf, s, Scan(buf, s))
    ensures Scan(buf, s).1 && !s.nextEnd ==> s.ptr < Scan(buf, s).0.ptr
  {
    var p := s.ptr;
    if !s.nextEnd && !(p + 9 < |buf| && buf[p..p + 9] == CDataOpen) && p < |buf| && buf[p] == '<' {
      ScanMarkupOk(buf, s.(ptr := p + 1));
    }
  }

  /** Every event keeps the state sane (in particular depth() >= 1), never
      moves the cursor back, reports false only with None at the end of
      the buffer, and changes the prepared frame stack as EventFrames
      allows. */
  lemma AdvanceOk(buf: Bytes, s: Scanner)
    requires Sane(buf, s)
    ensures EventOk(buf, Prepare(s), Advance(buf, s))
    ensures Advance(buf, s).1 && !s.nextEnd ==> s.ptr < Advance(buf, s).0.ptr
  {
    ScanOk(buf, Started(Prepare(s)));
  }

  // ---------------------------------------------------------------------
  // Depth-bounded traversal (nest/hold, 418-450)

  /** The reader with its traversal marks (d.depth_stack) and hold flag. */
  datatype Session = Session(scan: Scanner, marks: seq<int>, held: bool)

  /** The depth an event is compared with: one less for an EndElement. */
  function EventDepth(s: Scanner): int
  {
    if s.state == EndElement && |s.stack| > 0 then |s.stack| - 1 else |s.stack|
  }

  /** next(): a held event is replayed once; otherwise one event is
      scanned, and an event whose depth falls below the innermost mark
      pops that mark, arms hold and reports false. */
  function NextEvent(buf: Bytes, t: Session): (r: (Session, bool))
    requires Sane(buf, t.scan)
    ensures Sane(buf, r.0.scan)
  {
    AdvanceOk(buf, t.scan);
    if t.held then (t.(held := false), true)
    else
      var (s, more) := Advance(buf, t.scan);
      if !more then (t.(scan := s), false)
      else if t.marks == [] then (t.(scan := s), true)
      else if EventDepth(s) >= t.marks[|t.marks| - 1] then (t.(scan := s), true)
      else (Session(s, t.marks[..|t.marks| - 1], true), false)
  }

  // ---------------------------------------------------------------------
  // Queries

  /** The attribute pairs with their values decoded (attributes, 724-732). */
  function DecodedAttrs(atts: seq<Attr>): (r: seq<Attr>)
    ensures |r| == |atts|
  {
    if atts == [] then [] else DecodedAttrs(atts[..|atts| - 1]) + [Attr(atts[|atts| - 1].key, Decoded(atts[|atts| - 1].value))]
  }

  /** A name or path fit for the C-string comparisons: no NUL byte. */
  predicate NulFree(s: Scanner)
  {
    '\0' !in s.name && forall i :: 0 <= i < |s.stack| ==> '\0' !in s.stack[i].path
  }

  lemma ScanTagNulFree(buf: Bytes, s: Scanner, start: Byte)
    requires Sane(buf, s) && s.ptr < |buf| && s.chars.Ptr?
    requires IsSymF(buf[s.ptr]) || buf[s.ptr] == '?'
    requires start == '!' ==> buf[s.ptr] == '!'
    ensures '\0' !in ScanTag(buf, s, start).0.name
  {
    TagNameNulFree(buf, s.ptr);
  }

  lemma ScanMarkupNulFree(buf: Bytes, s: Scanner)
    requires Sane(buf, s) && s.chars.Ptr? && '\0' !in s.name
    ensures '\0' !in ScanMarkup(buf, s).0.name
  {
    var p := s.ptr;
    if !(p + 3 < |buf| && buf[p..p + 3] == CommentOpen) {
      var start: Byte := if p < |buf| && (buf[p] == '/' || buf[p] == '?' || buf[p] == '!') then buf[p] else '\0';
      var n0 := if start == '/' then p + 1 else p;
      if n0 < |buf| && (IsSymF(buf[n0]) || buf[n0] == '?') {
        ScanTagNulFree(buf, s.(ptr := n0), start);
      }
    }
  }

  lemma ScanNulFree(buf: Bytes, s: Scanner)
    requires Sane(buf, s) && s.chars.Ptr? && '\0' !in s.name
    ensures '\0' !in Scan(buf, s).0.name
  {
    var p := s.ptr;
    if !s.nextEnd && !(p + 9 < |buf| && buf[p..p + 9] == CDataOpen) && p < |buf| && buf[p] == '<' {
      ScanMarkupNulFree(buf, s.(ptr := p + 1));
    }
  }

  /** Frames that an event allows keep NUL-free paths when the new name is
      NUL-free. */
  lemma FramesNulFree(before: seq<Tag>, r: Scanner)
    requires |before| >= 1 && |r.stack| >= 1 && EventFrames(before, r)
    requires '\0' !in r.name && forall i :: 0 <= i < |before| ==> '\0' !in before[i].path
    ensures NulFree(r)
  {
    forall i | 0 <= i < |r.stack|
      ensures '\0' !in r.stack[i].path
    {
      if r.state == StartElement || r.state == Declaration {
        if i < |before| {
          assert r.stack[i] == r.stack[..|before|][i];
        }
      } else if r.state == Characters || r.state == Comment {
        if i < |before| - 1 {
          assert r.stack[i] == r.stack[..|before| - 1][i];
        } else {
          assert r.stack[i].path == Top(before).path;
        }
      }
    }
  }

  lemma PrepareNulFree(s: Scanner)
    requires |s.stack| >= 1 && NulFree(s)
    ensures NulFree(Prepare(s))
  {
    var p := Prepare(s);
    if s.state == EndElement {
      match CutIndex(s.stack, s.name, |s.stack|)
      case Some(i) =>
        assert forall j :: 0 <= j < i ==> p.stack[j] == s.stack[j];
      case Nothing =>
    }
  }

  /** No event puts a NUL into the element name or a frame path, so the
      C-string comparisons of the queries see them whole. */
  lemma AdvanceNulFree(buf: Bytes, s: Scanner)
    requires Sane(buf, s) && NulFree(s)
    ensures NulFree(Advance(buf, s).0)
  {
    var p := Prepare(s);
    PrepareNulFree(s);
    AdvanceOk(buf, s);
    ScanNulFree(buf, Started(p));
    FramesNulFree(p.stack, Advance(buf, s).0);
  }

  /** No frame holds an empty fragment. */
  predicate NoEmptyParts(stack: seq<Tag>)
  {
    forall i, j :: 0 <= i < |stack| && 0 <= j < |stack[i].chars| ==> stack[i].chars[j].bytes != []
  }

  lemma FramesNoEmptyParts(before: seq<Tag>, r: Scanner)
    requires |before| >= 1 && |r.stack| >= 1 && EventFrames(before, r) && NoEmptyParts(before)
    ensures NoEmptyParts(r.stack)
  {
    forall i, j | 0 <= i < |r.stack| && 0 <= j < |r.stack[i].chars|
      ensures r.stack[i].chars[j].bytes != []
    {
      if r.state == StartElement || r.state == Declaration {
        if i < |before| {
          assert r.stack[i] == r.stack[..|before|][i];
        }
      } else if r.state == Characters || r.state == Comment {
        if i < |before| - 1 {
          assert r.stack[i] == r.stack[..|before| - 1][i];
        } else if j < |Top(before).chars| {
          assert r.stack[i].chars[j] == Top(r.stack).chars[..|Top(before).chars|][j];
        }
      }
    }
  }

  /** Empty fragments are never stored (EncodedCharacters::append, 243-248). */
  lemma AdvanceNoEmptyParts(buf: Bytes, s: Scanner)
    requires Sane(buf, s) && NoEmptyParts(s.stack)
    ensures NoEmptyParts(Advance(buf, s).0.stack)
  {
    var p := Prepare(s);
    assert NoEmptyParts(p.stack) by {
      if s.state == EndElement {
        match CutIndex(s.stack, s.name, |s.stack|)
        case Some(i) =>
          assert forall k :: 0 <= k < i ==> p.stack[k] == s.stack[k];
        case Nothing =>
      }
    }
    AdvanceOk(buf, s);
    FramesNoEmptyParts(p.stack, Advance(buf, s).0);
  }

  // ---------------------------------------------------------------------
  // Query properties

  /** CharPart::decode as a method. */
  method DecodePart(p: CharPart) returns (v: Bytes)
    ensures v == PartText(p)
  {
    match p.kind {
      case TextPart => v := HtmlDecode(p.bytes);
      case CDataPart => v := p.bytes;
      case CommentPart => v := [];
    }
  }

  /** attributes() keeps every key and order, and decodes every value. */
  lemma {:induction false} DecodedAttrsAt(atts: seq<Attr>)
    ensures forall i :: 0 <= i < |atts| ==> DecodedAttrs(atts)[i] == Attr(atts[i].key, Decoded(atts[i].value))
  {
    if atts != [] {
      var init := atts[..|atts| - 1];
      DecodedAttrsAt(init);
      forall i | 0 <= i < |atts|
        ensures DecodedAttrs(atts)[i] == Attr(atts[i].key, Decoded(atts[i].value))
      {
        if i < |atts| - 1 {
          assert DecodedAttrs(atts)[i] == DecodedAttrs(init)[i];
          assert atts[i] == init[i];
        }
      }
    }
  }

  /** The text of a frame grows by the new fragment's text when a fragment
      is appended, whether or not an empty one is stored. */
  lemma PartsTextAppend(parts: seq<CharPart>, kind: PartKind, bytes: Bytes)
    ensures PartsText(AppendPart(parts, kind, bytes)) == PartsText(parts) + PartText(CharPart(kind, bytes))
  {
    if bytes == [] {
      assert Decoded(bytes) == [];
      assert PartText(CharPart(kind, bytes)) == [];
    } else {
      assert (parts + [CharPart(kind, bytes)])[..|parts|] == parts;
    }
  }

  /** A comment adds nothing to text(); a CDATA section adds its body as
      it stands; a text run adds it decoded. */
  lemma TextOfFragments(parts: seq<CharPart>, bytes: Bytes)
    ensures PartsText(AppendPart(parts, CommentPart, bytes)) == PartsText(parts)
    ensures PartsText(AppendPart(parts, CDataPart, bytes)) == PartsText(parts) + bytes
    ensures PartsText(AppendPart(parts, TextPart, bytes)) == PartsText(parts) + Decoded(bytes)
  {
    PartsTextAppend(parts, CommentPart, bytes);
    PartsTextAppend(parts, CDataPart, bytes);
    PartsTextAppend(parts, TextPart, bytes);
  }

  // ---------------------------------------------------------------------
  // Frame stack properties

  /** CutIndex finds the innermost frame below i whose path ends in
      '/' + name, and nothing when there is none. */
  lemma {:induction false} CutIndexInnermost(stack: seq<Tag>, name: Bytes, i: nat)
    requires i <= |stack|
    ensures CutIndex(stack, name, i).Nothing? <==> forall k :: 1 <= k < i ==> !EndsWithName(stack[k].path, name)
    ensures CutIndex(stack, name, i).Some? ==>
      EndsWithName(stack[CutIndex(stack, name, i).value].path, name)
      && forall k :: CutIndex(stack, name, i).value < k < i ==> !EndsWithName(stack[k].path, name)
    decreases i
  {
    if i > 1 && !EndsWithName(stack[i - 1].path, name) {
      CutIndexInnermost(stack, name, i - 1);
    }
  }

  /** After an EndElement for name the stack is cut to just below the
      innermost non-root frame whose path ends in '/' + name, and left as
      it is when no such frame exists. */
  lemma AfterEndCut(stack: seq<Tag>, name: Bytes)
    ensures (forall k :: 1 <= k < |stack| ==> !EndsWithName(stack[k].path, name)) ==> AfterEnd(stack, name) == stack
    ensures forall i :: (1 <= i < |stack| && EndsWithName(stack[i].path, name)
                         && (forall k :: i < k < |stack| ==> !EndsWithName(stack[k].path, name)))
                        ==> AfterEnd(stack, name) == stack[..i]
  {
    CutIndexInnermost(stack, name, |stack|);
    forall i | 1 <= i < |stack| && EndsWithName(stack[i].path, name)
      && (forall k :: i < k < |stack| ==> !EndsWithName(stack[k].path, name))
      ensures AfterEnd(stack, name) == stack[..i]
    {
      var c := CutIndex(stack, name, |stack|);
      assert c.Some?;
    }
  }

  /** A frame pushed for a StartElement ends in '/' + its name, so the
      EndElement for that name, met next, cuts exactly that frame. */
  lemma EndCutsOwnFrame(stack: seq<Tag>, name: Bytes)
    requires |stack| >= 2 && |Top(stack).path| >= 1
    requires Top(stack).path == Top(stack[..|stack| - 1]).path + "/" + name
    ensures AfterEnd(stack, name) == stack[..|stack| - 1]
  {
    var path := Top(stack).path;
    var prefix := Top(stack[..|stack| - 1]).path;
    assert path[|path| - |name| - 1] == '/' by {
      assert path == (prefix + "/") + name;
      assert path[|prefix|] == '/';
    }
    assert path[|path| - |name|..] == name;
    assert EndsWithName(stack[|stack| - 1].path, name);
  }

  /** StartElement followed by the EndElement for the same name restores
      the stack the StartElement started from. */
  lemma StartThenEnd(buf: Bytes, s: Scanner)
    requires Sane(buf, s)
    requires Advance(buf, s).0.state == StartElement
    ensures var r := Advance(buf, s).0; AfterEnd(r.stack, r.name) == Prepare(s).stack
  {
    AdvanceOk(buf, s);
    StartFrameIsCut(Prepare(s).stack, Advance(buf, s).0);
  }

  /** The frame a StartElement pushed is the one AfterEnd cuts for its name. */
  lemma StartFrameIsCut(before: seq<Tag>, r: Scanner)
    requires |before| >= 1 && |r.stack| >= 1 && r.state == StartElement && EventFrames(before, r)
    ensures AfterEnd(r.stack, r.name) == before
  {
    assert r.stack[..|r.stack| - 1] == before;
    EndCutsOwnFrame(r.stack, r.name);
  }

  /** A declaration's frame lives for one event: the next call pops it and
      scans from the stack the declaration started from. */
  lemma DeclarationFrameIsPopped(buf: Bytes, s: Scanner)
    requires Sane(buf, s)
    requires Advance(buf, s).0.state == Declaration
    ensures Prepare(Advance(buf, s).0).stack == Prepare(s).stack
  {
    AdvanceOk(buf, s);
  }

  /** A pending self-closing end is reported first: EndElement with the
      same name, stack and cursor, without reading input, so no
      Characters event comes between. */
  lemma SelfClosingEnd(buf: Bytes, s: Scanner)
    requires Sane(buf, s) && s.nextEnd && s.state != EndElement && s.state != Declaration
    ensures Advance(buf, s) == (Started(s).(nextEnd := false, state := EndElement), true)
  {
  }

  /** A text run that reaches the end of the buffer is dropped: the call
      reports None and false and stores nothing. */
  lemma TrailingTextDropped(buf: Bytes, s: Scanner)
    requires Sane(buf, s) && !s.nextEnd && s.ptr < |buf| && '<' !in buf[s.ptr..]
    ensures Advance(buf, s) == (Started(Prepare(s)).(ptr := |buf|, state := None), false)
  {
    IndexFromAt(buf, s.ptr, |buf|, '<');
  }

  /** `<!` that opens neither a comment nor a CDATA section fails the name
      test and yields Error, with the cursor left after the '<'. */
  lemma BangIsError(buf: Bytes, s: Scanner)
    requires Sane(buf, s) && !s.nextEnd && s.ptr + 1 < |buf| && buf[s.ptr] == '<' && buf[s.ptr + 1] == '!'
    requires !(s.ptr + 9 < |buf| && buf[s.ptr..s.ptr + 9] == CDataOpen)
    requires !(s.ptr + 4 < |buf| && buf[s.ptr + 1..s.ptr + 4] == CommentOpen)
    ensures Advance(buf, s) == (Started(Prepare(s)).(ptr := s.ptr + 1, state := Error), true)
  {
  }

  /** A '<' not followed by '!' opens neither a CDATA section nor a comment. */
  lemma NotBang(buf: Bytes, p: nat)
    requires p + 1 < |buf| && buf[p + 1] != '!'
    ensures !(p + 9 < |buf| && buf[p..p + 9] == CDataOpen)
    ensures !(p + 4 < |buf| && buf[p + 1..p + 4] == CommentOpen)
  {
    if p + 9 < |buf| {
      assert buf[p..p + 9][1] == buf[p + 1];
    }
    if p + 4 < |buf| {
      assert buf[p + 1..p + 4][0] == buf[p + 1];
    }
  }

  /** A name that runs up to '>' has no attributes. */
  lemma BareName(buf: Bytes, s: Scanner, start: Byte, k: nat)
    requires Sane(buf, s) && s.chars.Ptr? && s.ptr < k < |buf| && buf[k] == '>'
    requires IsSymF(buf[s.ptr]) && start != '!'
    requires forall j :: s.ptr < j < k ==> IsSym(buf[j])
    ensures ScanTag(buf, s, start) == CloseTag(buf, s.(ptr := k, name := buf[s.ptr..k]), start, [])
  {
    SymEndAt(buf, s.ptr + 1, k);
  }

  lemma CloseAtGt(buf: Bytes, t: Scanner, k: nat, name: Bytes, start: Byte)
    requires Sane(buf, t) && t.chars.Ptr? && !t.nextEnd && t.chars.at <= k < |buf| && buf[k] == '>'
    requires start == '\0' || start == '/'
    ensures CloseTag(buf, t.(ptr := k, name := name), start, []) ==
      if start == '/' then (t.(ptr := k + 1, chars := Null, state := EndElement, name := name), true)
      else (t.(ptr := k + 1, chars := Null, state := StartElement, name := name,
               stack := t.stack + [Tag(Top(t.stack).path + "/" + name, [], [])]), true)
  {
  }

  lemma ScanBareTag(buf: Bytes, t: Scanner, start: Byte, k: nat)
    requires Sane(buf, t) && t.chars.Ptr? && !t.nextEnd
    requires start == '\0' || start == '/'
    requires var n0 := if start == '/' then t.ptr + 2 else t.ptr + 1;
      n0 < k < |buf| && buf[t.ptr] == '<' && (start == '/' <==> buf[t.ptr + 1] == '/')
      && IsSymF(buf[n0]) && buf[k] == '>' && forall j :: n0 < j < k ==> IsSym(buf[j])
    ensures var n0 := if start == '/' then t.ptr + 2 else t.ptr + 1;
      Scan(buf, t) == CloseTag(buf, t.(ptr := k, name := buf[n0..k]), start, [])
  {
    var p := t.ptr;
    var n0 := if start == '/' then p + 2 else p + 1;
    NotBang(buf, p);
    assert Scan(buf, t) == ScanMarkup(buf, t.(ptr := p + 1));
    assert ScanMarkup(buf, t.(ptr := p + 1)) == ScanTag(buf, t.(ptr := n0), start);
    BareName(buf, t.(ptr := n0), start, k);
  }

  /** A start tag without attributes, `<name>`, pushes one frame whose
      path is the parent's path, '/' and the name. */
  lemma BareStartTag(buf: Bytes, s: Scanner, k: nat)
    requires Sane(buf, s) && !s.nextEnd
    requires s.ptr + 1 < k < |buf| && buf[s.ptr] == '<' && IsSymF(buf[s.ptr + 1]) && buf[k] == '>'
    requires forall j :: s.ptr + 1 < j < k ==> IsSym(buf[j])
    ensures var t := Started(Prepare(s)); var name := buf[s.ptr + 1..k];
      Advance(buf, s) == (t.(ptr := k + 1, chars := Null, state := StartElement, name := name,
                             stack := t.stack + [Tag(Top(t.stack).path + "/" + name, [], [])]), true)
  {
    var t := Started(Prepare(s));
    AdvanceScans(buf, s, t);
    ScanBareStartTag(buf, t, k);
  }

  lemma ScanBareStartTag(buf: Bytes, t: Scanner, k: nat)
    requires Sane(buf, t) && t.chars.Ptr? && !t.nextEnd
    requires t.ptr + 1 < k < |buf| && buf[t.ptr] == '<' && IsSymF(buf[t.ptr + 1]) && buf[k] == '>'
    requires forall j :: t.ptr + 1 < j < k ==> IsSym(buf[j])
    ensures var name := buf[t.ptr + 1..k];
      Scan(buf, t) == (t.(ptr := k + 1, chars := Null, state := StartElement, name := name,
                          stack := t.stack + [Tag(Top(t.stack).path + "/" + name, [], [])]), true)
  {
    ScanBareTag(buf, t, '\0', k);
    CloseAtGt(buf, t, k, buf[t.ptr + 1..k], '\0');
  }

  /** A tag `<name …>` or `<?name …?>`, attributes and all: the event's
      name is the tag's name, and the frame a StartElement or Declaration
      pushes holds the attributes scanned after that name. */
  lemma TagAttributesRecorded(buf: Bytes, s: Scanner)
    requires Sane(buf, s) && !s.nextEnd
    requires s.ptr + 1 < |buf| && buf[s.ptr] == '<' && (IsSymF(buf[s.ptr + 1]) || buf[s.ptr + 1] == '?')
    ensures var start: Byte := if buf[s.ptr + 1] == '?' then '?' else '\0';
      var e := SymEnd(buf, s.ptr + 2); var r := Advance(buf, s).0;
      r.name == buf[s.ptr + 1..e]
      && (r.state == StartElement || r.state == Declaration ==>
            |r.stack| >= 1 && Top(r.stack).atts == TagAttributes(buf, e, start, true).1)
  {
    var t := Started(Prepare(s));
    AdvanceScans(buf, s, t);
    ScanAtTagRecords(buf, t);
  }

  /** Advance is the scan of the prepared snapshot, which keeps the cursor. */
  lemma AdvanceScans(buf: Bytes, s: Scanner, t: Scanner)
    requires Sane(buf, s) && t == Started(Prepare(s))
    ensures Advance(buf, s) == Scan(buf, t)
    ensures Sane(buf, t) && t.chars.Ptr? && t.ptr == s.ptr && t.nextEnd == s.nextEnd
  {
  }

  /** The same, one level down: the scan from a started snapshot at `<name`
      or `<?name`. */
  lemma ScanAtTagRecords(buf: Bytes, t: Scanner)
    requires Sane(buf, t) && t.chars.Ptr? && !t.nextEnd
    requires t.ptr + 1 < |buf| && buf[t.ptr] == '<' && (IsSymF(buf[t.ptr + 1]) || buf[t.ptr + 1] == '?')
    ensures var start: Byte := if buf[t.ptr + 1] == '?' then '?' else '\0';
      var e := SymEnd(buf, t.ptr + 2); var r := Scan(buf, t).0;
      r.name == buf[t.ptr + 1..e]
      && (r.state == StartElement || r.state == Declaration ==>
            |r.stack| >= 1 && Top(r.stack).atts == TagAttributes(buf, e, start, true).1)
  {
    var start: Byte := if buf[t.ptr + 1] == '?' then '?' else '\0';
    ScanAtTag(buf, t);
    ScanTagRecords(buf, t.(ptr := t.ptr + 1), start);
  }

  /** At `<name` or `<?name` the scan is the scan of that tag. */
  lemma ScanAtTag(buf: Bytes, t: Scanner)
    requires Sane(buf, t) && t.chars.Ptr? && !t.nextEnd
    requires t.ptr + 1 < |buf| && buf[t.ptr] == '<' && (IsSymF(buf[t.ptr + 1]) || buf[t.ptr + 1] == '?')
    ensures var start: Byte := if buf[t.ptr + 1] == '?' then '?' else '\0';
      Scan(buf, t) == ScanTag(buf, t.(ptr := t.ptr + 1), start)
  {
    var start: Byte := if buf[t.ptr + 1] == '?' then '?' else '\0';
    NotBang(buf, t.ptr);
    assert Scan(buf, t) == ScanMarkup(buf, t.(ptr := t.ptr + 1));
  }

  /** An end tag `</name>` reports EndElement with that name and leaves the
      stack to the next call. */
  lemma BareEndTag(buf: Bytes, s: Scanner, k: nat)
    requires Sane(buf, s) && !s.nextEnd
    requires s.ptr + 2 < k < |buf| && buf[s.ptr] == '<' && buf[s.ptr + 1] == '/' && IsSymF(buf[s.ptr + 2]) && buf[k] == '>'
    requires forall j :: s.ptr + 2 < j < k ==> IsSym(buf[j])
    ensures var t := Started(Prepare(s));
      Advance(buf, s) == (t.(ptr := k + 1, chars := Null, state := EndElement, name := buf[s.ptr + 2..k]), true)
  {
    var t := Started(Prepare(s));
    AdvanceScans(buf, s, t);
    ScanBareTag(buf, t, '/', k);
    CloseAtGt(buf, t, k, buf[s.ptr + 2..k], '/');
  }

  /** A text run ending at '<' is stored raw, from where the pending text
      started, as a fragment of the top frame. */
  lemma TextRun(buf: Bytes, s: Scanner, k: nat)
    requires Sane(buf, s) && !s.nextEnd
    requires s.ptr < k < |buf| && buf[k] == '<'
    requires forall j :: s.ptr <= j < k ==> buf[j] != '<'
    ensures var t := Started(Prepare(s));
      Advance(buf, s) == (t.(ptr := k, chars := Null, state := Characters,
                             stack := TopAppended(t.stack, TextPart, buf[t.chars.at..k])), true)
  {
    IndexFromAt(buf, s.ptr, k, '<');
  }

  // ---------------------------------------------------------------------
  // Traversal properties

  /** With marks set and no held event, a reported event pops the
      innermost mark, arms hold and yields false exactly when its depth is
      below that mark; otherwise it is passed on unchanged. */
  lemma MarkBoundary(buf: Bytes, t: Session)
    requires Sane(buf, t.scan) && !t.held && t.marks != [] && Advance(buf, t.scan).1
    ensures var r := NextEvent(buf, t); var e := Advance(buf, t.scan).0;
      r.0.scan == e
      && (!r.1 <==> EventDepth(e) < t.marks[|t.marks| - 1])
      && (!r.1 ==> r.0.marks == t.marks[..|t.marks| - 1] && r.0.held)
      && (r.1 ==> r.0.marks == t.marks && !r.0.held)
  {
  }

  /** The event that ended a nested traversal is seen again by the next
      call, which returns true and changes nothing else. */
  lemma HeldEventIsReplayed(buf: Bytes, t: Session)
    requires Sane(buf, t.scan) && !t.held
    requires NextEvent(buf, t).0.held
    ensures var r := NextEvent(buf, t);
      !r.1 && r.0.scan == Advance(buf, t.scan).0
      && NextEvent(buf, r.0) == (r.0.(held := false), true)
  {
  }

  // ---------------------------------------------------------------------
  // The reader object

  class Reader {
    const buf: Bytes
    var ptr: nat
    var chars: Mark
    var state: StateType
    var nextEnd: bool
    var name: Bytes
    var stack: seq<Tag>
    var marks: seq<int>
    var held: bool

    function Snap(): Scanner
      reads this
    {
      Scanner(ptr, chars, state, nextEnd, name, stack)
    }

    function Traversal(): Session
      reads this
    {
      Session(Snap(), marks, held)
    }

    ghost predicate Valid()
      reads this
    {
      Sane(buf, Snap()) && NulFree(Snap()) && NoEmptyParts(stack)
    }

    /** Reader(begin, end): d.hold, left uninitialised there, starts false. */
    constructor (b: Bytes)
      ensures buf == b && Snap() == Initial() && marks == [] && !held
      ensures Valid()
    {
      buf := b;
      ptr := 0;
      chars := Null;
      state := None;
      nextEnd := false;
      name := [];
      stack := [RootFrame];
      marks := [];
      held := false;
    }

    function Depth(): (d: int)
      reads this
      requires Valid()
      ensures d >= 1
    {
      |stack|
    }

    method Hold()
      modifies this
      ensures held && Snap() == old(Snap()) && marks == old(marks)
    {
      held := true;
    }

    /** Marks the current depth as the bound of a nested traversal. */
    method Nest()
      requires Valid()
      modifies this
      ensures marks == old(marks) + [|stack|] && Snap() == old(Snap()) && held == old(held)
    {
      marks := marks + [|stack|];
    }

    method ResetStack()
      modifies this
      ensures stack == [RootFrame]
      ensures ptr == old(ptr) && chars == old(chars) && state == old(state) && nextEnd == old(nextEnd)
      ensures name == old(name) && marks == old(marks) && held == old(held)
    {
      stack := [RootFrame];
    }

    method AppendChars(kind: PartKind, begin: nat, end: nat)
      requires |stack| >= 1 && begin <= end <= |buf|
      modifies this
      ensures stack == TopAppended(old(stack), kind, buf[begin..end])
      ensures ptr == old(ptr) && chars == old(chars) && state == old(state) && nextEnd == old(nextEnd)
      ensures name == old(name) && marks == old(marks) && held == old(held)
    {
      var top := stack[|stack| - 1];
      if begin != end {
        top := top.(chars := top.chars + [CharPart(kind, buf[begin..end])]);
      }
      stack := stack[..|stack| - 1] + [top];
    }

    /** The frame maintenance at the head of _internal_next (453-473). */
    method PrepareStack()
      requires Valid()
      modifies this
      ensures Snap() == Prepare(old(Snap())) && marks == old(marks) && held == old(held)
    {
      if state == EndElement {
        var i := |stack|;
        while i > 1
          invariant 1 <= i <= |stack|
          invariant stack == old(stack)
          invariant CutIndex(stack, name, i) == CutIndex(stack, name, |stack|)
          decreases i
        {
          i := i - 1;
          var path := stack[i].path;
          var s := |path|;
          var n := |name|;
          if s > n {
            if path[s - n - 1] == '/' && path[s - n..] == name {
              stack := stack[..i];
              break;
            }
          }
        }
      } else if state == Declaration {
        if |stack| > 1 {
          stack := stack[..|stack| - 1];
        } else {
          ResetStack();
        }
      }
    }

    /** The close of a tag (583-611). */
    method FinishTag(start: Byte, atts: seq<Attr>) returns (more: bool)
      requires Valid() && chars.Ptr?
      modifies this
      ensures (Snap(), more) == CloseTag(buf, old(Snap()), start, atts)
      ensures marks == old(marks) && held == old(held)
    {
      if ptr < |buf| && buf[ptr] == '/' {
        ptr := ptr + 1;
        nextEnd := true;
      }
      if start == '!' || (start == '?' && ptr < |buf| && buf[ptr] == '?') {
        ptr := ptr + 1;
        if ptr < |buf| && buf[ptr] == '>' {
          ptr := ptr + 1;
          stack := stack + [Tag(name, atts, [])];
          state := Declaration;
          return true;
        }
      }
      if ptr < |buf| && buf[ptr] == '>' {
        ptr := ptr + 1;
        chars := Null;
        if start == '/' {
          state := EndElement;
        } else {
          stack := stack + [Tag(stack[|stack| - 1].path + "/" + name, atts, [])];
          state := StartElement;
        }
        return true;
      }
      state := Error;
      return true;
    }

    /** A tag from its name on (515-611). */
    method ReadTag(start: Byte) returns (more: bool)
      requires Valid() && ptr < |buf| && chars.Ptr?
      requires IsSymF(buf[ptr]) || buf[ptr] == '?'
      requires start == '!' ==> buf[ptr] == '!'
      modifies this
      ensures (Snap(), more) == ScanTag(buf, old(Snap()), start)
      ensures marks == old(marks) && held == old(held)
    {
      var left := ptr;
      ptr := SkipSymLoop(buf, ptr + 1);
      name := buf[left..ptr];
      var atts;
      ptr, atts := ScanAttributes(buf, ptr, start, true);
      more := FinishTag(start, atts);
    }

    /** A comment after "<!--" (499-509): its text up to "-->". */
    method ReadComment()
      requires Valid() && chars.Ptr?
      requires ptr + 3 < |buf| && buf[ptr..ptr + 3] == CommentOpen
      modifies this
      ensures (Snap(), true) == ScanMarkup(buf, old(Snap()))
      ensures marks == old(marks) && held == old(held)
    {
      ptr := ptr + 3;
      var left := ptr;
      ptr := FindDelim(buf, ptr, CommentClose);
      AppendChars(CommentPart, left, ptr);
      ptr := Min(ptr + 3, |buf|);
      chars := Null;
      state := Comment;
    }

    /** The markup after a '<' (488-611): a comment, or a tag. */
    method ReadMarkup() returns (more: bool)
      requires Valid() && chars.Ptr?
      modifies this
      ensures (Snap(), more) == ScanMarkup(buf, old(Snap()))
      ensures marks == old(marks) && held == old(held)
    {
      if ptr + 3 < |buf| && buf[ptr..ptr + 3] == CommentOpen {
        ReadComment();
        return true;
      }
      ghost var s0 := Snap();
      var start: Byte := '\0';
      if ptr < |buf| && buf[ptr] == '/' {
        start := buf[ptr];
        ptr := ptr + 1;
      } else if ptr < |buf| && (buf[ptr] == '?' || buf[ptr] == '!') {
        start := buf[ptr];
      }
      assert Snap() == s0.(ptr := ptr);
      if ptr < |buf| && (IsSymF(buf[ptr]) || buf[ptr] == '?') {
        more := ReadTag(start);
      } else {
        state := Error;
        more := true;
      }
    }

    /** The body of the scanning loop of _internal_next (474-637). */
    method ReadEvent() returns (more: bool)
      requires Valid() && chars.Ptr?
      modifies this
      ensures (Snap(), more) == Scan(buf, old(Snap()))
      ensures marks == old(marks) && held == old(held)
    {
      if nextEnd {
        nextEnd := false;
        state := EndElement;
        return true;
      }
      if ptr + 9 < |buf| && buf[ptr] == '<' {
        if buf[ptr..ptr + 9] == CDataOpen {
          ptr := ptr + 9;
          var left := ptr;
          ptr := FindDelim(buf, ptr, CDataClose);
          AppendChars(CDataPart, left, ptr);
          ptr := Min(ptr + 3, |buf|);
          chars := Null;
          state := Characters;
          return true;
        }
      }
      if ptr < |buf| && buf[ptr] == '<' {
        ptr := ptr + 1;
        more := ReadMarkup();
      } else if ptr < |buf| {
        ptr := FindByte(buf, ptr, '<');
        if ptr == |buf| {
          state := None;
          return false;
        }
        AppendChars(TextPart, chars.at, ptr);
        chars := Null;
        state := Characters;
        return true;
      } else {
        state := None;
        return false;
      }
    }

    /** _internal_next. */
    method InternalNext() returns (more: bool)
      requires Valid()
      modifies this
      ensures Valid()
      ensures (Snap(), more) == Advance(buf, old(Snap()))
      ensures marks == old(marks) && held == old(held)
    {
      ghost var s0 := Snap();
      PrepareStack();
      if chars.Null? {
        chars := Ptr(ptr);
      }
      more := ReadEvent();
      AdvanceOk(buf, s0);
      AdvanceNulFree(buf, s0);
      AdvanceNoEmptyParts(buf, s0);
    }

    /** next(). */
    method Next() returns (more: bool)
      requires Valid()
      modifies this
      ensures Valid()
      ensures (Traversal(), more) == NextEvent(buf, old(Traversal()))
    {
      if held {
        held := false;
        return true;
      }
      more := InternalNext();
      if more {
        if marks == [] {
          return true;
        }
        var e := |stack|;
        if state == EndElement && e > 0 {
          e := e - 1;
        }
        if e >= marks[|marks| - 1] {
          return true;
        }
        marks := marks[..|marks| - 1];
        Hold();
        more := false;
      }
    }
  
    // -------------------------------------------------------------------
    // Queries (639-732)

    /** path() and current_path(): the top frame's path. */
    function Path(): Bytes
      reads this
      requires Valid()
    {
      Top(stack).path
    }

    /** match_start: a StartElement whose path is p, or p less one
        trailing '/'. */
    function MatchStart(p: Bytes): (b: bool)
      reads this
      requires Valid() && '\0' !in p
      ensures b <==> state == StartElement && (p == Path() || p == Path() + "/")
    {
      MatchInternalMeaning(p, Path());
      state == StartElement && MatchInternal(p, Path())
    }

    /** match_end: the same for an EndElement. */
    function MatchEnd(p: Bytes): (b: bool)
      reads this
      requires Valid() && '\0' !in p
      ensures b <==> state == EndElement && (p == Path() || p == Path() + "/")
    {
      MatchInternalMeaning(p, Path());
      state == EndElement && MatchInternal(p, Path())
    }

    /** is_element_name(char const *): strncmp over the name's length, then
        the terminator. */
    function IsElementName(s: Bytes): (b: bool)
      reads this
      requires Valid() && '\0' !in s
      ensures b <==> s == name
    {
      StrNEqualMeaning(s, name, |name|);
      var sz := s + ['\0'];
      StrNEqual(sz, name + ['\0'], |name|) && |name| < |sz| && sz[|name|] == '\0'
    }

    function IsStartElementNamed(s: Bytes): (b: bool)
      reads this
      requires Valid() && '\0' !in s
      ensures b <==> state == StartElement && s == name
    {
      state == StartElement && IsElementName(s)
    }

    function IsEndElementNamed(s: Bytes): (b: bool)
      reads this
      requires Valid() && '\0' !in s
      ensures b <==> state == EndElement && s == name
    {
      state == EndElement && IsElementName(s)
    }

    /** is_name: the byte loop over the element name. */
    method IsName(s: Bytes) returns (b: bool)
      requires Valid() && '\0' !in s
      ensures b <==> s == name
    {
      var sz := s + ['\0'];
      var n := |name|;
      var i := 0;
      while i < n
        invariant i <= n && i <= |s|
        invariant sz[..i] == name[..i]
      {
        if sz[i] != name[i] {
          return false;
        }
        assert sz[..i + 1] == name[..i + 1] by {
          assert sz[..i + 1] == sz[..i] + [sz[i]];
          assert name[..i + 1] == name[..i] + [name[i]];
        }
        i := i + 1;
      }
      b := sz[n] == '\0';
      assert sz[..n] == name;
      if b {
        assert s == sz[..n];
      } else {
        assert n < |s|;
      }
    }

    /** text(): the top frame's fragments decoded in order. */
    method Text() returns (r: Bytes)
      requires Valid()
      ensures r == PartsText(Top(stack).chars)
    {
      var parts := stack[|stack| - 1].chars;
      r := [];
      var i := 0;
      while i < |parts|
        invariant 0 <= i <= |parts|
        invariant r == PartsText(parts[..i])
      {
        var v := DecodePart(parts[i]);
        assert parts[..i + 1][..i] == parts[..i];
        r := r + v;
        i := i + 1;
      }
      assert parts[..i] == parts;
    }

    /** characters(): the last fragment of the top frame, or an empty text
        fragment. */
    function LastCharacters(): (c: CharPart)
      reads this
      requires Valid()
      ensures Top(stack).chars == [] ==> c == CharPart(TextPart, [])
      ensures Top(stack).chars != [] ==> c == Top(stack).chars[|Top(stack).chars| - 1] && c.bytes != []
    {
      var parts := Top(stack).chars;
      if parts == [] then CharPart(TextPart, []) else parts[|parts| - 1]
    }

    /** attribute(name): the raw value of the first attribute of the top
        frame with that key. */
    method Attribute(key: Bytes) returns (r: Option<Bytes>)
      requires Valid()
      ensures r == Lookup(Top(stack).atts, key)
    {
      var atts := stack[|stack| - 1].atts;
      var i := 0;
      while i < |atts|
        invariant 0 <= i <= |atts|
        invariant Lookup(atts[i..], key) == Lookup(atts, key)
      {
        if atts[i].key == key {
          return Some(atts[i].value);
        }
        assert atts[i..][1..] == atts[i + 1..];
        i := i + 1;
      }
      return Nothing;
    }

    /** attribute(name, defval): the first match decoded, or defval. */
    method AttributeOr(key: Bytes, defval: Bytes) returns (r: Bytes)
      requires Valid()
      ensures r == match Lookup(Top(stack).atts, key) case Some(v) => Decoded(v) case Nothing => defval
    {
      var v := Attribute(key);
      if v.Some? {
        r := HtmlDecode(v.value);
      } else {
        r := defval;
      }
    }

    /** attributes(): every recorded pair, in order, with decoded values. */
    method Attributes() returns (r: seq<Attr>)
      requires Valid()
      ensures r == DecodedAttrs(Top(stack).atts)
    {
      var atts := stack[|stack| - 1].atts;
      r := [];
      var i := 0;
      while i < |atts|
        invariant 0 <= i <= |atts|
        invariant r == DecodedAttrs(atts[..i])
      {
        var v := HtmlDecode(atts[i].value);
        assert atts[..i + 1][..i] == atts[..i];
        r := r + [Attr(atts[i].key, v)];
        i := i + 1;
      }
      assert atts[..i] == atts;
    }
  }
}
