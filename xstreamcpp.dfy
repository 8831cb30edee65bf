/**
 * The earliest tokenizer, the class xstream of xstream.cpp. It tracks no
 * path: an event is a state, the element name, the raw attribute spans and
 * one flat byte buffer of characters. Every call of next() returns at once,
 * so there is no outer loop; a text run is reported up to the next '<' or
 * the end of the input, and a processing instruction is an Error.
 */
module XStreamCpp {
  import opened ByteText
  import opened Attributes
  import XStream
  import XStreamCodec

  datatype StateType = None | Error | Comment | BeginElement | EndElement | Characters

  const CommentOpen: Bytes := "!--"
  const CommentClose: Bytes := "-->"
  const CDataOpen: Bytes := "![CDATA["
  const CDataClose: Bytes := "]]>"

  /** The fields of the tokenizer. chars is the chars_ pointer, where the
      current text run began, or Null once an event has consumed it;
      characters is the characters_ buffer. */
  datatype Scanner = Scanner(
    ptr: nat,
    chars: Mark,
    characters: Bytes,
    atts: seq<Attr>,
    state: StateType,
    nextEnd: bool,
    name: Bytes)

  /** The cursor lies in the buffer and chars_ never points past it. */
  predicate Sane(buf: Bytes, s: Scanner)
  {
    s.ptr <= |buf| && (s.chars.Ptr? ==> s.chars.at <= s.ptr)
  }

  /** The state after the constructors (init, 55-58 and 103-115). */
  function Initial(): (s: Scanner)
    ensures s.ptr == 0 && s.state == None && !s.nextEnd
  {
    Scanner(0, Null, [], [], None, false, [])
  }

  /** The head of next() (119-122): with chars_ unset, the characters are
      cleared and a run begins at the cursor. */
  function Begin(s: Scanner): (t: Scanner)
    ensures t.chars.Ptr?
  {
    if s.chars.Null? then s.(characters := [], chars := Ptr(s.ptr)) else s
  }

  /** The close of a tag (220-232): an optional '/' defers an end tag, and
      the tag is an event only if '>' follows. An end tag is one whose
      markup began with '/'. */
  function CloseTag(buf: Bytes, s: Scanner, start: Byte): Scanner
    requires Sane(buf, s)
  {
    var s1 := if s.ptr < |buf| && buf[s.ptr] == '/' then s.(ptr := s.ptr + 1, nextEnd := true) else s;
    if s1.ptr < |buf| && buf[s1.ptr] == '>'
    then s1.(ptr := s1.ptr + 1, chars := Null, state := if start == '/' then EndElement else BeginElement)
    else s1.(state := Error)
  }

  /** A tag whose name starts at the cursor (157-232). */
  function ScanTag(buf: Bytes, s: Scanner, start: Byte): Scanner
    requires Sane(buf, s) && s.ptr < |buf| && IsSymF(buf[s.ptr])
  {
    var e := SymEnd(buf, s.ptr + 1);
    var (a, atts) := TagAttributes(buf, e, start, false);
    CloseTag(buf, s.(ptr := a, name := buf[s.ptr..e], characters := [], atts := atts), start)
  }

  /** A tag after '<' (154-232): a leading '/', '!' or '?' is consumed, and
      the name must start with a NameStartChar byte. */
  function ScanStart(buf: Bytes, s: Scanner): Scanner
    requires Sane(buf, s)
  {
    var p := s.ptr;
    var start: Byte := if p < |buf| && (buf[p] == '/' || buf[p] == '!' || buf[p] == '?') then buf[p] else '\0';
    var n0 := if start != '\0' then p + 1 else p;
    if n0 < |buf| && IsSymF(buf[n0]) then ScanTag(buf, s.(ptr := n0), start)
    else s.(ptr := n0, state := Error)
  }

  /** The markup after '<' (129-232), with characters_ cleared: a comment
      keeps its body as the characters and reports Comment; anything else
      is a CDATA section or a tag. An unterminated comment ends at the end
      of the buffer. */
  function ScanMarkup(buf: Bytes, s: Scanner): Scanner
    requires Sane(buf, s)
  {
    var p := s.ptr;
    if OpensWith(buf, p, CommentOpen) then
      var q := DelimFrom(buf, p + 3, CommentClose);
      s.(ptr := DelimEnd(buf, p + 3, CommentClose), characters := buf[p + 3..q], state := Comment)
    else ScanSection(buf, s)
  }

  /** A CDATA section (143-153) keeps its body, unsets chars_ and leaves
      the state as it was; an unterminated one ends at the end of the
      buffer. Anything else is a tag. */
  function ScanSection(buf: Bytes, s: Scanner): Scanner
    requires Sane(buf, s)
  {
    var p := s.ptr;
    if OpensWith(buf, p, CDataOpen) then
      var q := DelimFrom(buf, p + 8, CDataClose);
      s.(ptr := DelimEnd(buf, p + 8, CDataClose), characters := buf[p + 8..q], chars := Null)
    else ScanStart(buf, s)
  }

  /** next() (117-249) on a state whose chars_ is set. */
  function Step(buf: Bytes, s: Scanner): (r: (Scanner, bool))
    requires Sane(buf, s) && s.chars.Ptr?
  {
    var p := s.ptr;
    if s.nextEnd then (s.(nextEnd := false, state := EndElement), true)
    else if p < |buf| && buf[p] == '<' then (ScanMarkup(buf, s.(ptr := p + 1, characters := [])), true)
    else if p < |buf| then
      var q := IndexFrom(buf, p, '<');
      (s.(ptr := q, characters := s.characters + buf[s.chars.at..q], state := Characters), true)
    else (s.(state := None), false)
  }

  /** next() (117-249): the new state and the result. */
  function NextEvent(buf: Bytes, s: Scanner): (Scanner, bool)
    requires Sane(buf, s)
  {
    Step(buf, Begin(s))
  }

  /** text() (254-264). */
  function EventText(s: Scanner): Bytes
  {
    match s.state
    case BeginElement => s.name
    case EndElement => s.name
    case Characters => XStreamCodec.Unescaped(s.characters)
    case _ => []
  }

  // ---------------------------------------------------------------------
  // Properties

  /** Each call keeps the cursor in the buffer and never moves it back, and
      a call returns false only with None at the end of the buffer: every
      other outcome, Error included, returns true. */
  lemma NextOk(buf: Bytes, s: Scanner)
    requires Sane(buf, s)
    ensures var (r, more) := NextEvent(buf, s);
      Sane(buf, r) && s.ptr <= r.ptr && (!more ==> r.state == None && r.ptr == |buf|)
  {
    var t := Begin(s);
    assert Sane(buf, t) && t.ptr == s.ptr;
    StepOk(buf, t);
  }

  /** The same for one step from a state whose chars_ is set. */
  lemma StepOk(buf: Bytes, t: Scanner)
    requires Sane(buf, t) && t.chars.Ptr?
    ensures var (r, more) := Step(buf, t);
      Sane(buf, r) && t.ptr <= r.ptr && (!more ==> r.state == None && r.ptr == |buf|)
  {
    var p := t.ptr;
    if !t.nextEnd && p < |buf| && buf[p] == '<' {
      var u := t.(ptr := p + 1, characters := []);
      ScanMarkupOk(buf, u);
      assert Step(buf, t) == (ScanMarkup(buf, u), true);
    } else if !t.nextEnd && p < |buf| {
      var q := IndexFrom(buf, p, '<');
      assert Step(buf, t).0.ptr == q;
    }
  }

  /** Markup leaves the cursor in the buffer, at or after where it began,
      and reports None only if the state was None already: a CDATA section
      keeps the state. */
  lemma ScanMarkupOk(buf: Bytes, s: Scanner)
    requires Sane(buf, s)
    ensures var r := ScanMarkup(buf, s); Sane(buf, r) && s.ptr <= r.ptr
    ensures ScanMarkup(buf, s).state == None ==> s.state == None
  {
  }

  /** The close of a tag: it is an event exactly when '>' follows, or "/>"
      does; an end tag exactly when the markup began with '/', otherwise a
      BeginElement; anything else is an Error. A '/' before the '>' always
      defers an EndElement. */
  lemma CloseTagMeaning(buf: Bytes, s: Scanner, start: Byte)
    requires Sane(buf, s) && !s.nextEnd
    ensures var p := s.ptr; var r := CloseTag(buf, s, start);
      var closes := (p < |buf| && buf[p] == '>') || (p + 1 < |buf| && buf[p] == '/' && buf[p + 1] == '>');
      (r.state == EndElement <==> closes && start == '/')
      && (r.state == BeginElement <==> closes && start != '/')
      && (r.state == Error <==> !closes)
      && (r.nextEnd <==> p < |buf| && buf[p] == '/')
      && (closes ==> r.chars.Null?)
  {
  }

  /** A tag keeps its name and the attributes scanned after it, whatever
      its close turns out to be, and clears the characters. */
  lemma ScanTagRecords(buf: Bytes, s: Scanner, start: Byte)
    requires Sane(buf, s) && s.ptr < |buf| && IsSymF(buf[s.ptr])
    ensures var e := SymEnd(buf, s.ptr + 1); var r := ScanTag(buf, s, start);
      r.name == buf[s.ptr..e] && r.atts == TagAttributes(buf, e, start, false).1 && r.characters == []
  {
  }

  /** A tag whose attribute scan stops at a '?' is an Error: so is a
      processing instruction such as <?xml version="1.0"?>, whose '?'
      before '>' is neither '/' nor '>'. */
  lemma QuestionMarkCloseIsError(buf: Bytes, s: Scanner, start: Byte)
    requires Sane(buf, s) && s.ptr < |buf| && IsSymF(buf[s.ptr])
    requires var a := TagAttributes(buf, SymEnd(buf, s.ptr + 1), start, false).0; a < |buf| && buf[a] == '?'
    ensures ScanTag(buf, s, start).state == Error
  {
  }

  /** The smallest declaration, <?xml?>, is an Error, not an event. */
  lemma DeclarationIsError()
    ensures NextEvent("<?xml?>", Initial()).0.state == Error
  {
    var buf: Bytes := "<?xml?>";
    assert SymEnd(buf, 3) == 5 by {
      assert IsSym(buf[3]) && IsSym(buf[4]) && !IsSym(buf[5]);
      assert SymEnd(buf, 5) == 5;
    }
    QuestionMarkCloseIsError(buf, Initial().(ptr := 2, chars := Ptr(0)), '?');
  }

  /** After a self-closing tag the next call reports EndElement for the
      same name and attributes without reading input. */
  lemma SelfClosingEnd(buf: Bytes, s: Scanner)
    requires Sane(buf, s) && s.nextEnd
    ensures var (t, more) := NextEvent(buf, s);
      more && t.state == EndElement && !t.nextEnd && t.ptr == s.ptr && t.name == s.name && t.atts == s.atts
  {
  }

  // The lemmas below are about Step, what next() does once its head has
  // set chars_: NextEvent(buf, s) is Step(buf, Begin(s)).

  /** A text run ends at the next '<', or at the end of the input, and is
      reported as Characters: the bytes from where the run began are
      appended to the characters. */
  lemma TextReported(buf: Bytes, t: Scanner, q: nat)
    requires Sane(buf, t) && t.chars.Ptr? && !t.nextEnd && t.ptr < |buf| && buf[t.ptr] != '<'
    requires q == IndexFrom(buf, t.ptr, '<')
    ensures Step(buf, t) == (t.(ptr := q, characters := t.characters + buf[t.chars.at..q], state := Characters), true)
  {
  }

  /** Text that runs to the end of the input is reported too; the call
      after it reports None and returns false. */
  lemma TrailingTextReported(buf: Bytes, t: Scanner)
    requires Sane(buf, t) && t.chars.Ptr? && !t.nextEnd && t.ptr < |buf| && buf[t.ptr] != '<'
    requires IndexFrom(buf, t.ptr, '<') == |buf|
    ensures var (r, more) := Step(buf, t);
      more && r.state == Characters && r.ptr == |buf| && NextEvent(buf, r) == (r.(state := None), false)
  {
  }

  /** The text of a reported run is the decoded characters: the bytes held
      before, then the run. */
  lemma ReportedTextIsDecoded(buf: Bytes, t: Scanner, q: nat)
    requires Sane(buf, t) && t.chars.Ptr? && !t.nextEnd && t.ptr < |buf| && buf[t.ptr] != '<'
    requires q == IndexFrom(buf, t.ptr, '<')
    ensures EventText(Step(buf, t).0) == XStreamCodec.Unescaped(t.characters + buf[t.chars.at..q])
  {
    TextReported(buf, t, q);
  }

  /** Markup that opens with "!--" is a comment. */
  lemma CommentScanned(buf: Bytes, u: Scanner, q: nat)
    requires Sane(buf, u) && OpensWith(buf, u.ptr, CommentOpen) && q == DelimFrom(buf, u.ptr + 3, CommentClose)
    ensures ScanMarkup(buf, u) == u.(ptr := DelimEnd(buf, u.ptr + 3, CommentClose), characters := buf[u.ptr + 3..q], state := Comment)
  {
  }

  /** What a call does at a '<': it reports the markup after it. */
  lemma StepAtMarkup(buf: Bytes, t: Scanner)
    requires Sane(buf, t) && t.chars.Ptr? && !t.nextEnd && t.ptr < |buf| && buf[t.ptr] == '<'
    ensures Step(buf, t) == (ScanMarkup(buf, t.(ptr := t.ptr + 1, characters := [])), true)
  {
  }

  /** A start tag `<name …>` at the cursor is reported with the tag's name
      and the attributes scanned after that name. */
  lemma TagAttributesRecorded(buf: Bytes, t: Scanner)
    requires Sane(buf, t) && t.chars.Ptr? && !t.nextEnd
    requires t.ptr + 1 < |buf| && buf[t.ptr] == '<' && IsSymF(buf[t.ptr + 1])
    ensures var e := SymEnd(buf, t.ptr + 2); var r := Step(buf, t).0;
      r.name == buf[t.ptr + 1..e] && r.atts == TagAttributes(buf, e, '\0', false).1
  {
    var u := t.(ptr := t.ptr + 1, characters := []);
    StepAtMarkup(buf, t);
    MarkupIsTag(buf, u);
    ScanTagRecords(buf, u, '\0');
  }

  /** Markup that starts with a name byte is a start tag. */
  lemma MarkupIsTag(buf: Bytes, u: Scanner)
    requires Sane(buf, u) && u.ptr < |buf| && IsSymF(buf[u.ptr])
    ensures ScanMarkup(buf, u) == ScanTag(buf, u, '\0')
  {
    assert u.ptr + 3 < |buf| ==> buf[u.ptr..u.ptr + 3][0] == buf[u.ptr];
    assert u.ptr + 8 < |buf| ==> buf[u.ptr..u.ptr + 8][0] == buf[u.ptr];
    MarkupIsSection(buf, u);
  }

  /** A comment: its body becomes the characters, the state is Comment and
      its text is empty. */
  lemma CommentReported(buf: Bytes, t: Scanner, q: nat)
    requires Sane(buf, t) && t.chars.Ptr? && !t.nextEnd && t.ptr < |buf| && buf[t.ptr] == '<'
    requires OpensWith(buf, t.ptr + 1, CommentOpen) && q == DelimFrom(buf, t.ptr + 4, CommentClose)
    ensures Step(buf, t) == (t.(ptr := DelimEnd(buf, t.ptr + 4, CommentClose), characters := buf[t.ptr + 4..q], state := Comment), true)
    ensures EventText(Step(buf, t).0) == []
  {
    var u := t.(ptr := t.ptr + 1, characters := []);
    StepAtMarkup(buf, t);
    CommentScanned(buf, u, q);
  }

  /** "![CDATA[" and "!--" differ in their second byte. */
  lemma CDataIsNotComment(buf: Bytes, p: nat)
    requires OpensWith(buf, p, CDataOpen)
    ensures !OpensWith(buf, p, CommentOpen)
  {
    assert buf[p..p + 8][1] == buf[p + 1] == '[';
    if p + 3 < |buf| {
      assert buf[p..p + 3][1] == buf[p + 1];
    }
  }

  /** Markup that is not a comment is a CDATA section or a tag. */
  lemma MarkupIsSection(buf: Bytes, u: Scanner)
    requires Sane(buf, u) && !OpensWith(buf, u.ptr, CommentOpen)
    ensures ScanMarkup(buf, u) == ScanSection(buf, u)
  {
  }

  /** Markup that opens with "![CDATA[" is a CDATA section. */
  lemma CDataScanned(buf: Bytes, u: Scanner, q: nat)
    requires Sane(buf, u) && OpensWith(buf, u.ptr, CDataOpen) && q == DelimFrom(buf, u.ptr + 8, CDataClose)
    ensures ScanSection(buf, u) == u.(ptr := DelimEnd(buf, u.ptr + 8, CDataClose), characters := buf[u.ptr + 8..q], chars := Null)
  {
  }

  /** A CDATA section: its body becomes the characters, chars_ is unset and
      the state is the previous event's. */
  lemma CDataKeepsState(buf: Bytes, t: Scanner, q: nat)
    requires Sane(buf, t) && t.chars.Ptr? && !t.nextEnd && t.ptr < |buf| && buf[t.ptr] == '<'
    requires OpensWith(buf, t.ptr + 1, CDataOpen) && q == DelimFrom(buf, t.ptr + 9, CDataClose)
    ensures var (r, more) := Step(buf, t);
      more && r.state == t.state && r.chars.Null? && r.characters == buf[t.ptr + 9..q]
  {
    var u := t.(ptr := t.ptr + 1, characters := []);
    StepAtMarkup(buf, t);
    CDataIsNotComment(buf, u.ptr);
    MarkupIsSection(buf, u);
    CDataScanned(buf, u, q);
  }

  // ---------------------------------------------------------------------
  // The tokenizer object

  class Reader {
    const buf: Bytes
    var ptr: nat
    var chars: Mark
    var characters: Bytes
    var atts: seq<Attr>
    var state: StateType
    var nextEnd: bool
    var name: Bytes

    function Snap(): Scanner
      reads this
    {
      Scanner(ptr, chars, characters, atts, state, nextEnd, name)
    }

    ghost predicate Valid()
      reads this
    {
      Sane(buf, Snap())
    }

    /** xstream(begin, end) and xstream(s), by init. */
    constructor (b: Bytes)
      ensures buf == b && Snap() == Initial() && Valid()
    {
      buf := b;
      ptr := 0;
      chars := Null;
      characters := [];
      atts := [];
      state := None;
      nextEnd := false;
      name := [];
    }

    /** The close of a tag (220-232). */
    method FinishTag(start: Byte)
      requires Sane(buf, Snap())
      modifies this
      ensures Snap() == CloseTag(buf, old(Snap()), start)
    {
      if ptr < |buf| && buf[ptr] == '/' {
        ptr := ptr + 1;
        nextEnd := true;
      }
      if ptr < |buf| && buf[ptr] == '>' {
        ptr := ptr + 1;
        chars := Null;
        state := if start == '/' then EndElement else BeginElement;
        return;
      }
      state := Error;
    }

    /** A tag from its name on (157-232). */
    method ReadTag(start: Byte)
      requires Sane(buf, Snap()) && ptr < |buf| && IsSymF(buf[ptr])
      modifies this
      ensures Snap() == ScanTag(buf, old(Snap()), start)
    {
      var left := ptr;
      ptr := SkipSymLoop(buf, ptr + 1);
      characters := [];
      name := buf[left..ptr];
      atts := [];
      var a;
      ptr, a := ScanAttributes(buf, ptr, start, false);
      atts := a;
      FinishTag(start);
    }

    /** The tag after '<' (154-232). */
    method ReadStart()
      requires Sane(buf, Snap())
      modifies this
      ensures Snap() == ScanStart(buf, old(Snap()))
    {
      ghost var s0 := Snap();
      var start: Byte := '\0';
      if ptr < |buf| && (buf[ptr] == '/' || buf[ptr] == '!' || buf[ptr] == '?') {
        start := buf[ptr];
        ptr := ptr + 1;
      }
      assert Snap() == s0.(ptr := ptr);
      if ptr < |buf| && IsSymF(buf[ptr]) {
        ReadTag(start);
      } else {
        state := Error;
      }
    }

    /** The markup after '<' (130-232); the caller has cleared the
        characters. */
    method ReadMarkup()
      requires Sane(buf, Snap())
      modifies this
      ensures Snap() == ScanMarkup(buf, old(Snap()))
    {
      if OpensWith(buf, ptr, CommentOpen) {
        ptr := ptr + 3;
        var left := ptr;
        ptr := FindDelim(buf, ptr, CommentClose);
        characters := buf[left..ptr];
        ptr := Min(ptr + 3, |buf|);
        state := Comment;
        return;
      }
      ReadSection();
    }

    /** A CDATA section or a tag (143-232). */
    method ReadSection()
      requires Sane(buf, Snap())
      modifies this
      ensures Snap() == ScanSection(buf, old(Snap()))
    {
      if OpensWith(buf, ptr, CDataOpen) {
        ptr := ptr + 8;
        var left := ptr;
        ptr := FindDelim(buf, ptr, CDataClose);
        characters := buf[left..ptr];
        ptr := Min(ptr + 3, |buf|);
        chars := Null;
        return;
      }
      ReadStart();
    }

    /** A text run (233-246): the inner loop runs to the next '<' or the
        end of the buffer. */
    method ReadText()
      requires Sane(buf, Snap()) && chars.Ptr? && ptr < |buf|
      modifies this
      ensures Snap() == old(Snap()).(ptr := IndexFrom(buf, old(ptr), '<'),
        characters := old(characters) + buf[old(chars).at..IndexFrom(buf, old(ptr), '<')], state := Characters)
    {
      var left := chars.at;
      ptr := FindByte(buf, ptr, '<');
      characters := characters + buf[left..ptr];
      state := Characters;
    }

    /** next() (117-249) once chars_ is set. */
    method Dispatch() returns (more: bool)
      requires Sane(buf, Snap()) && chars.Ptr?
      modifies this
      ensures (Snap(), more) == Step(buf, old(Snap()))
    {
      if nextEnd {
        nextEnd := false;
        state := EndElement;
        return true;
      }
      if ptr < |buf| && buf[ptr] == '<' {
        ptr := ptr + 1;
        characters := [];
        ReadMarkup();
        return true;
      } else if ptr < |buf| {
        ReadText();
        return true;
      }
      state := None;
      return false;
    }

    /** next() (117-249). */
    method Next() returns (more: bool)
      requires Valid()
      modifies this
      ensures Valid()
      ensures (Snap(), more) == NextEvent(buf, old(Snap()))
    {
      NextOk(buf, Snap());
      if chars.Null? {
        characters := [];
        chars := Ptr(ptr);
      }
      more := Dispatch();
    }

    /** text() (254-264). */
    method Text() returns (r: Bytes)
      ensures r == EventText(Snap())
    {
      if state == BeginElement || state == EndElement {
        return name;
      }
      if state == Characters {
        r := XStreamCodec.DecodeHtmlString(characters);
        return;
      }
      return [];
    }

    /** attribute(name, defval) (265-273): the first attribute with the key,
        decoded, or the default. */
    method Attribute(key: Bytes, defval: Bytes) returns (r: Bytes)
      ensures r == match Lookup(atts, key) case Some(v) => XStreamCodec.Unescaped(v) case Nothing => defval
    {
      var i := 0;
      while i < |atts|
        invariant 0 <= i <= |atts|
        invariant Lookup(atts[i..], key) == Lookup(atts, key)
      {
        if atts[i].key == key {
          r := XStreamCodec.DecodeHtmlString(atts[i].value);
          return;
        }
        assert atts[i..][1..] == atts[i + 1..];
        i := i + 1;
      }
      return defval;
    }

    /** attributes() (274-281): every recorded pair in order, the values
        decoded. */
    method Attributes() returns (r: seq<Attr>)
      ensures r == XStream.DecodedAttrs(atts)
    {
      r := [];
      var i := 0;
      while i < |atts|
        invariant 0 <= i <= |atts|
        invariant r == XStream.DecodedAttrs(atts[..i])
      {
        var v := XStreamCodec.DecodeHtmlString(atts[i].value);
        assert atts[..i + 1][..i] == atts[..i];
        r := r + [Attr(atts[i].key, v)];
        i := i + 1;
      }
      assert atts[..i] == atts;
    }
  }
}
