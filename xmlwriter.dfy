/**
 * The push serializer of include/xstream.h (class Writer, 735-858). It
 * keeps a line buffer, the stack of open element names and two flags:
 * whether a start tag is still open (attributes may follow) and whether
 * the next element goes on a new line. Completed lines go to a sink,
 * modelled as the sequence `out` that `flush` appends to.
 *
 * Each operation is a function on a WriterState snapshot; the class Writer
 * holds the same state in fields and each of its methods is proved to move
 * it as the function says.
 */
module XmlWriter {
  import opened ByteText
  import opened HtmlEntities

  datatype WriterState = WriterState(out: Bytes, line: Bytes, insideTag: bool, newline: bool, stack: seq<Bytes>)

  /** Spaces per nesting level (indent_step_). */
  const IndentStep: nat := 4

  /** The document header start_document writes. */
  const XmlDeclaration: Bytes := "<?xml version=\"1.0\" encoding=\"UTF-8\"?>\n"

  function Fresh(): (w: WriterState)
    ensures w.stack == [] && !w.insideTag
  {
    WriterState([], [], false, false, [])
  }

  /** An open start tag always belongs to the innermost open element. */
  predicate Valid(w: WriterState)
  {
    w.insideTag ==> w.stack != []
  }

  function Spaces(n: nat): (r: Bytes)
    ensures |r| == n && forall i :: 0 <= i < n ==> r[i] == ' '
  {
    seq(n, _ => ' ')
  }

  /** What write_indent(n) puts in front of the line: a line break if one
      is due, then four spaces per level. */
  function Indent(newline: bool, n: nat): Bytes
  {
    (if newline then "\n" else []) + Spaces(IndentStep * n)
  }

  /** The indent is a line break when one is due, then four spaces per
      level and nothing else. (Kept out of Indent's own contract, so that
      proofs about whole lines do not pay for it.) */
  lemma IndentShape(newline: bool, n: nat)
    ensures var r := Indent(newline, n);
      |r| == IndentStep * n + (if newline then 1 else 0)
      && (newline ==> r[0] == '\n' && forall i :: 1 <= i < |r| ==> r[i] == ' ')
      && (!newline ==> forall i :: 0 <= i < |r| ==> r[i] == ' ')
  {
  }

  // ---------------------------------------------------------------------
  // Private steps

  function AfterIndent(w: WriterState, n: nat): WriterState
  {
    w.(line := Indent(w.newline, n) + w.line)
  }

  function AfterFlush(w: WriterState): WriterState
  {
    if w.line == [] then w else w.(out := w.out + w.line, line := [])
  }

  function AfterCloseTag(w: WriterState): WriterState
  {
    if w.insideTag then w.(line := w.line + ">", insideTag := false) else w
  }

  // ---------------------------------------------------------------------
  // Public operations

  function AfterStartDocument(w: WriterState): WriterState
  {
    w.(line := w.line + XmlDeclaration)
  }

  function AfterStartElement(w: WriterState, name: Bytes): (r: WriterState)
    ensures r.stack == w.stack + [name] && r.insideTag && r.newline
  {
    var c := AfterFlush(AfterCloseTag(w));
    var d := AfterIndent(c, |w.stack|);
    d.(stack := w.stack + [name], line := d.line + "<" + name, insideTag := true, newline := true)
  }

  /** end_element: nothing when no element is open; otherwise the
      innermost one is closed, as " />" while its start tag is open. */
  function AfterEndElement(w: WriterState): (r: WriterState)
    ensures |r.stack| == if w.stack == [] then 0 else |w.stack| - 1
  {
    if w.stack == [] then w
    else
      var name := w.stack[|w.stack| - 1];
      var rest := w.stack[..|w.stack| - 1];
      var c :=
        if w.insideTag then w.(line := w.line + " />", stack := rest, insideTag := false)
        else
          var f := AfterFlush(AfterCloseTag(w)).(stack := rest);
          var g := if f.newline then AfterIndent(f, |rest|) else f;
          g.(line := g.line + "</" + name + ">");
      AfterFlush(c).(newline := true)
  }

  function AfterCharacters(w: WriterState, s: Bytes): WriterState
  {
    var c := AfterCloseTag(w);
    c.(newline := false, line := c.line + HtmlEncoded(s, true))
  }

  function AfterAttribute(w: WriterState, name: Bytes, value: Bytes): WriterState
  {
    if w.insideTag then w.(line := w.line + " " + name + "=\"" + HtmlEncoded(value, true) + "\"")
    else w
  }

  /** The loop of end_document: end_element until the stack is empty. */
  function CloseAll(w: WriterState): (r: WriterState)
    decreases |w.stack|
  {
    if w.stack == [] then w else CloseAll(AfterEndElement(w))
  }

  /** end_document: closes every open element, then writes one line break
      to the sink directly if one is due. */
  function AfterEndDocument(w: WriterState): WriterState
  {
    var c := CloseAll(w);
    if c.newline then c.(out := c.out + "\n") else c
  }

  function AfterTextElement(w: WriterState, name: Bytes, text: Bytes): WriterState
  {
    AfterEndElement(AfterCharacters(AfterStartElement(w, name), text))
  }

  // ---------------------------------------------------------------------
  // Properties

  /** Every public operation keeps the open start tag inside an element. */
  lemma OperationsKeepValid(w: WriterState, name: Bytes, value: Bytes)
    requires Valid(w)
    ensures Valid(AfterStartDocument(w)) && Valid(AfterStartElement(w, name)) && Valid(AfterEndElement(w))
    ensures Valid(AfterCharacters(w, value)) && Valid(AfterAttribute(w, name, value))
    ensures Valid(AfterEndDocument(w)) && Valid(AfterTextElement(w, name, value))
  {
    CloseAllEmpties(w);
  }

  /** end_element with no open element changes nothing. */
  lemma EndElementWithoutElement(w: WriterState)
    requires w.stack == []
    ensures AfterEndElement(w) == w
  {
  }

  /** end_element while the start tag is open finishes it as " />" and
      sends the line to the sink. */
  lemma EndElementInsideTag(w: WriterState)
    requires w.insideTag && w.stack != []
    ensures var r := AfterEndElement(w);
      r.out == w.out + w.line + " />" && r.line == [] && r.stack == w.stack[..|w.stack| - 1]
      && !r.insideTag && r.newline
  {
  }

  /** Outside a start tag, end_element writes the end tag on its own
      indented line when a line break is due, and flushes. */
  lemma EndElementAfterContent(w: WriterState)
    requires !w.insideTag && w.stack != []
    ensures var r := AfterEndElement(w); var n := |w.stack| - 1;
      r.out == w.out + w.line + (if w.newline then Indent(true, n) else []) + "</" + w.stack[n] + ">"
      && r.line == [] && r.stack == w.stack[..n] && !r.insideTag && r.newline
  {
    var n := |w.stack| - 1;
    var g := IndentedAfterFlush(w);
    var c := g.(line := g.line + "</" + w.stack[n] + ">");
    assert AfterCloseTag(w) == w;
    EndElementSteps(w, AfterFlush(w).(stack := w.stack[..n]), g);
    FlushLine(c);
    assert w.out + w.line + (g.line + "</" + w.stack[n] + ">") == w.out + w.line + g.line + "</" + w.stack[n] + ">";
  }

  /** The state the outside-tag branch of end_element builds before it
      appends the end tag: the line flushed, the stack popped and, when a
      line break is due, the line started with the indent. */
  function IndentedAfterFlush(w: WriterState): (g: WriterState)
    requires !w.insideTag && w.stack != []
    ensures var n := |w.stack| - 1;
      g.out == w.out + w.line && g.line == (if w.newline then Indent(true, n) else [])
      && g.stack == w.stack[..n] && !g.insideTag
  {
    var f := AfterFlush(w).(stack := w.stack[..|w.stack| - 1]);
    if f.newline then AfterIndent(f, |f.stack|) else f
  }

  /** The outside-tag branch of end_element as the sequence of steps the
      method takes. */
  lemma EndElementSteps(w: WriterState, f: WriterState, g: WriterState)
    requires !w.insideTag && w.stack != []
    requires f == AfterFlush(AfterCloseTag(w)).(stack := w.stack[..|w.stack| - 1])
    requires g == if f.newline then AfterIndent(f, |f.stack|) else f
    ensures AfterEndElement(w) == AfterFlush(g.(line := g.line + "</" + w.stack[|w.stack| - 1] + ">")).(newline := true)
  {
  }

  /** Flushing a non-empty line appends it to the sink. */
  lemma FlushLine(c: WriterState)
    requires c.line != []
    ensures AfterFlush(c) == c.(out := c.out + c.line, line := [])
  {
  }

  /** An element with nothing in it comes out as one self-closing tag on
      its own line. */
  lemma EmptyElementSelfCloses(w: WriterState, name: Bytes)
    ensures var c := AfterFlush(AfterCloseTag(w)); var r := AfterEndElement(AfterStartElement(w, name));
      r.out == c.out + Indent(w.newline, |w.stack|) + "<" + name + " />"
      && r.line == [] && r.stack == w.stack && !r.insideTag && r.newline
  {
    var s := AfterStartElement(w, name);
    assert s.stack[..|s.stack| - 1] == w.stack;
    var c := AfterFlush(AfterCloseTag(w));
    assert c.line == [];
    assert s.line == Indent(w.newline, |w.stack|) + "<" + name;
  }

  /** write_attribute outside a start tag writes nothing. */
  lemma AttributeOutsideTag(w: WriterState, name: Bytes, value: Bytes)
    requires !w.insideTag
    ensures AfterAttribute(w, name, value) == w
  {
  }

  /** Inside a start tag it adds ` name="value"` with the value escaped, so
      the value cannot end the quotes or the tag early. */
  lemma AttributeInsideTag(w: WriterState, name: Bytes, value: Bytes)
    requires w.insideTag
    ensures var r := AfterAttribute(w, name, value); var e := HtmlEncoded(value, true);
      r.line == w.line + " " + name + "=\"" + e + "\"" && r.out == w.out && r.stack == w.stack
      && r.insideTag && forall i :: 0 <= i < |e| ==> e[i] !in "<>\"'"
  {
    HtmlEncodedIsMarkupFree(value, true);
  }

  /** write_characters closes an open start tag, and what it adds to the
      line holds no markup and decodes back to the text. */
  lemma CharactersAreEscaped(w: WriterState, s: Bytes)
    ensures var r := AfterCharacters(w, s); var c := AfterCloseTag(w);
      (exists e :: r.line == c.line + e && Decoded(e) == s && (forall i :: 0 <= i < |e| ==> e[i] !in "<>\"'"))
      && r.out == w.out && r.stack == w.stack && !r.insideTag && !r.newline
  {
    var e := HtmlEncoded(s, true);
    HtmlEncodedIsMarkupFree(s, true);
    HtmlRoundTrip(s, true);
    assert AfterCharacters(w, s).line == AfterCloseTag(w).line + e;
  }

  /** text_element writes `<name>text</name>` on one line, with the text
      escaped and no line break before the end tag. */
  lemma TextElementWrites(w: WriterState, name: Bytes, text: Bytes)
    ensures var c := AfterFlush(AfterCloseTag(w)); var r := AfterTextElement(w, name, text);
      r.out == c.out + Indent(w.newline, |w.stack|) + "<" + name + ">" + HtmlEncoded(text, true) + "</" + name + ">"
      && r.line == [] && r.stack == w.stack && !r.insideTag && r.newline
  {
    var c := AfterFlush(AfterCloseTag(w));
    var head := Indent(w.newline, |w.stack|) + "<" + name;
    StartElementLine(w, name);
    var t := AfterCharacters(AfterStartElement(w, name), text);
    assert t.out == c.out && !t.newline && !t.insideTag;
    assert t.stack[..|t.stack| - 1] == w.stack;
    assert t.line == head + ">" + HtmlEncoded(text, true);
    assert t.stack[|t.stack| - 1] == name;
    EndElementAfterContent(t);
    var body := HtmlEncoded(text, true);
    assert c.out + (head + ">" + body) + [] + "</" + name + ">"
      == c.out + Indent(w.newline, |w.stack|) + "<" + name + ">" + body + "</" + name + ">";
  }

  /** start_element writes the pending line out and starts a new one with
      the indented '<name'. */
  lemma StartElementLine(w: WriterState, name: Bytes)
    ensures var c := AfterFlush(AfterCloseTag(w)); var s := AfterStartElement(w, name);
      c.line == [] && s.out == c.out && s.line == Indent(w.newline, |w.stack|) + "<" + name
  {
  }

  lemma {:induction false} CloseAllEmpties(w: WriterState)
    requires Valid(w)
    ensures var r := CloseAll(w); r.stack == [] && !r.insideTag
    decreases |w.stack|
  {
    if w.stack != [] {
      CloseAllEmpties(AfterEndElement(w));
    }
  }

  /** end_document leaves no element open. */
  lemma EndDocumentClosesAll(w: WriterState)
    requires Valid(w)
    ensures var r := AfterEndDocument(w); r.stack == [] && !r.insideTag
  {
    CloseAllEmpties(w);
  }

  lemma {:induction false} CloseAllFlushes(w: WriterState)
    requires w.stack != []
    ensures CloseAll(w).line == [] && CloseAll(w).newline
    decreases |w.stack|
  {
    var e := AfterEndElement(w);
    if e.stack != [] {
      CloseAllFlushes(e);
    }
  }

  /** Every end_element of end_document flushes, so the line buffer is
      empty at the end whenever an element was open. */
  lemma EndDocumentFlushes(w: WriterState)
    requires w.stack != []
    ensures AfterEndDocument(w).line == [] && AfterEndDocument(w).newline
  {
    CloseAllFlushes(w);
  }

  /** The sink only ever grows. */
  lemma {:induction false} CloseAllExtendsOut(w: WriterState)
    ensures var r := CloseAll(w); |w.out| <= |r.out| && r.out[..|w.out|] == w.out
    decreases |w.stack|
  {
    if w.stack != [] {
      var e := AfterEndElement(w);
      assert |w.out| <= |e.out| && e.out[..|w.out|] == w.out;
      CloseAllExtendsOut(e);
      var r := CloseAll(e);
      assert r.out[..|w.out|] == r.out[..|e.out|][..|w.out|];
    }
  }

  /**
   * The serializer. Its fields are the snapshot above; `out` stands for
   * the sink fn_writer, whose return value the source ignores.
   */
  class Writer {
    var out: Bytes
    var line: Bytes
    var insideTag: bool
    var newline: bool
    var stack: seq<Bytes>

    function Snap(): WriterState
      reads this
    {
      WriterState(out, line, insideTag, newline, stack)
    }

    constructor ()
      ensures Snap() == Fresh()
    {
      out := [];
      line := [];
      insideTag := false;
      newline := false;
      stack := [];
    }

    method WriteLine(s: Bytes)
      modifies this
      ensures Snap() == old(Snap()).(line := old(line) + s)
    {
      line := line + s;
    }

    method WriteIndent(n: nat)
      modifies this
      ensures Snap() == AfterIndent(old(Snap()), n)
    {
      var k := n * IndentStep;
      if newline {
        k := k + 1;
      }
      var pad := Spaces(k);
      if newline {
        pad := pad[0 := '\n'];
        IndentShape(true, n);
        assert pad == Indent(true, n);
      }
      line := pad + line;
    }

    method Flush()
      modifies this
      ensures Snap() == AfterFlush(old(Snap()))
    {
      if line != [] {
        out := out + line;
        line := [];
      }
    }

    method CloseTag()
      modifies this
      ensures Snap() == AfterCloseTag(old(Snap()))
    {
      if insideTag {
        WriteLine(">");
        insideTag := false;
      }
    }

    method StartDocument()
      modifies this
      ensures Snap() == AfterStartDocument(old(Snap()))
    {
      WriteLine(XmlDeclaration);
    }

    method EndDocument()
      modifies this
      ensures Snap() == AfterEndDocument(old(Snap()))
    {
      while stack != []
        invariant CloseAll(Snap()) == CloseAll(old(Snap()))
        decreases |stack|
      {
        EndElement();
      }
      if newline {
        out := out + "\n";
      }
    }

    method StartElement(name: Bytes)
      modifies this
      ensures Snap() == AfterStartElement(old(Snap()), name)
    {
      CloseTag();
      Flush();
      WriteIndent(|stack|);
      stack := stack + [name];
      WriteLine("<");
      WriteLine(name);
      insideTag := true;
      newline := true;
    }

    method EndElement()
      modifies this
      ensures Snap() == AfterEndElement(old(Snap()))
    {
      if stack != [] {
        ghost var w := Snap();
        var name := stack[|stack| - 1];
        if insideTag {
          WriteLine(" />");
          stack := stack[..|stack| - 1];
          insideTag := false;
        } else {
          CloseTag();
          Flush();
          stack := stack[..|stack| - 1];
          ghost var f := Snap();
          if newline {
            WriteIndent(|stack|);
          }
          ghost var g := Snap();
          WriteLine("</");
          WriteLine(name);
          WriteLine(">");
          EndElementSteps(w, f, g);
        }
        Flush();
        newline := true;
      }
    }

    method WriteCharacters(s: Bytes)
      modifies this
      ensures Snap() == AfterCharacters(old(Snap()), s)
    {
      CloseTag();
      newline := false;
      var e := HtmlEncode(s, true);
      WriteLine(e);
    }

    method WriteAttribute(name: Bytes, value: Bytes)
      modifies this
      ensures Snap() == AfterAttribute(old(Snap()), name, value)
    {
      if insideTag {
        WriteLine(" ");
        WriteLine(name);
        WriteLine("=\"");
        var e := HtmlEncode(value, true);
        WriteLine(e);
        WriteLine("\"");
      }
    }

    method TextElement(name: Bytes, text: Bytes)
      modifies this
      ensures Snap() == AfterTextElement(old(Snap()), name, text)
    {
      StartElement(name);
      WriteCharacters(text);
      EndElement();
    }
  }
}
