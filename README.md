# xstream in Dafny

xstream is a small, non-validating streaming XML library: a pull reader
that walks a byte buffer event by event (start element, end element,
characters, comment), a push writer that serializes nested elements with
indentation, and the HTML entity and URL percent codecs those two use. The
repository carries three revisions of the reader: the current one in
`include/xstream.h`, an older header `xstream.h` and an older
`xstream.cpp`. This project models all three, the writer and both codecs.
It proves their contracts in Dafny.

Modules and what they model:

- `ByteText`: the byte type and the C-locale classifiers (isspace, isalnum,
  isxdigit, isprint). Also the element-name tests issymf/issym, which are the
  same in all three revisions, and `sprintf("%u")`/`atoi` on decimal digits.
  Finally the forward scans every scanner runs (to a byte, over white space,
  over name bytes, to a three-byte delimiter), each as a function with a loop
  method proved equal to it.
- `HtmlEntities`: `html_encode`/`html_decode` of `include/xstream.h`.
- `Attributes`: the attribute scanner of the three readers, which share one
  loop. In the headers a quoted value ends only at its closing quote.
  In `xstream.cpp` white space, `/` or `>` also end it. A flag selects
  between the two rules.
- `CStrings`: the `strncmp`-based name and path comparisons
  (`match_internal`, `is_element_name(char const *)`).
- `XmlReader`: `xstream::Reader` of `include/xstream.h`. That covers the
  frame stack (path, attributes, character fragments per frame), the
  nested-traversal marks of `nest`/`hold`, `_internal_next`, `next` and the
  queries.
- `XmlWriter`: `xstream::Writer` of `include/xstream.h`.
- `XStreamCodec`: `encode_html_string` and `decode_html_string` of the
  root `xstream.h`, with their own entity table.
- `XStream`: the reader of the root `xstream.h`.
- `XStreamCpp`: the reader of `xstream.cpp`. Its `decode_string` (59-97) is
  the same loop as `decode_html_string` of the root header, so the text and
  attribute queries are stated with `XStreamCodec.Unescaped`.
- `UrlCodec`: `url_encode`/`url_decode` of `urlencode.cpp`.

The same pattern runs through every module:

- **Buffers and cursors.** A buffer is a `seq<Byte>`, and a C++ pointer into
  it is an index. The nullable `chars_` pointer is `Mark = Null | Ptr(at)`.
- **Classes and snapshots.** Each C++ class that updates its fields in place
  is a Dafny class with those fields.
  - Its state is also given as a value: `Snap()` returns a snapshot datatype.
  - Each method is proved to move that snapshot as a pure function of the old
    snapshot.
  - The events' properties are lemmas about those functions.
- **The writer's sink.** The function the writer is given as its sink is
  modelled as the byte sequence `out` that `flush` appends to.

## Model

| member | source | states |
|---|---|---|
| ByteText.IsSpace | include/xstream.h:528-533 | defines isspace in the C locale: space, tab, line feed, vertical tab, form feed and carriage return |
| ByteText.IsDigit | include/xstream.h:118-120 | defines the decimal digits `0`-`9` that atoi reads |
| ByteText.IsAlnum | urlencode.cpp:41 | defines isalnum in the C locale: the ASCII digits and letters, no byte of 0x80 and above |
| ByteText.IsXDigit | urlencode.cpp:120 | defines isxdigit in the C locale: `0`-`9`, `a`-`f` and `A`-`F` |
| ByteText.IsPrint | xstream.h:82 | defines isprint in the C locale: the bytes 0x20 through 0x7E |
| ByteText.IsSymF | include/xstream.h:310-324 | defines issymf on a byte: ASCII letters, `_`, `:`, and 0xC0-0xD6, 0xD8-0xF6 and 0xF8-0xFF; the `d < 0x100` guard always holds, so its other branch is dead |
| ByteText.IsSym | include/xstream.h:325-336 | defines issym on a byte: a digit, `-`, `.`, 0xB7, or any issymf byte |
| ByteText.NameStartChar | include/xstream.h:310-324 | production [4] NameStartChar of XML 1.0 section 2.3 over all code points, the independent reference SymbolsAreXmlNameChars ties IsSymF to |
| ByteText.NameChar | include/xstream.h:325-336 | production [4a] NameChar of XML 1.0 section 2.3 over all code points, the independent reference SymbolsAreXmlNameChars ties IsSym to |
| ByteText.LowByte | include/xstream.h:119-120 | storing an int into a `char` keeps its value modulo 256 |
| ByteText.SymbolsAreXmlNameChars | include/xstream.h:310-336 | read as a Latin-1 code point, issymf holds exactly for an XML 1.0 NameStartChar and issym exactly for a NameChar |
| ByteText.DelimitersAreNotSymbols | include/xstream.h:310-336 | none of `< > / ? ! = " '` or white space can start or continue a name |
| ByteText.DigitByte | include/xstream.h:72-75 | the digit byte for 0..9 is a decimal digit |
| ByteText.Decimal | include/xstream.h:72-75 | `%u` formatting yields at least one byte, all of them decimal digits |
| ByteText.DecimalValue | include/xstream.h:72-75 | the digits `%u` writes for n denote n |
| ByteText.AtoiDecimal | include/xstream.h:118-120 | atoi reads back the number `%u` wrote |
| ByteText.DigitsFrom | include/xstream.h:118-120 | defines atoi's digit loop: the value of the run of decimal digits from p, accumulated onto acc |
| ByteText.Atoi | include/xstream.h:118-120 | defines atoi: leading white space skipped, an optional sign, then the longest run of digits, 0 when there is none |
| ByteText.DigitsFromValue | include/xstream.h:118-120 | atoi's digit loop, started part-way with the value of the digits already read, ends with the value of all of them |
| ByteText.SkipSpaces | include/xstream.h:528-533 | the white-space skip stops inside the buffer, at a byte that is not white space or at the end |
| ByteText.SkipSpacesLoop | include/xstream.h:528-533 | the white-space loop stops where SkipSpaces says |
| ByteText.HexUpper | urlencode.cpp:50-54 | `%02X` writes hexadecimal digits |
| ByteText.HexValue | urlencode.cpp:120-126 | a hexadecimal digit denotes a value below 16 |
| ByteText.HexValueOfHexUpper | urlencode.cpp:50-54 | strtol base 16 reads back the digit `%02X` wrote |
| ByteText.IndexFrom | include/xstream.h:113 | the search for a byte stops inside the buffer, and where it stops before the end the byte is the one sought |
| ByteText.IndexFromIsFirst | include/xstream.h:113 | no byte before the stopping point is the one sought, so the stop is the first occurrence |
| ByteText.IndexFromAt | include/xstream.h:113 | a position holding the byte with none before it, or the end when there is none, is where the search stops |
| ByteText.IndexFromSuffix | xstream.h:155 | searching a suffix gives the same position, shifted by the suffix's offset |
| ByteText.FindByte | xstream.h:155 | the byte loop stops where IndexFrom says |
| ByteText.StrChrFrom | include/xstream.h:113 | strchr stops inside the range, at or after where it starts |
| ByteText.StrChrFromStops | include/xstream.h:113 | where strchr stops before the end, the byte is the one sought or a NUL |
| ByteText.StrChrFromIsFirst | include/xstream.h:113 | no byte before that stop is the one sought or a NUL |
| ByteText.StrChrFromAt | include/xstream.h:113 | the first position holding the byte sought or a NUL, or the end when there is none, is where strchr stops |
| ByteText.StrChrFromSuffix | include/xstream.h:113 | strchr on a suffix gives the same position, shifted by the suffix's offset |
| ByteText.StrChrFromWithoutNul | include/xstream.h:113 | on bytes without a NUL, strchr stops where the plain byte search does |
| ByteText.FindChr | include/xstream.h:113 | the strchr loop stops where StrChrFrom says |
| ByteText.SymEnd | include/xstream.h:521-526 | the name scan stops at the first byte that is not a name byte, or at the end, and every byte before it is a name byte |
| ByteText.SymEndAt | include/xstream.h:521-526 | the first non-name byte after a run of name bytes is where the scan stops |
| ByteText.SkipSymLoop | include/xstream.h:521-526 | the name loop stops where SymEnd says |
| ByteText.DelimFrom | include/xstream.h:487-489 | the scan for `]]>` or `-->` stops inside the buffer, and where three bytes remain from the stop they are the delimiter |
| ByteText.DelimFromIsFirst | include/xstream.h:487-489 | every position the scan passes has room for three bytes and does not start the delimiter, so the stop is the first occurrence |
| ByteText.DelimFromPasses | include/xstream.h:487-489 | the same for one passed position |
| ByteText.DelimEnd | include/xstream.h:491 | the cursor past the delimiter stays inside the buffer |
| ByteText.FindDelim | include/xstream.h:487-489 | the delimiter loop stops where DelimFrom says |
| HtmlEntities.CopyEnd | include/xstream.h:88-94 | html_encode's prefix scan stops at the first white-space byte, NUL or one of `& < > " '` (strchr also matches the NUL that ends the set it searches), and copies only bytes before it |
| HtmlEntities.StopsCopy | include/xstream.h:90 | defines the bytes that end html_encode's copied prefix: white space, `& < > " '` and NUL |
| HtmlEntities.EncodeByte | include/xstream.h:50-79 | defines what html_encode_ writes for one byte: the five named references, tab and line feed as they are, `&#n;` for other control bytes and (utf8through off) bytes of 0x80 and above, anything else as it is; EncodeByteCases, DecodeEncodedByte and CopiedByteIsKept state its properties |
| HtmlEntities.EncodeAll | include/xstream.h:46-81 | defines html_encode_ over a range as the per-byte encodings one after another; EncodeAllStep, EncodeAllSplit, EncodeAllIsMarkupFree and DecodeEncodeAll state its properties, and EncodeInto is proved to compute it |
| HtmlEntities.HtmlEncoded | include/xstream.h:83-105 | defines html_encode as the copied prefix followed by the encoding of the rest; HtmlEncodedIsEncodeAll, HtmlEncodedIsMarkupFree and HtmlRoundTrip state its properties, and HtmlEncode is proved to compute it |
| HtmlEntities.EncodeInto | include/xstream.h:46-81 | html_encode_ appends to its vector exactly the per-byte encoding of the rest of the input |
| HtmlEntities.EncodeIntoStep | include/xstream.h:48-80 | one pass of html_encode_'s loop appends the byte's encoding and leaves the output plus the encoding of the rest unchanged |
| HtmlEntities.EncodeAllStep | include/xstream.h:48-51 | encoding a suffix is encoding its first byte followed by encoding the rest |
| HtmlEntities.EncodeAllSplit | include/xstream.h:46-81 | encoding a range is encoding any prefix of it followed by encoding the rest |
| HtmlEntities.HtmlEncode | include/xstream.h:83-105 | html_encode returns the copied prefix followed by the encoding of the rest |
| HtmlEntities.DecodeAtPlain | include/xstream.h:133-135 | a byte other than `&` is copied |
| HtmlEntities.DecodeHead | include/xstream.h:110-135 | one pass of html_decode_'s loop always moves the cursor forward and never past the end: by one byte for a plain byte, past the `;` for a reference, to the end when strchr finds a NUL or nothing before any `;` |
| HtmlEntities.Decoded | include/xstream.h:107-137 | defines html_decode_ over a range as those passes one after another; DecodeInto is proved to compute it, and DecodeEncodeAll, DecodeNotLonger, DecodeReference, DecodeUnterminated and DecodeStopsAtNul state its properties |
| HtmlEntities.DecodedEnd | include/xstream.h:113-116 | a pass that moves to the end is the last one: its bytes are the whole decoding |
| HtmlEntities.DecodeAtStep | include/xstream.h:109-136 | decoding from cursor p is the bytes of the pass at p followed by decoding from where that pass leaves the cursor |
| HtmlEntities.DecodeHeadAt | include/xstream.h:110-135 | the pass at cursor p, read on the whole buffer: a byte other than `&` is copied; after `&` the strchr stop decides between a move to the end and the reference's value with a move past the `;` |
| HtmlEntities.DecodeAt | include/xstream.h:109-136 | one step of html_decode_ advances the cursor and writes exactly what the decoding of the suffix begins with; after `&` it looks for the `;` with strchr, which also stops at a NUL |
| HtmlEntities.DecodeInto | include/xstream.h:107-137 | html_decode_ appends to its vector exactly the decoding of the rest of the input |
| HtmlEntities.HtmlDecode | include/xstream.h:139-161 | html_decode returns the decoding of its input, whether or not the fast path copies it unchanged |
| HtmlEntities.DecodeKeepsPrefix | include/xstream.h:144-150 | html_decode's prefix scan may take one more byte that is not `&` without changing the result |
| HtmlEntities.DecodeSplitEnds | include/xstream.h:144-156 | the prefix scan starts with nothing copied, and when it reaches the end its copy is the decoding |
| HtmlEntities.DecodePlainPrefix | include/xstream.h:144-156 | a prefix without `&` decodes to itself, in front of whatever follows |
| HtmlEntities.DecodePlainHead | include/xstream.h:133-135 | a leading byte other than `&` is copied and decoding goes on after it |
| HtmlEntities.DecodeWithoutAmpersand | include/xstream.h:144-153 | input without `&` decodes to itself |
| HtmlEntities.DecodeReference | include/xstream.h:112-132 | text, then `&t;` with no NUL in t, then more decodes to the text, the value of t, and the decoding of the rest |
| HtmlEntities.DecodeLeadingReference | include/xstream.h:112-132 | a leading `&t;` with no NUL in t decodes to the value of t followed by the decoding of the rest |
| HtmlEntities.DecodeUnterminated | include/xstream.h:112-116 | everything from an `&` followed by neither `;` nor NUL is dropped |
| HtmlEntities.DecodeStopsAtNul | include/xstream.h:113-116 | a NUL after an `&` and before any `;` ends the output, because strchr stops at the NUL; a later `;` does not bring decoding back |
| HtmlEntities.DecodeNulExamples | include/xstream.h:113-116 | `x&\0;y` decodes to `x` and `&#6\05;` to nothing |
| HtmlEntities.EntityValues | include/xstream.h:118-131 | `amp lt gt quot apos` stand for their characters, `#n` for byte n mod 256, and any other name for nothing |
| HtmlEntities.EntityValue | include/xstream.h:118-131 | defines what a reference between `&` and `;` gives: `#n` the low byte of atoi, the five names their bytes, anything else nothing |
| HtmlEntities.DecodeNotLonger | include/xstream.h:107-137 | decoding never lengthens its input |
| HtmlEntities.DecodeOneReference | include/xstream.h:112-132 | a reference whose value is one byte decodes to that byte |
| HtmlEntities.DecodeNamedEncoding | include/xstream.h:51-66 | each of the five named encodings decodes back to its byte |
| HtmlEntities.DecodeNumericEncoding | include/xstream.h:72-75 | the `&#n;` encoding decodes back to byte n |
| HtmlEntities.DecodeEncodedByte | include/xstream.h:51-79 | whatever one byte encodes to decodes back to that byte, whatever follows |
| HtmlEntities.DecodeEncodeAll | include/xstream.h:46-81 | html_decode_ undoes html_encode_ exactly |
| HtmlEntities.HtmlRoundTrip | include/xstream.h:83-161 | html_decode(html_encode(s, utf8through)) == s for every byte string and both settings |
| HtmlEntities.DecodeCopiedThenEncoded | include/xstream.h:83-105 | the copied prefix followed by the encoding of the rest decodes back to the input |
| HtmlEntities.DecodeCopiedPrefix | include/xstream.h:88-94 | the prefix html_encode copies holds no `&`, so it decodes to itself in front of anything |
| HtmlEntities.EncodeAllIsMarkupFree | include/xstream.h:46-81 | html_encode_'s output holds none of `< > " '` |
| HtmlEntities.HtmlEncodedIsMarkupFree | include/xstream.h:83-105 | html_encode's output holds none of `< > " '`, so it is safe inside a quoted attribute or as text |
| HtmlEntities.CopiedByteIsKept | include/xstream.h:76-78 | a byte the fast path copies and the per-byte encoder would also copy encodes to itself |
| HtmlEntities.HtmlEncodedIsEncodeAll | include/xstream.h:83-105 | for input the fast path copies faithfully, html_encode equals the per-byte encoding |
| HtmlEntities.CopiedPrefixEncodes | include/xstream.h:88-100 | a faithfully copied run is its own encoding |
| HtmlEntities.EncodeAllAppend | include/xstream.h:46-81 | the per-byte encoding of a concatenation is the concatenation of the encodings |
| HtmlEntities.CopiedBytesEscapeTheEncoder | include/xstream.h:88-97 | the fast path copies a control byte, and a byte ≥ 0x80 when utf8through is off, that the per-byte encoder would write as `&#n;` |
| Attributes.ValueSpan | include/xstream.h:555-573 | a recorded value lies strictly between the `=` and the byte ending it |
| Attributes.EndsValue | include/xstream.h:555 | defines the byte that ends an attribute value: in the headers only the matching quote once a quote opened the value, else white space, `>` or `/`; in xstream.cpp (192) the quote byte (NUL for an unquoted value), white space, `>` or `/` |
| Attributes.EndsName | include/xstream.h:550-551 | defines the bytes that end an attribute name before its `=`: white space, `>` and `/` |
| Attributes.AttrStart | include/xstream.h:536-537 | defines where the scan of an attribute begins: two bytes past the name's first byte, clamped to the end of the range |
| Attributes.AttrScan | include/xstream.h:534-580 | the scan of one attribute only moves forward and stays in the buffer |
| Attributes.AttrsScan | include/xstream.h:527-582 | the attribute loop stays in the buffer and keeps the attributes already recorded as a prefix |
| Attributes.TagAttributes | include/xstream.h:527-582 | the attribute list of a tag ends inside the buffer, after where it started |
| Attributes.ScanAttribute | include/xstream.h:534-580 | the byte loop over one attribute stops where AttrScan says and records what it says |
| Attributes.TrimQuotes | include/xstream.h:563-569 | the value bounds after dropping a pair of enclosing quotes are the span ValueSpan defines |
| Attributes.ScanAttributes | include/xstream.h:527-582 | the attribute loop returns the cursor and list TagAttributes gives |
| Attributes.RecordedAfterEquals | include/xstream.h:539-573 | a recorded attribute's key is exactly the bytes before some `=` |
| Attributes.NoEqualsRecordsNothing | include/xstream.h:539-580 | a name that ends without `=` records nothing and stops at what ends it |
| Attributes.QuotedValueInHeaders | include/xstream.h:547-573 | in the headers `key="…"` records the key and the bytes up to the matching quote, and stops after it |
| Attributes.QuotedRun | include/xstream.h:547-573 | inside a quoted value only the matching quote ends it |
| Attributes.QuotedValueInCpp | xstream.cpp:176-210 | in xstream.cpp a quoted value also ends at white space, `/` or `>`; the matching quote is consumed and stripped, while any other end leaves the opening quote in the value |
| Attributes.CppRun | xstream.cpp:175-215 | in xstream.cpp a value runs unchanged up to the first byte that ends it |
| Attributes.SingleLetterNamesAreSkipped | include/xstream.h:536-537 | after white space the scan steps over two bytes, so a one-letter attribute name is lost |
| Attributes.LookupFirst | include/xstream.h:709-718 | lookup finds nothing exactly when no attribute has the key, and otherwise the value of its first occurrence |
| Attributes.Lookup | include/xstream.h:709-718 | defines attribute(name): the value of the first attribute with that key, or none |
| CStrings.TagNameNulFree | include/xstream.h:521-526 | an element name holds no NUL, since NUL is not a name byte |
| CStrings.StrNEqualMeaning | include/xstream.h:368 | strncmp over n bytes of two C strings is zero exactly when the first is at least n long and they agree on n bytes |
| CStrings.StrNEqual | include/xstream.h:368 | defines strncmp(a, b, n) == 0 on NUL-terminated strings: equal up to n bytes or up to a shared NUL |
| CStrings.MatchInternal | include/xstream.h:364-377 | defines match_internal: strncmp over the current path's length, then the path's end or one `/` and its end |
| CStrings.MatchInternalMeaning | include/xstream.h:364-377 | match_internal holds exactly when the path equals the current path or the current path plus one trailing `/` |
| XmlReader.Initial | include/xstream.h:337-349 | a new reader has exactly the root frame |
| XmlReader.CutIndex | include/xstream.h:455-466 | the frame search for an ended element never returns the root nor a frame above its start |
| XmlReader.CutIndexInnermost | include/xstream.h:455-466 | the search finds the innermost frame whose path ends in `/name`, and nothing when no frame does |
| XmlReader.AfterEndCut | include/xstream.h:454-466 | after an EndElement the stack is cut below the innermost frame ending in `/name`, or kept whole when there is none |
| XmlReader.AfterEnd | include/xstream.h:454-466 | defines the stack after an EndElement: cut below the innermost frame above the root whose path ends in `/name`, or unchanged |
| XmlReader.EndCutsOwnFrame | include/xstream.h:454-466 | the frame pushed for an element is the one its EndElement cuts |
| XmlReader.Prepare | include/xstream.h:454-473 | the frame maintenance before scanning keeps the root frame |
| XmlReader.AppendPart | include/xstream.h:243-248 | defines EncodedCharacters::append: a fragment is stored at the end unless it is empty |
| XmlReader.TopAppended | include/xstream.h:378-386 | defines append_chars: the fragment goes to the top frame, the other frames unchanged |
| XmlReader.Started | include/xstream.h:475-477 | the pending-text mark is set before scanning |
| XmlReader.CloseTag | include/xstream.h:583-611 | defines the close of a tag: an optional `/`, the `?` of a declaration, then `>` or an error; CloseTagOk, CloseTagRecords and CloseAtGt state its properties |
| XmlReader.ScanTag | include/xstream.h:515-611 | defines a tag from its name on: the name, its attributes and the close; ScanTagOk and ScanTagRecords state its properties |
| XmlReader.ScanMarkup | include/xstream.h:488-611 | defines the markup after `<`: a comment, a tag, or an error (which is what `<!` gives when it opens no comment); ScanMarkupOk and ScanBareTag state its properties |
| XmlReader.Scan | include/xstream.h:474-637 | defines the scanning loop of _internal_next from a state whose pending-text mark is set: a deferred end, a CDATA section, markup, a text run, or None at the end; ScanOk and ScanAtTag state its properties |
| XmlReader.Advance | include/xstream.h:451-638 | defines one _internal_next: the stack prepared after the last event, then the scan; AdvanceOk, TagAttributesRecorded, BareStartTag and BareEndTag state its properties, and Reader.InternalNext is proved to compute it |
| XmlReader.CloseTagOk | include/xstream.h:583-611 | closing a tag always reports an event and keeps every reader invariant |
| XmlReader.CloseTagRecords | include/xstream.h:583-611 | the close keeps the scanned name, and a pushed StartElement or Declaration frame holds exactly the attributes it was given |
| XmlReader.ScanTagOk | include/xstream.h:521-611 | scanning a tag always reports an event and keeps every reader invariant |
| XmlReader.ScanTagRecords | include/xstream.h:515-611 | a tag reports the name from its first byte up to the first non-name byte, and a frame it pushes holds the attributes scanned after that name |
| XmlReader.ScanMarkupOk | include/xstream.h:497-611 | scanning markup after `<` always reports an event and keeps every reader invariant |
| XmlReader.ScanOk | include/xstream.h:474-637 | the scanning loop keeps the invariants and moves the cursor forward whenever it reports an event that is not a deferred end |
| XmlReader.AdvanceOk | include/xstream.h:451-638 | every `_internal_next` keeps the cursor in the buffer and never moves it back; false comes only with None at the end; the frames change only as the reported event allows (what a pushed frame's attributes are is stated by TagAttributesRecorded) |
| XmlReader.NextEvent | include/xstream.h:431-450 | next keeps the reader's invariants |
| XmlReader.DecodedAttrs | include/xstream.h:724-732 | attributes() returns one pair per recorded attribute |
| XmlReader.DecodedAttrsAt | include/xstream.h:724-732 | attributes() keeps every key in order and entity-decodes every value |
| XmlReader.ScanTagNulFree | include/xstream.h:521-526 | a scanned tag name holds no NUL |
| XmlReader.ScanMarkupNulFree | include/xstream.h:497-611 | scanning markup puts no NUL into the element name |
| XmlReader.ScanNulFree | include/xstream.h:474-637 | the scanning loop puts no NUL into the element name |
| XmlReader.FramesNulFree | include/xstream.h:599-604 | frames pushed from a NUL-free name keep every path NUL-free |
| XmlReader.PrepareNulFree | include/xstream.h:454-473 | the frame maintenance keeps names and paths NUL-free |
| XmlReader.AdvanceNulFree | include/xstream.h:451-638 | no event puts a NUL into the name or a path, so the C-string queries see them whole |
| XmlReader.FramesNoEmptyParts | include/xstream.h:243-248 | the frame changes an event allows never store an empty fragment |
| XmlReader.AdvanceNoEmptyParts | include/xstream.h:243-248 | no event stores an empty character fragment |
| XmlReader.DecodePart | include/xstream.h:222-232 | decoding a fragment gives entity-decoded text, CDATA verbatim, and nothing for a comment |
| XmlReader.PartText | include/xstream.h:222-232 | defines CharPart::decode: text entity-decoded, CDATA as it is, a comment nothing |
| XmlReader.PartsText | include/xstream.h:261-275 | defines EncodedCharacters::to_string: the fragments' decodings in order |
| XmlReader.PartsTextAppend | include/xstream.h:243-277 | appending a fragment extends text() by that fragment's text, even when the fragment is empty and not stored |
| XmlReader.TextOfFragments | include/xstream.h:222-232 | a comment adds nothing to text(), a CDATA section its body unchanged, and a text run its decoding |
| XmlReader.StartThenEnd | include/xstream.h:454-466 | the EndElement for the name just started restores the stack the StartElement began from |
| XmlReader.StartFrameIsCut | include/xstream.h:597-604 | the frame a StartElement pushes is exactly the one cut at its end |
| XmlReader.DeclarationFrameIsPopped | include/xstream.h:467-473 | a declaration's frame lasts one event; the next call scans from the stack the declaration started from |
| XmlReader.SelfClosingEnd | include/xstream.h:478-482 | after `<name/>` the next call reports EndElement at once, without moving the cursor |
| XmlReader.TrailingTextDropped | include/xstream.h:616-636 | a text run reaching the end of the buffer is never reported: the call returns false with state None |
| XmlReader.BangIsError | include/xstream.h:511-611 | `<!` opening neither a comment nor a CDATA section is an Error, with the cursor after the `<` |
| XmlReader.NotBang | include/xstream.h:483-510 | a `<` not followed by `!` opens neither a CDATA section nor a comment |
| XmlReader.BareName | include/xstream.h:521-582 | a name running up to `>` has no attributes |
| XmlReader.CloseAtGt | include/xstream.h:597-608 | `>` ends a tag: an end tag reports EndElement; a start tag reports StartElement and pushes a frame whose path is the parent's plus `/name` |
| XmlReader.ScanBareTag | include/xstream.h:497-611 | scanning an attribute-free `<name>` or `</name>` goes straight to the tag's close |
| XmlReader.BareStartTag | include/xstream.h:451-611 | `<name>` reports StartElement with that name and pushes one frame with path parent + `/name` and no text |
| XmlReader.ScanBareStartTag | include/xstream.h:497-611 | the same, stated for the scan from a started state |
| XmlReader.BareEndTag | include/xstream.h:451-611 | `</name>` reports EndElement with that name and leaves the stack to the next call |
| XmlReader.TagAttributesRecorded | include/xstream.h:451-611 | at `<name` or `<?name`, _internal_next reports the tag's name, and a StartElement or Declaration frame it pushes holds the attributes scanned after that name |
| XmlReader.ScanAtTagRecords | include/xstream.h:497-611 | the same, stated for the scan from a started state |
| XmlReader.ScanAtTag | include/xstream.h:497-515 | at `<name` or `<?name` the scan is the scan of that tag |
| XmlReader.AdvanceScans | include/xstream.h:451-477 | _internal_next scans from the prepared, started state, which keeps the cursor and the pending end |
| XmlReader.TextRun | include/xstream.h:616-632 | a run of text ending at `<` is stored raw, from the start of the pending text, as a fragment of the top frame, and reported as Characters |
| XmlReader.MarkBoundary | include/xstream.h:437-448 | under a nest mark, next passes an event through unless its depth is below the mark; then it pops the mark, arms hold and returns false |
| XmlReader.HeldEventIsReplayed | include/xstream.h:433-447 | the event that ended a nested traversal is seen again: the next call returns true and changes nothing else |
| XmlReader.Reader.constructor | include/xstream.h:398-413 | a new reader starts at the buffer's start with only the root frame and no marks |
| XmlReader.Reader.Depth | include/xstream.h:414-417 | the depth is at least one, since the root frame is never removed |
| XmlReader.Reader.Hold | include/xstream.h:422-425 | hold arms the replay and changes nothing else |
| XmlReader.Reader.Nest | include/xstream.h:426-429 | nest pushes the current depth as a mark and changes nothing else |
| XmlReader.Reader.ResetStack | include/xstream.h:337-342 | the stack becomes the root frame alone; nothing else changes |
| XmlReader.Reader.AppendChars | include/xstream.h:378-382 | the fragment goes to the top frame; nothing else changes |
| XmlReader.Reader.PrepareStack | include/xstream.h:453-473 | the frame maintenance moves the state as Prepare says |
| XmlReader.Reader.FinishTag | include/xstream.h:583-611 | closing a tag moves the state as CloseTag says |
| XmlReader.Reader.ReadTag | include/xstream.h:521-611 | reading a tag moves the state as ScanTag says |
| XmlReader.Reader.ReadComment | include/xstream.h:499-509 | reading a comment after "<!--" records its text up to "-->" as ScanMarkup says |
| XmlReader.Reader.ReadMarkup | include/xstream.h:497-611 | reading markup moves the state as ScanMarkup says |
| XmlReader.Reader.ReadEvent | include/xstream.h:474-637 | one pass of the loop moves the state as Scan says |
| XmlReader.Reader.InternalNext | include/xstream.h:451-638 | `_internal_next` moves the state as Advance says and keeps it valid |
| XmlReader.Reader.Next | include/xstream.h:431-450 | next moves the state, marks and hold flag as NextEvent says and keeps them valid |
| XmlReader.Reader.MatchStart | include/xstream.h:679-682 | match_start holds exactly at a StartElement whose path is p, or p without one trailing `/` |
| XmlReader.Reader.Path | include/xstream.h:350-355 | defines path() and current_path(): the top frame's path (last_path_ is always empty) |
| XmlReader.Reader.MatchEnd | include/xstream.h:683-686 | match_end holds exactly at an EndElement whose path is p, or p without one trailing `/` |
| XmlReader.Reader.IsElementName | include/xstream.h:387-391 | the C-string name test holds exactly when the name equals the element name |
| XmlReader.Reader.IsStartElementNamed | include/xstream.h:655-658 | holds exactly at a StartElement with that name |
| XmlReader.Reader.IsEndElementNamed | include/xstream.h:659-662 | holds exactly at an EndElement with that name |
| XmlReader.Reader.IsName | include/xstream.h:691-698 | is_name's byte loop holds exactly when the name equals the element name |
| XmlReader.Reader.Text | include/xstream.h:699-702 | text() is the top frame's fragments decoded in order |
| XmlReader.Reader.LastCharacters | include/xstream.h:703-708 | characters() is the last stored fragment, which is never empty, or an empty text fragment when there is none |
| XmlReader.Reader.Attribute | include/xstream.h:709-718 | attribute(name) is the raw value of the top frame's first attribute with that key, or none |
| XmlReader.Reader.AttributeOr | include/xstream.h:719-723 | attribute(name, defval) is that value decoded, or defval |
| XmlReader.Reader.Attributes | include/xstream.h:724-732 | attributes() is every recorded pair of the top frame with decoded values |
| XmlWriter.Fresh | include/xstream.h:735-776 | a new writer has no open element and no open tag |
| XmlWriter.Indent | include/xstream.h:747-757 | defines what write_indent(n) puts before the line: a line feed when one is due, then 4 spaces per level (IndentShape states its shape) |
| XmlWriter.AfterIndent | include/xstream.h:747-757 | defines write_indent: the indent put in front of the pending line |
| XmlWriter.AfterFlush | include/xstream.h:758-764 | defines flush: a non-empty pending line goes to the sink and is cleared, an empty one changes nothing |
| XmlWriter.AfterCloseTag | include/xstream.h:765-771 | defines close_tag: an open start tag gets its `>` and is closed, otherwise nothing |
| XmlWriter.AfterStartDocument | include/xstream.h:777-781 | defines start_document: the XML declaration and a line feed appended to the line |
| XmlWriter.Spaces | include/xstream.h:753 | the padding has exactly n bytes, all spaces |
| XmlWriter.IndentShape | include/xstream.h:747-757 | the indent is 4 spaces per level, with a line break first when one is due |
| XmlWriter.AfterStartElement | include/xstream.h:792-802 | start_element pushes the name and leaves a tag open, with a line break due |
| XmlWriter.AfterEndElement | include/xstream.h:803-827 | end_element pops one name, or nothing when none is open |
| XmlWriter.AfterCharacters | include/xstream.h:828-833 | defines write_characters: the open tag closed, no line break due, and the html-encoded text appended (CharactersAreEscaped states its properties) |
| XmlWriter.AfterAttribute | include/xstream.h:834-843 | defines write_attribute: ` name="value"` with the value html-encoded while a tag is open, otherwise nothing (AttributeInsideTag and AttributeOutsideTag state its properties) |
| XmlWriter.CloseAll | include/xstream.h:784-786 | defines end_document's loop: end_element until no element is open (CloseAllEmpties, CloseAllFlushes and CloseAllExtendsOut state its properties) |
| XmlWriter.AfterEndDocument | include/xstream.h:782-791 | defines end_document: every element closed, then a line feed written straight to the sink when one is due (EndDocumentClosesAll and EndDocumentFlushes state its properties) |
| XmlWriter.AfterTextElement | include/xstream.h:844-857 | defines text_element: start_element, write_characters, end_element (TextElementWrites states what it writes) |
| XmlWriter.OperationsKeepValid | include/xstream.h:777-857 | every public operation keeps an open tag inside an open element |
| XmlWriter.EndElementWithoutElement | include/xstream.h:805 | end_element with no open element changes nothing |
| XmlWriter.EndElementInsideTag | include/xstream.h:807-812 | an element whose start tag is still open is closed as ` />` and written out |
| XmlWriter.EndElementAfterContent | include/xstream.h:813-825 | otherwise the line is flushed and `</name>` written, indented on a new line when one is due |
| XmlWriter.IndentedAfterFlush | include/xstream.h:813-819 | before the end tag, end_element has flushed the line, popped the stack and, when a line break is due, started the line with the indent |
| XmlWriter.EndElementSteps | include/xstream.h:813-825 | outside a start tag, end_element is close_tag, flush, pop, the optional indent, `</name>`, flush |
| XmlWriter.FlushLine | include/xstream.h:758-764 | flushing a non-empty line appends it to the sink and empties it |
| XmlWriter.EmptyElementSelfCloses | include/xstream.h:792-827 | start_element then end_element writes the indented `<name />` |
| XmlWriter.AttributeOutsideTag | include/xstream.h:834-836 | an attribute with no open tag is ignored |
| XmlWriter.AttributeInsideTag | include/xstream.h:836-842 | inside a tag, ` name="…"` is added with the value html-encoded, so it holds no quote or markup byte |
| XmlWriter.CharactersAreEscaped | include/xstream.h:828-833 | write_characters closes any open tag and adds bytes that hold no markup and decode back to the text |
| XmlWriter.TextElementWrites | include/xstream.h:852-857 | text_element writes the indented `<name>`, the encoded text and `</name>` |
| XmlWriter.StartElementLine | include/xstream.h:792-801 | start_element begins a fresh line with the indent and `<name` |
| XmlWriter.CloseAllEmpties | include/xstream.h:784-786 | the loop of end_document closes every open element |
| XmlWriter.EndDocumentClosesAll | include/xstream.h:782-791 | after end_document no element or tag is open |
| XmlWriter.CloseAllFlushes | include/xstream.h:784-786 | closing at least one element leaves the line empty and a line break due |
| XmlWriter.EndDocumentFlushes | include/xstream.h:782-791 | after end_document with an open element, everything has gone to the sink |
| XmlWriter.CloseAllExtendsOut | include/xstream.h:784-786 | closing elements only appends to what the sink has received |
| XmlWriter.Writer.constructor | include/xstream.h:773-776 | a new writer is in the fresh state |
| XmlWriter.Writer.WriteLine | include/xstream.h:743-746 | write_line appends to the line and changes nothing else |
| XmlWriter.Writer.WriteIndent | include/xstream.h:747-757 | write_indent puts the indent in front of the line |
| XmlWriter.Writer.Flush | include/xstream.h:758-764 | flush hands a non-empty line to the sink and clears it |
| XmlWriter.Writer.CloseTag | include/xstream.h:765-771 | close_tag ends an open start tag with `>` |
| XmlWriter.Writer.StartDocument | include/xstream.h:777-781 | start_document adds the XML declaration line |
| XmlWriter.Writer.EndDocument | include/xstream.h:782-791 | end_document moves the state as AfterEndDocument says |
| XmlWriter.Writer.StartElement | include/xstream.h:792-802 | start_element moves the state as AfterStartElement says |
| XmlWriter.Writer.EndElement | include/xstream.h:803-827 | end_element moves the state as AfterEndElement says |
| XmlWriter.Writer.WriteCharacters | include/xstream.h:828-833 | write_characters moves the state as AfterCharacters says |
| XmlWriter.Writer.WriteAttribute | include/xstream.h:834-843 | write_attribute moves the state as AfterAttribute says |
| XmlWriter.Writer.TextElement | include/xstream.h:852-857 | text_element moves the state as AfterTextElement says |
| XStreamCodec.EscapeByte | xstream.h:46-87 | defines what encode_html_string writes for one byte: the five named references, `\n` `\r` `\t` `\b` `\f` as their escapes, other printable bytes as they are, `&#n;` otherwise; UnescapeEscapedByte and ControlBytesDoNotRoundTrip state its properties |
| XStreamCodec.Escaped | xstream.h:44-90 | defines encode_html_string as the per-byte escapes one after another; EncodeHtmlString is proved to compute it and PrintableRoundTrip states its inverse |
| XStreamCodec.EscapedStep | xstream.h:47-50 | encoding a suffix is encoding its first byte followed by encoding the rest |
| XStreamCodec.EncodeHtmlString | xstream.h:27-90 | encode_html_string returns the per-byte escape of its input |
| XStreamCodec.EntityChar | xstream.h:164-174 | an entity name stands for at most one byte, and for one exactly when it is one of `amp lt gt quot apos` |
| XStreamCodec.IsEntity | xstream.h:156-163 | the IsEntity test holds exactly when the n bytes before the `;` are the name |
| XStreamCodec.Unescaped | xstream.h:145-181 | defines decode_html_string: after `&` the name runs to the next `;` or the end, becomes at most one byte, and the cursor moves past the `;`; DecodeHtmlString is proved to compute it, and UnescapeReference, UnescapeUnterminated, NumericReferenceDropped and PrintableRoundTrip state its properties |
| XStreamCodec.UnescapeAtPlain | xstream.h:176-179 | a byte other than `&` is copied |
| XStreamCodec.UnescapeAtEntity | xstream.h:152-175 | `&` followed by bytes up to `;` (or the end) becomes the entity's value, and decoding resumes after the `;` |
| XStreamCodec.UnescapeAtNext | xstream.h:152-175 | decoding from an `&` is the entity's value followed by decoding from past the `;`, or nothing more at the end |
| XStreamCodec.EntitySlices | xstream.h:152-175 | the `;` search and the name, read on a suffix, are the same as on the whole buffer |
| XStreamCodec.UnescapeEntityHead | xstream.h:152-175 | a leading `&name;` decodes to the name's value followed by the decoding of what follows the `;`; without a `;` it decodes to the value alone |
| XStreamCodec.EntityAt | xstream.h:164-174 | the entity branch writes the value EntityChar gives |
| XStreamCodec.EntityStep | xstream.h:152-175 | the entity branch writes the value and moves past the `;`, never past the end |
| XStreamCodec.UnescapeAt | xstream.h:151-180 | one step of the loop advances and writes what the decoding of the suffix begins with |
| XStreamCodec.DecodeHtmlString | xstream.h:145-181 | the loop returns the decoding of its input |
| XStreamCodec.UnescapeWithoutAmpersand | xstream.h:151-180 | input without `&` decodes to itself |
| XStreamCodec.UnescapeReference | xstream.h:152-175 | a leading `&t;` becomes the value of t followed by the decoding of the rest |
| XStreamCodec.UnescapeUnterminated | xstream.h:155-175 | an `&` without `;` consumes the rest of the input |
| XStreamCodec.NumericReferenceDropped | xstream.h:164-174 | this revision knows no numeric references: `&#digits;` decodes to nothing |
| XStreamCodec.UnescapeNamed | xstream.h:51-65 | a named escape decodes back to its byte |
| XStreamCodec.UnescapeEscapedByte | xstream.h:50-87 | the escape of a printable byte decodes back to it, whatever follows |
| XStreamCodec.PrintableRoundTrip | xstream.h:21-90 | decode_html_string(encode_html_string(s)) == s for printable input |
| XStreamCodec.ControlBytesDoNotRoundTrip | xstream.h:66-86 | control bytes do not round-trip: a line break comes back as `\n` and byte 1 as nothing |
| XStream.Initial | xstream.h:204-211 | a new reader is at path `/` with no saved paths and state None |
| XStream.Begin | xstream.h:269-272 | the pending-text mark is set before scanning |
| XStream.Inserted | xstream.h:225-230 | defines insert_chars on the fragments: a fragment is stored at the end unless it is empty |
| XStream.Restore | xstream.h:258-267 | defines the head of next(): after an EndElement the last saved path comes back and is dropped, or the path becomes `/` when none is saved |
| XStream.TextRun | xstream.h:403-425 | a text run that is not reported leaves the scanner in the buffer, further on, with its mark set |
| XStream.Pass | xstream.h:268-430 | one pass of next's loop that does not return leaves the scanner in the buffer, further on, with its mark set |
| XStream.CDataSection | xstream.h:278-289 | defines a CDATA section: its body up to `]]>` or the end stored as a CDATA fragment, the mark cleared, the cursor past the `]]>` clamped to the range |
| XStream.ScanMarkup | xstream.h:291-402 | defines the markup after `<`: a comment's body kept as a text fragment with state Comment, otherwise the fragments cleared and the tag scanned (ScanMarkupOk states its properties) |
| XStream.ScanStart | xstream.h:304-402 | defines what follows `<` when it is no comment: `/` and `!` consumed, `?` kept in the name, a tag when a name byte or `?` follows, Error otherwise (ScanStartOk states its properties) |
| XStream.CloseTag | xstream.h:374-399 | defines the close of a tag: an optional `/`, for `<?` an optional `?`, then `>` or an error, with the path saved and extended by a start tag; CloseTagOk, CloseTagRecords and SlashDefersEnd state its properties |
| XStream.ScanTag | xstream.h:311-400 | defines a tag from its name on: the name, the attributes and the close; ScanTagOk and ScanTagRecords state its properties |
| XStream.ScanLoop | xstream.h:268-430 | defines the while(1) loop of next(): passes until one ends the call; ScanLoopOk, ScanLoopDone and ScanLoopGoesOn state its properties |
| XStream.NextEvent | xstream.h:258-431 | defines next(): the path restored after an end, then the loop; NextOk, TagAttributesRecorded, TextReported and TextSkipped state its properties, and Reader.Next is proved to compute it |
| XStream.DecodedAttrs | xstream.h:496-503 | attributes() returns one pair per recorded attribute |
| XStream.PartText | xstream.h:190-200 | defines one fragment's share of text(): text decoded by decode_html_string, CDATA as it is, a comment nothing |
| XStream.PartsText | xstream.h:182-203 | defines decode_html_string(parts): the fragments' shares in order (PartsTextInserted states its properties) |
| XStream.EventText | xstream.h:476-486 | defines text(): the name at a start or end tag, the decoded fragments at Characters, nothing otherwise |
| XStream.DecodedAttrsAt | xstream.h:496-503 | attributes() keeps every key in order and decodes every value |
| XStream.CloseTagOk | xstream.h:374-402 | closing a tag keeps every invariant and reports neither Characters nor None |
| XStream.CloseTagRecords | xstream.h:374-399 | the close keeps the name, the attributes and the fragments |
| XStream.ScanTagOk | xstream.h:311-402 | scanning a tag keeps every invariant and reports neither Characters nor None |
| XStream.ScanTagRecords | xstream.h:311-400 | a tag reports the name up to the first non-name byte, the attributes scanned after it, and no fragments |
| XStream.ScanStartOk | xstream.h:304-402 | scanning after `<` keeps every invariant and reports neither Characters nor None |
| XStream.ScanMarkupOk | xstream.h:278-402 | scanning markup keeps every invariant and reports neither Characters nor None |
| XStream.TextRunOk | xstream.h:403-425 | a reported text run keeps the invariants and is Characters only after StartElement or Characters; an unreported one changes no event field |
| XStream.PassOk | xstream.h:268-430 | the same for one whole pass through the loop |
| XStream.ScanLoopOk | xstream.h:268-430 | the loop keeps every invariant; false comes only with None at the end of the buffer |
| XStream.NextOk | xstream.h:258-431 | next keeps the invariants, never moves the cursor back, returns false only with None at the end, and moves the path one step as the event says |
| XStream.CharactersFollowStartOrCharacters | xstream.h:415-421 | a Characters event comes only right after a StartElement or a Characters event |
| XStream.EndRestoresSavedPath | xstream.h:260-267 | after an EndElement, the next call restores the path and the saved paths the element's start began from |
| XStream.SelfClosingEnd | xstream.h:273-277 | after `<name/>` the next call reports EndElement at once, with the same name and attributes |
| XStream.SlashDefersEnd | xstream.h:374-399 | `/>` reports StartElement, moves past it and defers the EndElement |
| XStream.PassIsTextRun | xstream.h:403-425 | a pass starting at text is the text run |
| XStream.ScanLoopDone | xstream.h:268-430 | a pass that returns ends the loop with its result |
| XStream.ScanLoopGoesOn | xstream.h:268-430 | a pass that does not end the call leaves the rest to the loop |
| XStream.TagAttributesRecorded | xstream.h:278-400 | at `<name` or `<?name` the call reports the tag with its name, the attributes scanned after the name, and no fragments |
| XStream.PassAtTag | xstream.h:278-311 | at `<name` or `<?name` a pass is the scan of that tag and ends the call |
| XStream.TrailingTextDropped | xstream.h:403-429 | text reaching the end of the buffer is not reported: next returns false with None |
| XStream.TextReported | xstream.h:403-425 | text before `</` or `<!` after a StartElement or Characters event is stored and reported as Characters |
| XStream.AtMarkupMore | xstream.h:278-402 | at a `<` next always reports an event |
| XStream.TextSkipped | xstream.h:403-425 | any other text run is stored and the loop goes on to the markup, which reports an event |
| XStream.TextRunSkips | xstream.h:403-425 | a text run not followed by `</` or `<!` after StartElement or Characters is kept among the fragments and the loop goes on at the `<` |
| XStream.NextNulFree | xstream.h:311-318 | next puts no NUL into the name or any path |
| XStream.PartsTextInserted | xstream.h:182-203 | an inserted fragment extends the decoded text by that fragment's text |
| XStream.ReportedTextIsDecoded | xstream.h:476-486 | the text of a reported run is the earlier fragments' text followed by the run, decoded |
| XStream.Reader.constructor | xstream.h:241-256 | a new reader is in the initial state |
| XStream.Reader.InsertChars | xstream.h:225-230 | insert_chars adds one fragment and changes nothing else |
| XStream.Reader.FinishTag | xstream.h:374-402 | closing a tag moves the state as CloseTag says |
| XStream.Reader.ReadTag | xstream.h:311-402 | reading a tag moves the state as ScanTag says |
| XStream.Reader.ReadMarkup | xstream.h:291-402 | reading markup moves the state as ScanMarkup says |
| XStream.Reader.ReadStart | xstream.h:304-402 | reading after `<` moves the state as ScanStart says |
| XStream.Reader.Round | xstream.h:268-430 | one pass of the loop moves the state as Pass says |
| XStream.Reader.ReadCData | xstream.h:278-289 | a CDATA section is stored as a fragment, the cursor moves past `]]>` and the state is left as it was |
| XStream.Reader.ReadText | xstream.h:403-425 | a text run moves the state as TextRun says |
| XStream.Reader.Next | xstream.h:258-431 | next moves the state as NextEvent says and keeps it valid |
| XStream.Reader.Match | xstream.h:468-471 | match holds exactly at a StartElement whose path is p, or p without one trailing `/` |
| XStream.Reader.Path | xstream.h:464-467 | defines path(): the current path |
| XStream.Reader.MatchEnd | xstream.h:472-475 | match_end holds exactly at an EndElement whose path is p, or p without one trailing `/` |
| XStream.Reader.IsStartElementNamed | xstream.h:444-447 | holds exactly at a StartElement with that name |
| XStream.Reader.IsEndElementNamed | xstream.h:448-451 | holds exactly at an EndElement with that name |
| XStream.Reader.Text | xstream.h:476-486 | text() is the name at a start or end, the decoded fragments at Characters, and empty otherwise |
| XStream.Reader.Attribute | xstream.h:487-495 | attribute(name, defval) is the first matching value decoded, or defval |
| XStream.Reader.Attributes | xstream.h:496-503 | attributes() is every recorded pair with decoded values |
| XStreamCpp.Initial | xstream.cpp:103-115 | a new reader is at the buffer's start with state None and no deferred end |
| XStreamCpp.Begin | xstream.cpp:119-122 | the pending-text mark is set before scanning |
| XStreamCpp.CloseTag | xstream.cpp:220-232 | defines the close of a tag: an optional `/` defers an end, then `>` makes an event, anything else an error; CloseTagMeaning and QuestionMarkCloseIsError state its properties |
| XStreamCpp.ScanTag | xstream.cpp:157-232 | defines a tag from its name on: the name, the attributes and the close; ScanTagRecords and QuestionMarkCloseIsError state its properties |
| XStreamCpp.Step | xstream.cpp:117-249 | defines next() from a state whose chars_ is set: a deferred end, markup, a text run, or None at the end; StepOk, StepAtMarkup and TextReported state its properties |
| XStreamCpp.ScanMarkup | xstream.cpp:128-142 | defines the markup after `<` with the characters cleared: a comment's body becomes the characters with state Comment, anything else goes on to ScanSection (CommentScanned and MarkupIsSection state its properties) |
| XStreamCpp.ScanSection | xstream.cpp:143-153 | defines a CDATA section: its body becomes the characters, chars_ is cleared and the state is kept; anything else goes on to ScanStart (CDataScanned and CDataKeepsState state its properties) |
| XStreamCpp.ScanStart | xstream.cpp:154-232 | defines a tag after `<`: a leading `/`, `!` or `?` consumed, a tag when an issymf byte follows, Error otherwise (MarkupIsTag and DeclarationIsError state its properties) |
| XStreamCpp.NextEvent | xstream.cpp:117-249 | defines next() as that step after the head of next(); NextOk, DeclarationIsError and SelfClosingEnd state its properties, and Reader.Next is proved to compute it |
| XStreamCpp.NextOk | xstream.cpp:117-249 | next keeps the invariants, never moves the cursor back, and returns false only with None at the end |
| XStreamCpp.StepOk | xstream.cpp:123-249 | the same for one step from a state whose chars_ is set |
| XStreamCpp.ScanMarkupOk | xstream.cpp:128-232 | scanning markup keeps the invariants and yields None only from None |
| XStreamCpp.CloseTagMeaning | xstream.cpp:220-232 | `>` or `/>` closes a tag, as EndElement after `</` and BeginElement otherwise; anything else is Error; a `/` defers the end |
| XStreamCpp.ScanTagRecords | xstream.cpp:157-232 | a tag reports the name up to the first non-name byte, the attributes scanned after it, and no characters |
| XStreamCpp.TagAttributesRecorded | xstream.cpp:128-232 | at `<name`, next reports the tag with its name and the attributes scanned after the name |
| XStreamCpp.MarkupIsTag | xstream.cpp:130-160 | markup whose first byte starts a name is a tag with no leading `/`, `!` or `?` |
| XStreamCpp.QuestionMarkCloseIsError | xstream.cpp:220-232 | a `?` before the close of a tag `<?…` is an Error, since this revision does not read declarations |
| XStreamCpp.DeclarationIsError | xstream.cpp:154-232 | `<?xml?>` is reported as Error |
| XStreamCpp.SelfClosingEnd | xstream.cpp:123-127 | after `<name/>` the next call reports EndElement at once, with the same name and attributes |
| XStreamCpp.TextReported | xstream.cpp:233-245 | a text run is collected up to the next `<` and reported as Characters |
| XStreamCpp.TrailingTextReported | xstream.cpp:233-248 | text reaching the end of the buffer is reported, and the call after it returns false with None |
| XStreamCpp.ReportedTextIsDecoded | xstream.cpp:254-264 | the text of a reported run is the collected bytes, decoded |
| XStreamCpp.CommentScanned | xstream.cpp:132-142 | a comment's body up to `-->` becomes the text, with state Comment and the cursor past the delimiter |
| XStreamCpp.StepAtMarkup | xstream.cpp:128-130 | at `<` the scan continues after it, with the text cleared |
| XStreamCpp.CommentReported | xstream.cpp:128-142 | `<!--…-->` is reported as Comment with its body as the collected bytes, and text() is empty for it |
| XStreamCpp.CDataIsNotComment | xstream.cpp:132-153 | `<![CDATA[` never opens a comment |
| XStreamCpp.MarkupIsSection | xstream.cpp:143-232 | markup that is no comment goes on to the CDATA test |
| XStreamCpp.CDataScanned | xstream.cpp:143-153 | a CDATA body up to `]]>` becomes the collected bytes, and the pending mark is cleared |
| XStreamCpp.CDataKeepsState | xstream.cpp:143-153 | a CDATA section returns true but leaves the state as it was, with the body as the collected bytes |
| XStreamCpp.Reader.constructor | xstream.cpp:103-115 | a new reader is in the initial state |
| XStreamCpp.Reader.FinishTag | xstream.cpp:220-232 | closing a tag moves the state as CloseTag says |
| XStreamCpp.Reader.ReadTag | xstream.cpp:157-232 | reading a tag moves the state as ScanTag says |
| XStreamCpp.Reader.ReadStart | xstream.cpp:154-232 | reading after `<` moves the state as ScanStart says |
| XStreamCpp.Reader.ReadMarkup | xstream.cpp:130-232 | reading markup moves the state as ScanMarkup says |
| XStreamCpp.Reader.ReadSection | xstream.cpp:143-232 | reading a CDATA section or tag moves the state as ScanSection says |
| XStreamCpp.Reader.ReadText | xstream.cpp:233-246 | a text run moves the cursor to the next `<`, collects the run and reports Characters |
| XStreamCpp.Reader.Dispatch | xstream.cpp:128-248 | the body of next after its preamble moves the state as Step says |
| XStreamCpp.Reader.Next | xstream.cpp:117-249 | next moves the state as NextEvent says and keeps it valid |
| XStreamCpp.Reader.Text | xstream.cpp:254-264 | text() is the name at a begin or end, the decoded bytes at Characters, and empty otherwise |
| XStreamCpp.EventText | xstream.cpp:254-264 | defines text(): the name at BeginElement and EndElement, the decoded characters at Characters, nothing otherwise (ReportedTextIsDecoded and CommentReported state its properties) |
| XStreamCpp.Reader.Attribute | xstream.cpp:265-273 | attribute(name, defval) is the first matching value decoded, or defval |
| XStreamCpp.Reader.Attributes | xstream.cpp:274-281 | attributes() is every recorded pair with decoded values |
| UrlCodec.Percent | urlencode.cpp:50-54 | `%XX` is three bytes: `%` and two hexadecimal digits |
| UrlCodec.Unreserved | urlencode.cpp:41 | defines the first test of url_encode_: isalnum, or a byte strchr finds in `_.-~`, which includes its terminating NUL |
| UrlCodec.PassesThrough | urlencode.cpp:41-47 | defines the bytes url_encode_ copies: unreserved ones, 0x80 and above with utf8through, and `/` without encodeslash (EncodeByteCases states its properties) |
| UrlCodec.EncodeByte | urlencode.cpp:39-55 | defines what url_encode_ writes for one byte: the byte itself when it passes through, `+` for a space, `%XX` otherwise; EncodeByteCases and DecodeEncodedByte state its properties |
| UrlCodec.Encoded | urlencode.cpp:36-57 | defines url_encode_ over a range as the per-byte encodings one after another; EncodeInto is proved to compute it, and EncodedLength, EncodedBytes and RoundTrip state its properties |
| UrlCodec.EncodedStep | urlencode.cpp:38-56 | encoding a suffix is encoding its first byte followed by encoding the rest |
| UrlCodec.EncodeOne | urlencode.cpp:39-55 | one pass of url_encode_'s loop appends exactly the encoding of its byte: the byte itself, '+' or three-byte %XX |
| UrlCodec.EncodeIntoStep | urlencode.cpp:38-56 | one pass of the loop keeps the invariant that the output plus the encoding of the rest is the whole encoding |
| UrlCodec.EncodeInto | urlencode.cpp:36-57 | url_encode_ appends exactly the encoding of the rest of the input |
| UrlCodec.UrlEncodeRange | urlencode.cpp:59-76 | url_encode(str, end) and (str, len) give the empty string for a null pointer and the encoding otherwise |
| UrlCodec.UrlEncodeCString | urlencode.cpp:78-81 | url_encode(str, flag) encodes the bytes before the terminating NUL, with the caller's flag taken as encodeslash and utf8through always false |
| UrlCodec.UrlEncodeCStringFlag | urlencode.cpp:78-81 | with that flag set, `/` is percent-encoded and so is every byte of 0x80 and above, so the flag never lets UTF-8 through |
| UrlCodec.UrlEncode | urlencode.cpp:83-111 | url_encode(string_view) returns the encoding, whether or not the fast path copies the input |
| UrlCodec.PrefixByte | urlencode.cpp:89-97 | defines the prefix test of url_encode(string_view): unreserved bytes, and `/` without encodeslash; utf8through is not consulted |
| UrlCodec.PrefixByteCopied | urlencode.cpp:89-99 | a byte that passes url_encode's prefix test is its own encoding, so copying it keeps the result the encoding of the whole input |
| UrlCodec.DecodedStep | urlencode.cpp:115-129 | `+` decodes to a space, `%XX` to its byte, and anything else to itself |
| UrlCodec.EscapeAt | urlencode.cpp:120 | defines an escape at p: a `%` followed by two hexadecimal digits inside the range |
| UrlCodec.EscapedByte | urlencode.cpp:121-125 | defines the byte an escape stands for: the value of its two hexadecimal digits, as strtol base 16 reads them |
| UrlCodec.Decoded | urlencode.cpp:113-130 | defines url_decode_: `+` is a space, `%XX` with two hexadecimal digits is that byte, anything else is itself; DecodeInto is proved to compute it, and DecodedLength, DecodedPlain, BadEscapeCopied and RoundTrip state its properties |
| UrlCodec.DecodeInto | urlencode.cpp:113-130 | url_decode_ appends exactly the decoding of the rest of the input |
| UrlCodec.DecodeAt | urlencode.cpp:116-128 | one pass of url_decode_'s loop moves the cursor forward within the range and writes the byte the decoding of the rest begins with |
| UrlCodec.UrlDecodeRange | urlencode.cpp:132-149 | url_decode(str, end) and (str, len) give the empty string for a null pointer and the decoding otherwise |
| UrlCodec.CString | urlencode.cpp:151-154 | the bytes of a C string hold no NUL |
| UrlCodec.UrlDecodeCString | urlencode.cpp:151-154 | url_decode(str) decodes the bytes before the terminating NUL |
| UrlCodec.UrlDecode | urlencode.cpp:156-180 | url_decode(string_view) returns the decoding, whether or not the fast path copies the input |
| UrlCodec.PlainByteCopied | urlencode.cpp:162-168 | a byte other than `+` and `%` is its own decoding, so copying it keeps the result the decoding of the whole input |
| UrlCodec.DecodeEncodedByte | urlencode.cpp:41-55 | whatever one byte encodes to decodes back to that byte, whatever follows |
| UrlCodec.RoundTrip | urlencode.cpp:36-130 | url_decode(url_encode(s, encodeslash, utf8through)) == s for every byte string and all four settings |
| UrlCodec.EncodeByteCases | urlencode.cpp:41-55 | a byte is copied exactly when it passes through, a space becomes one byte (`+`), and every other byte becomes `%XX` |
| UrlCodec.EncodedLength | urlencode.cpp:36-57 | the encoding is between one and three times as long as the input |
| UrlCodec.EncodedBytes | urlencode.cpp:36-57 | the encoding holds only bytes that pass through, `+` and `%` |
| UrlCodec.DecodedLength | urlencode.cpp:113-130 | decoding never lengthens its input |
| UrlCodec.DecodedPlain | urlencode.cpp:162-171 | input without `+` and `%` decodes to itself |
| UrlCodec.BadEscapeCopied | urlencode.cpp:120-128 | a `%` not followed by two hexadecimal digits is copied unchanged |

## Left out

- **Outside the library code.** Two things are not modelled:
  - the demonstration programs: `main.cpp` and `main` in `xstream.cpp` (284-310);
  - the test programs under `test/`.
  `urlencode.h` only declares what `urlencode.cpp` defines.
- **Unused branch.** The `__HTMLENCODE_H` branch of `include/xstream.h` (21-33) is not modelled. It would take the codec from another header, which is not part of this model.
- **url_encode(char const *, bool)** (`urlencode.cpp`:78-81) is modelled as written by `UrlCodec.UrlEncodeCString`. `urlencode.h`:13 declares `url_encode(char const *str)` instead, so this definition cannot be reached through the header; the model does not capture that mismatch.
- **last_path_ and pop_path.** `last_path_` and `pop_path` of `include/xstream.h` (337-363) are not modelled. Nothing ever stores into `last_path_`, so it stays empty, `current_path` is always the top frame's path, and `pop_path` is unused.
- **Writer::element with a callback** (844-851) is modelled only as `text_element` uses it, with `write_characters` as the callback. An arbitrary callback cannot be modelled.
- **The writer's sink.** Its return value is ignored, as the C++ ignores it. The sink is the sequence `out`, not a call to foreign code.
- **Copies and sizes.**
  - `string_view` spans into the buffer are modelled as copied byte sequences, since the buffer never changes.
  - `reserve` calls do not affect behaviour.
  - The `EscapedAttributeValue` and `std::optional` wrappers are modelled by the decoded value and `Option`.
- **Reads past the end.** The C++ scanners and decoders sometimes read past the end of their range:
  - `strchr` in `html_decode_` looks for the `;` up to the first NUL, which may lie beyond the range;
  - `ptr += 3` after an unterminated comment or CDATA section;
  - `ptr += n + 1` in `decode_html_string`;
  - `ptr[0]`/`ptr[1]` after a final `%` in `url_decode_`;
  - the second `ptr_++` of the attribute scan, which moves one byte past `end_` when a name-start byte is the last byte of the range (`include/xstream.h`:536-537, `xstream.h`:327-328, `xstream.cpp`:173-174); `Attributes.AttrStart` clamps it.

  The model clamps every cursor to the buffer's end and treats a `%` without two following bytes as a plain byte. Its strchr stops at a `;` or a NUL inside the range, as the C++ does; one that reaches the end of the range is taken as finding no `;`, where the C++ would go on into the bytes that follow.
- **ByteText.Atoi** does not model overflow beyond the range of `int`. Its result is narrowed to a byte, as `vecprint` does.
- **XmlReader.Reader.constructor** starts `d.hold` as false. `include/xstream.h` leaves it uninitialised.
- **XStreamCpp.Reader, XStream.Reader and XmlReader.Reader** take the input as an immutable byte sequence. Raw `begin`/`end` pointers and the separate constructor overloads collapse to that one entry point.
- **XStreamCpp.NextOk** promises only that false comes with None at the end. It does not promise the converse, because a CDATA section returns true while leaving the state None.
- **XStream.NextOk** states the path change of one event as a disjunction over the event kinds (`PathStep`), not as one formula per kind.
- **HtmlEntities.HtmlEncode** models the fast path as written. It copies control bytes, and bytes of 0x80 and above when `utf8through` is off, unchanged whenever they precede the first byte that stops the prefix scan. The per-byte encoder would escape them. `CopiedBytesEscapeTheEncoder` exhibits this. Decoding still round-trips, so no contract depends on it.
- **Character sets.** Character classes follow the C locale. Locale-dependent `isspace`/`isprint` and multi-byte encodings are not modelled.
