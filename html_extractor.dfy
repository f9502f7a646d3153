/**
 * The HTML "big chunk" extractor (core/html_extractor.py).
 *
 * The parsed document is given as the sequence of elements the walk visits,
 * in document order, each described by an `Element` record: its tag, the
 * string form of its class list, its raw text, its number of children, the
 * stripped texts of its `li` descendants, the stripped cell texts of each of
 * its `tr` descendants, and the identity keys of its descendants and its
 * ancestors. An element's identity is its key (tag, first 100 characters of
 * its text stripped, child count), which the source hashes.
 */
module HtmlExtractor {
  import opened Wrappers
  import opened Strings
  import opened Chunks
  import Helpers

  /** Element names: the ones the walk asks for, and any other. */
  datatype Tag = H1 | H2 | H3 | H4 | H5 | H6 | P | Table | Ul | Ol | Dl | Section | Div | Other(name: string) {
    predicate IsHeading() { this in {H1, H2, H3, H4, H5, H6} }

    /** A heading's name upper-cased. */
    function Label(): string
      requires IsHeading()
    {
      match this
      case H1 => "H1" case H2 => "H2" case H3 => "H3"
      case H4 => "H4" case H5 => "H5" case H6 => "H6"
    }

    predicate IsContainer() { this in {Table, Ul, Ol, Dl} }
  }

  datatype Key = Key(tag: Tag, text: string, childCount: int)

  datatype Element = Element(
    tag: Tag,
    classString: string,
    text: string,
    childCount: nat,
    items: seq<string>,
    rows: seq<seq<string>>,
    descendants: seq<Key>,
    ancestors: seq<Key>)

  /** `_get_element_id`: the tag, the stripped first 100 characters of the text, the child count. */
  function KeyOf(e: Element): (k: Key)
    ensures k.tag == e.tag && k.childCount == e.childCount
    ensures |e.text| <= 100 ==> k.text == Strip(e.text)
    ensures |e.text| > 100 ==> k.text == Strip(e.text[..100])
  {
    Key(e.tag, Strip(if |e.text| <= 100 then e.text else e.text[..100]), e.childCount)
  }

  predicate IsWarning(e: Element, text: string) {
    Contains(Lower(e.classString), "warning") || Contains(text, WarningSign)
  }

  /** The rows of a table that have a non-empty cell, each as its cells joined by " | ". */
  function TableRows(rows: seq<seq<string>>): (r: seq<string>)
    ensures |r| <= |rows|
    ensures r == [] <==> forall i :: 0 <= i < |rows| ==> forall c :: c in rows[i] ==> c == ""
  {
    if rows == [] then []
    else
      var rest := TableRows(rows[1..]);
      assert forall i :: 1 <= i < |rows| ==> rows[i] == rows[1..][i - 1];
      if exists c :: c in rows[0] && c != "" then [Join(rows[0], " | ")] + rest else rest
  }

  /** The list branch of `_format_element` fires. */
  predicate ListFires(e: Element) { (e.tag == Ul || e.tag == Ol) && e.items != [] }

  /** The table branch of `_format_element` fires. */
  predicate TableFires(e: Element) { e.tag == Table && TableRows(e.rows) != [] }

  /**
   * `_format_element` without its bookkeeping: the tagged line an element
   * whose cleaned text is `text` yields, if any.
   */
  function Format(e: Element, text: string): (r: Option<string>)
    ensures r.Some? ==> text != "" || e.tag == Table
    ensures (text != "" || e.tag == Table) && IsWarning(e, text) ==> r.Some?
  {
    if text == "" && e.tag != Table then None
    else if IsWarning(e, text) then Some("WARNING: " + text)
    else if e.tag.IsHeading() then
      var tagUpper := e.tag.Label();
      if StartsWith(Upper(text), tagUpper + ":") then Some(text) else Some(tagUpper + ": " + text)
    else if e.tag == P then Some("CONTENT: " + text)
    else if ListFires(e) then Some("LIST: " + Join(e.items, " // "))
    else if TableFires(e) then Some("TABLE: " + Join(TableRows(e.rows), " // "))
    else None
  }

  /**
   * The shapes of the lines `_format_element` gives: the warning line of an
   * element of any tag, a heading line labelled with its tag and ending with
   * its text, the CONTENT line of a paragraph, the LIST line of a list with
   * items and the TABLE line of a table with a non-empty row.
   */
  predicate LineShape(e: Element, text: string, line: string) {
    || line == "WARNING: " + text
    || (e.tag.IsHeading() && StartsWith(Upper(line), e.tag.Label() + ":") && EndsWith(line, text))
    || (e.tag == P && line == "CONTENT: " + text)
    || (ListFires(e) && line == "LIST: " + Join(e.items, " // "))
    || (TableFires(e) && line == "TABLE: " + Join(TableRows(e.rows), " // "))
  }

  /**
   * Every line has one of the five shapes. A warning-marked element with text
   * (or a warning-marked table) gives the warning line whatever its tag; an
   * unmarked paragraph, list with items or table with a non-empty row gives
   * its CONTENT, LIST or TABLE line.
   */
  lemma FormatLine(e: Element, text: string)
    ensures Format(e, text).Some? ==> LineShape(e, text, Format(e, text).value)
    ensures (text != "" || e.tag == Table) && IsWarning(e, text) ==> Format(e, text) == Some("WARNING: " + text)
    ensures text != "" && !IsWarning(e, text) && e.tag == P ==> Format(e, text) == Some("CONTENT: " + text)
    ensures text != "" && !IsWarning(e, text) && ListFires(e) ==> Format(e, text) == Some("LIST: " + Join(e.items, " // "))
    ensures !IsWarning(e, text) && TableFires(e) ==> Format(e, text) == Some("TABLE: " + Join(TableRows(e.rows), " // "))
  {
    if text == "" && e.tag != Table {
    } else if IsWarning(e, text) {
    } else if e.tag.IsHeading() {
      FormatHeading(e, text);
    } else if e.tag == P {
    } else if ListFires(e) {
    }
  }

  /** An element yields a line starting "H2:" (and so opens a new chunk) exactly when this holds. */
  predicate OpensSection(e: Element, text: string) {
    && e.tag == H2 && text != "" && !IsWarning(e, text)
    && (StartsWith(text, "H2:") || !StartsWith(Upper(text), "H2:"))
  }

  /**
   * Only a non-empty, non-warning h2 opens a chunk, and not when its text
   * already starts with "h2:" in another case: the line is then the text as it
   * stands. A warning-marked h2 never opens one.
   */
  lemma FormatOpensSection(e: Element, text: string)
    ensures (Format(e, text).Some? && IsH2(Format(e, text).value)) <==> OpensSection(e, text)
  {
    if text == "" && e.tag != Table {
    } else if IsWarning(e, text) {
      assert ("WARNING: " + text)[0] == 'W';
    } else if e.tag.IsHeading() {
      var tu := e.tag.Label();
      assert e.tag == H2 ==> tu + ":" == "H2:";
      if StartsWith(Upper(text), tu + ":") {
        assert UpperChar(text[1]) == tu[1];
      } else {
        var line := tu + ": " + text;
        assert Format(e, text) == Some(line);
        if e.tag == H2 {
          assert line[..3] == "H2:";
          assert OpensSection(e, text);
        } else {
          assert line[1] == tu[1] != '2';
        }
      }
    } else if e.tag == P {
      assert ("CONTENT: " + text)[0] == 'C';
    } else if ListFires(e) {
      assert ("LIST: " + Join(e.items, " // "))[0] == 'L';
    } else if TableFires(e) {
      assert ("TABLE: " + Join(TableRows(e.rows), " // "))[0] == 'T';
    }
  }

  /**
   * A non-empty, non-warning heading yields a line that starts, ignoring case,
   * with its tag and a colon exactly once and ends with its text.
   */
  lemma FormatHeading(e: Element, text: string)
    requires e.tag.IsHeading() && text != "" && !IsWarning(e, text)
    ensures Format(e, text).Some?
    ensures StartsWith(Upper(Format(e, text).value), e.tag.Label() + ":")
    ensures EndsWith(Format(e, text).value, text)
    ensures StartsWith(Upper(text), e.tag.Label() + ":") ==> Format(e, text) == Some(text)
  {
    var tu := e.tag.Label();
    if !StartsWith(Upper(text), tu + ":") {
      var line := tu + ": " + text;
      assert Upper(line)[..3] == tu + ":";
      assert line[|line| - |text|..] == text;
    }
  }

  /**
   * div, section and dl elements, lists without items and tables whose rows
   * are all empty yield nothing unless marked as a warning; so does any empty
   * element other than a table.
   */
  lemma FormatSilent(e: Element, text: string)
    requires !IsWarning(e, text) || (text == "" && e.tag != Table)
    requires || e.tag in {Div, Section, Dl}
             || ((e.tag == Ul || e.tag == Ol) && e.items == [])
             || (e.tag == Table && forall i :: 0 <= i < |e.rows| ==> forall c :: c in e.rows[i] ==> c == "")
             || (text == "" && e.tag != Table)
    ensures Format(e, text).None?
  {
  }

  /** The element's text after `clean_text`. */
  function TextOf(e: Element): string {
    Helpers.CleanText(e.text)
  }

  /** The keys `_format_element` marks: the element's own, and its descendants' once a list or table is rendered. */
  function Marks(e: Element): set<Key> {
    {KeyOf(e)} + (if RendersContainer(e, TextOf(e)) then KeySet(e.descendants) else {})
  }

  lemma MarksOf(e: Element, container: bool)
    requires container == RendersContainer(e, TextOf(e))
    ensures Marks(e) == {KeyOf(e)} + (if container then KeySet(e.descendants) else {})
  {
  }

  lemma UnionAssoc(a: set<Key>, b: set<Key>, c: set<Key>)
    ensures a + b + c == a + (b + c)
  {
  }

  /** Marking the element, then its descendants when it renders as a container, adds `Marks(e)`. */
  lemma MarksStep(p0: set<Key>, p1: set<Key>, p2: set<Key>, e: Element, container: bool)
    requires container == RendersContainer(e, TextOf(e))
    requires p1 == p0 + {KeyOf(e)}
    requires p2 == if container then p1 + KeySet(e.descendants) else p1
    ensures p2 == p0 + Marks(e)
  {
  }

  function KeySet(ks: seq<Key>): (r: set<Key>)
    ensures forall k :: k in r <==> k in ks
  {
    if ks == [] then {} else KeySet(ks[..|ks| - 1]) + {ks[|ks| - 1]}
  }

  /** `_format_element` reaches its list or table branch and that branch returns a line. */
  predicate RendersContainer(e: Element, text: string) {
    && (text != "" || e.tag == Table)
    && !IsWarning(e, text) && !e.tag.IsHeading() && e.tag != P
    && (ListFires(e) || TableFires(e))
  }

  /** The walk skips an element already seen, or one inside a list, table or definition list already rendered. */
  predicate Skipped(processed: set<Key>, e: Element) {
    KeyOf(e) in processed || exists a :: a in e.ancestors && a.tag.IsContainer() && a in processed
  }

  /** The line a formatted element contributes, if any. */
  function LineOf(f: Option<string>): seq<string> {
    if f.Some? then [f.value] else []
  }

  /** One step of the walk from the processed set and lines `w`. */
  function Step(w: (set<Key>, seq<string>), e: Element): (set<Key>, seq<string>) {
    if Skipped(w.0, e) then w else (w.0 + Marks(e), w.1 + LineOf(Format(e, TextOf(e))))
  }

  /** The processed set and the formatted lines after walking `es` from the processed set `p0`. */
  function Walk(p0: set<Key>, es: seq<Element>): (set<Key>, seq<string>)
  {
    if es == [] then (p0, []) else Step(Walk(p0, es[..|es| - 1]), es[|es| - 1])
  }

  /** The walk only ever adds keys. */
  lemma {:induction false} WalkGrows(p0: set<Key>, es: seq<Element>, i: nat, j: nat)
    requires i <= j <= |es|
    ensures Walk(p0, es[..i]).0 <= Walk(p0, es[..j]).0
    decreases j - i
  {
    if i < j {
      WalkGrows(p0, es, i, j - 1);
      var s := es[..j];
      assert s[..|s| - 1] == es[..j - 1] && s[|s| - 1] == es[j - 1];
      var w := Walk(p0, es[..j - 1]);
      assert Walk(p0, s) == Step(w, es[j - 1]);
      StepGrows(w, es[j - 1]);
    }
  }

  lemma StepGrows(w: (set<Key>, seq<string>), e: Element)
    ensures w.0 <= Step(w, e).0
  {
  }

  /**
   * Once a list or table is rendered, an element among its descendants that
   * comes later in the walk contributes nothing: its content is not repeated.
   */
  lemma RenderedDescendantSkipped(p0: set<Key>, es: seq<Element>, i: nat, j: nat)
    requires i < j < |es|
    requires !Skipped(Walk(p0, es[..i]).0, es[i]) && RendersContainer(es[i], TextOf(es[i]))
    requires KeyOf(es[j]) in es[i].descendants
    ensures Walk(p0, es[..j + 1]) == Walk(p0, es[..j])
  {
    WalkFormatted(p0, es, i, Format(es[i], TextOf(es[i])));
    var k := KeyOf(es[j]);
    assert k in Marks(es[i]);
    WalkGrows(p0, es, i + 1, j);
    assert k in Walk(p0, es[..j]).0;
    assert Skipped(Walk(p0, es[..j]).0, es[j]);
    WalkSkipped(p0, es, j);
  }

  /** Two elements with the same tag and child count whose texts agree on their first 100 characters share a key. */
  lemma LongTextsShareKey(a: Element, b: Element)
    requires a.tag == b.tag && a.childCount == b.childCount
    requires |a.text| > 100 && |b.text| > 100 && a.text[..100] == b.text[..100]
    ensures KeyOf(a) == KeyOf(b)
  {
  }

  /**
   * An element formatted by the walk hides any later element with the same
   * tag and child count whose text starts with the same 100 characters,
   * whatever follows them: the later one contributes nothing.
   */
  lemma LongTextDuplicateSkipped(p0: set<Key>, es: seq<Element>, i: nat, j: nat)
    requires i < j < |es| && !Skipped(Walk(p0, es[..i]).0, es[i])
    requires es[i].tag == es[j].tag && es[i].childCount == es[j].childCount
    requires |es[i].text| > 100 && |es[j].text| > 100 && es[i].text[..100] == es[j].text[..100]
    ensures Walk(p0, es[..j + 1]) == Walk(p0, es[..j])
  {
    WalkFormatted(p0, es, i, Format(es[i], TextOf(es[i])));
    LongTextsShareKey(es[i], es[j]);
    WalkGrows(p0, es, i + 1, j);
    assert KeyOf(es[j]) in Walk(p0, es[..j]).0;
    WalkSkipped(p0, es, j);
  }

  predicate IsH2(line: string) { StartsWith(line, "H2:") }

  /** The partition of the line stream into chunks: at every "H2:" line. */
  function Groups(lines: seq<string>): (gs: seq<seq<string>>)
    ensures lines == [] <==> gs == []
  {
    GroupsAt(lines, "H2:")
  }

  /** The chunk list `_extract_with_direct_chunking` appends for a line stream. */
  function Chunked(lines: seq<string>): (r: seq<BigChunk>)
    ensures |r| == |Groups(lines)|
    ensures forall i :: 0 <= i < |r| ==> r[i].index == i + 1 && r[i].name.None?
    ensures AllSmallChunks(r) == lines
  {
    AllSmallChunksOfNumber(Groups(lines), 1);
    GroupsAtFlatten(lines, "H2:");
    Number(Groups(lines), 1)
  }

  const Placeholder: BigChunk := BigChunk(1, None, ["CONTENT: No content extracted"])

  /**
   * The chunks `extract_content` produces for a document whose walk yields
   * `lines`: numbered 1, 2, ..., none empty, holding every line in order, with
   * an "H2:" line only at the head of a chunk and at the head of every chunk
   * but the first; the placeholder alone when there is no line.
   */
  function FinalChunks(lines: seq<string>): (r: seq<BigChunk>)
    ensures r != []
    ensures lines == [] ==> r == [Placeholder]
    ensures lines != [] ==> AllSmallChunks(r) == lines
    ensures forall i :: 0 <= i < |r| ==> r[i].index == i + 1 && r[i].smallChunks != []
    ensures forall i, j :: 0 <= i < |r| && 0 < j < |r[i].smallChunks| ==> !IsH2(r[i].smallChunks[j])
    ensures lines != [] ==> forall i :: 0 < i < |r| ==> IsH2(r[i].smallChunks[0])
  {
    GroupsAtShape(lines, "H2:");
    if Chunked(lines) == [] then [Placeholder] else Chunked(lines)
  }

  /** Walking the elements: the chunks of the document's formatted lines. */
  function ChunksOf(es: seq<Element>): seq<BigChunk> {
    FinalChunks(Walk({}, es).1)
  }

  class Extractor {
    var processedElements: set<Key>
    var currentH2Section: Option<string>
    var bigChunks: seq<BigChunk>

    constructor ()
      ensures processedElements == {} && currentH2Section == None && bigChunks == []
    {
      processedElements := {};
      currentH2Section := None;
      bigChunks := [];
    }

    /** `_is_processed`. */
    predicate IsProcessed(k: Key)
      reads this
    {
      k in processedElements
    }

    /** `_mark_processed`. */
    method MarkProcessed(k: Key)
      modifies this
      ensures processedElements == old(processedElements) + {k}
      ensures currentH2Section == old(currentH2Section) && bigChunks == old(bigChunks)
    {
      processedElements := processedElements + {k};
    }

    /** Marks every key of `ks` (the descendant-marking loop of `_format_element`). */
    method MarkAll(ks: seq<Key>)
      modifies this
      ensures processedElements == old(processedElements) + KeySet(ks)
      ensures currentH2Section == old(currentH2Section) && bigChunks == old(bigChunks)
    {
      for j := 0 to |ks|
        invariant processedElements == old(processedElements) + KeySet(ks[..j])
        invariant currentH2Section == old(currentH2Section) && bigChunks == old(bigChunks)
      {
        assert ks[..j + 1][..j] == ks[..j];
        MarkProcessed(ks[j]);
      }
      assert ks[..|ks|] == ks;
    }

    /** `_format_element`: marks the element (and, for a rendered list or table, its descendants) and formats it. */
    method FormatElement(e: Element) returns (r: Option<string>)
      modifies this
      ensures r == Format(e, TextOf(e))
      ensures r.Some? ==> LineShape(e, TextOf(e), r.value)
      ensures processedElements == old(processedElements) + Marks(e)
      ensures currentH2Section == old(currentH2Section) && bigChunks == old(bigChunks)
    {
      ghost var p0 := processedElements;
      MarkProcessed(KeyOf(e));
      ghost var p1 := processedElements;
      r := Format(e, TextOf(e));
      var container := RendersContainer(e, TextOf(e));
      if container {
        MarkAll(e.descendants);
      }
      MarksStep(p0, p1, processedElements, e, container);
      FormatLine(e, TextOf(e));
    }

    /**
     * `_extract_with_direct_chunking`: walks the elements and appends one chunk
     * per group of the formatted line stream.
     */
    method ExtractWithDirectChunking(es: seq<Element>)
      requires currentH2Section.None?
      modifies this
      ensures processedElements == Walk(old(processedElements), es).0
      ensures bigChunks == old(bigChunks) + Chunked(Walk(old(processedElements), es).1)
      ensures currentH2Section.None? <==> NoH2(Walk(old(processedElements), es).1)
    {
      var p0 := processedElements;
      var b0 := bigChunks;
      var preH2Content: seq<string> := [];
      var currentChunkContent: seq<string> := [];
      var chunkIndex := 1;
      ghost var lines: seq<string> := [];
      assert ChunkInv(b0, bigChunks, lines, preH2Content, currentChunkContent, currentH2Section, chunkIndex);
      for i := 0 to |es|
        invariant processedElements == Walk(p0, es[..i]).0 && lines == Walk(p0, es[..i]).1
        invariant ChunkInv(b0, bigChunks, lines, preH2Content, currentChunkContent, currentH2Section, chunkIndex)
      {
        var e := es[i];
        if Skipped(processedElements, e) {
          WalkSkipped(p0, es, i);
          continue;
        }
        ghost var p := processedElements;
        var formatted := FormatElement(e);
        WalkFormatted(p0, es, i, formatted);
        if formatted.None? {
          continue;
        }
        var l := formatted.value;
        preH2Content, currentChunkContent, chunkIndex :=
          HandleLine(l, preH2Content, currentChunkContent, chunkIndex, b0, lines);
        lines := lines + [l];
      }
      assert es[..|es|] == es;
      FinalTail(b0, bigChunks, lines, preH2Content, currentChunkContent, currentH2Section, chunkIndex);
      if currentChunkContent != [] {
        bigChunks := bigChunks + [BigChunk(chunkIndex, None, currentChunkContent)];
      } else if preH2Content != [] {
        bigChunks := bigChunks + [BigChunk(1, None, preH2Content)];
      }
    }

    /**
     * The body of the walk for one formatted line: an "H2:" line flushes the
     * current chunk (or, the first time, the pre-section content) and opens a
     * new chunk; any other line joins the open chunk or the pre-section content.
     */
    method HandleLine(l: string, pre: seq<string>, cur: seq<string>, idx: int,
                      ghost b0: seq<BigChunk>, ghost lines: seq<string>)
      returns (pre': seq<string>, cur': seq<string>, idx': int)
      requires ChunkInv(b0, bigChunks, lines, pre, cur, currentH2Section, idx)
      modifies this
      ensures ChunkInv(b0, bigChunks, lines + [l], pre', cur', currentH2Section, idx')
      ensures processedElements == old(processedElements)
    {
      pre', cur', idx' := pre, cur, idx;
      if IsH2(l) {
        if cur != [] {
          FlushCurrent(b0, bigChunks, lines, pre, cur, currentH2Section, idx, l);
          bigChunks := bigChunks + [BigChunk(idx, None, cur)];
          idx' := idx + 1;
        } else if pre != [] {
          FlushPre(b0, bigChunks, lines, pre, cur, currentH2Section, idx, l);
          bigChunks := bigChunks + [BigChunk(idx, None, pre)];
          idx' := idx + 1;
        } else {
          OpenFirst(b0, bigChunks, lines, pre, cur, currentH2Section, idx, l);
        }
        cur' := [l];
        currentH2Section := Some(l);
      } else {
        AppendLine(b0, bigChunks, lines, pre, cur, currentH2Section, idx, l);
        if currentH2Section.None? {
          pre' := pre + [l];
        } else {
          cur' := cur + [l];
        }
      }
    }

    /** `_create_final_json`: the placeholder chunk when nothing was extracted. */
    method CreateFinalJson() returns (chunks: seq<BigChunk>)
      modifies this
      ensures bigChunks == (if old(bigChunks) == [] then [Placeholder] else old(bigChunks))
      ensures chunks == bigChunks
      ensures processedElements == old(processedElements) && currentH2Section == old(currentH2Section)
    {
      if bigChunks == [] {
        bigChunks := [Placeholder];
      }
      chunks := bigChunks;
    }

    /** `extract_content` after parsing: reset, walk, finalise. */
    method ExtractContent(es: seq<Element>) returns (chunks: seq<BigChunk>)
      modifies this
      ensures chunks == ChunksOf(es)
    {
      processedElements := {};
      bigChunks := [];
      currentH2Section := None;
      ExtractWithDirectChunking(es);
      chunks := CreateFinalJson();
    }
  }

  predicate NoH2(lines: seq<string>) {
    forall j :: 0 <= j < |lines| ==> !IsH2(lines[j])
  }

  lemma WalkSkipped(p0: set<Key>, es: seq<Element>, i: nat)
    requires i < |es| && Skipped(Walk(p0, es[..i]).0, es[i])
    ensures Walk(p0, es[..i + 1]) == Walk(p0, es[..i])
  {
    assert es[..i + 1][..i] == es[..i];
  }

  lemma WalkFormatted(p0: set<Key>, es: seq<Element>, i: nat, r: Option<string>)
    requires i < |es| && !Skipped(Walk(p0, es[..i]).0, es[i]) && r == Format(es[i], TextOf(es[i]))
    ensures Walk(p0, es[..i + 1]).0 == Walk(p0, es[..i]).0 + Marks(es[i])
    ensures r.None? ==> Walk(p0, es[..i + 1]).1 == Walk(p0, es[..i]).1
    ensures r.Some? ==> Walk(p0, es[..i + 1]).1 == Walk(p0, es[..i]).1 + [r.value]
  {
    var w := Walk(p0, es[..i]);
    WalkSnoc(p0, es, i, w);
    StepFormatted(w, es[i], r);
  }

  /** Walking one more element is one more step from the walk so far. */
  lemma WalkSnoc(p0: set<Key>, es: seq<Element>, i: nat, w: (set<Key>, seq<string>))
    requires i < |es| && w == Walk(p0, es[..i])
    ensures Walk(p0, es[..i + 1]) == Step(w, es[i])
  {
    assert es[..i + 1][..i] == es[..i];
  }

  lemma StepFormatted(w: (set<Key>, seq<string>), e: Element, r: Option<string>)
    requires !Skipped(w.0, e) && r == Format(e, TextOf(e))
    ensures Step(w, e).0 == w.0 + Marks(e)
    ensures r.None? ==> Step(w, e).1 == w.1
    ensures r.Some? ==> Step(w, e).1 == w.1 + [r.value]
  {
    assert w.1 + [] == w.1;
  }

  /**
   * The state of the chunking loop after the lines `lines`, relative to the
   * chunk list `b0` it started from: before the first "H2:" line everything is
   * held back as the pre-section content; afterwards the current chunk is the
   * last group and every earlier group has been appended with its number.
   */
  ghost predicate ChunkInv(b0: seq<BigChunk>, bc: seq<BigChunk>, lines: seq<string>,
                           pre: seq<string>, cur: seq<string>, h2: Option<string>, idx: int)
  {
    && (h2.None? <==> NoH2(lines))
    && (h2.None? ==> cur == [] && bc == b0 && pre == lines && idx == 1)
    && (h2.Some? ==>
          var gs := Groups(lines);
          && cur != [] && gs != []
          && gs == gs[..|gs| - 1] + [cur]
          && bc == b0 + Number(gs[..|gs| - 1], 1)
          && idx == |gs|)
  }

  lemma ChunkStep(lines: seq<string>, l: string)
    ensures var gs := Groups(lines);
      && Groups(lines + [l]) == (if gs == [] || IsH2(l) then gs + [[l]] else gs[..|gs| - 1] + [gs[|gs| - 1] + [l]])
  {
    GroupsAtSnoc(lines, "H2:", l);
  }

  lemma FlushCurrent(b0: seq<BigChunk>, bc: seq<BigChunk>, lines: seq<string>,
                     pre: seq<string>, cur: seq<string>, h2: Option<string>, idx: int, l: string)
    requires ChunkInv(b0, bc, lines, pre, cur, h2, idx) && IsH2(l) && cur != []
    ensures ChunkInv(b0, bc + [BigChunk(idx, None, cur)], lines + [l], pre, [l], Some(l), idx + 1)
  {
    var gs := Groups(lines);
    ChunkStep(lines, l);
    var gs' := gs + [[l]];
    assert Groups(lines + [l]) == gs';
    assert gs'[..|gs'| - 1] == gs;
    NumberSnoc(gs[..|gs| - 1], cur, 1);
    assert bc + [BigChunk(idx, None, cur)] == b0 + Number(gs, 1);
    assert !NoH2(lines + [l]) by {
      assert (lines + [l])[|lines|] == l;
    }
  }

  lemma FlushPre(b0: seq<BigChunk>, bc: seq<BigChunk>, lines: seq<string>,
                 pre: seq<string>, cur: seq<string>, h2: Option<string>, idx: int, l: string)
    requires ChunkInv(b0, bc, lines, pre, cur, h2, idx) && IsH2(l) && cur == [] && pre != []
    ensures ChunkInv(b0, bc + [BigChunk(idx, None, pre)], lines + [l], pre, [l], Some(l), idx + 1)
  {
    GroupsAtWithoutHead(lines, "H2:");
    ChunkStep(lines, l);
    NumberSnoc([], pre, 1);
    assert [lines, [l]][..1] == [lines];
  }

  lemma OpenFirst(b0: seq<BigChunk>, bc: seq<BigChunk>, lines: seq<string>,
                  pre: seq<string>, cur: seq<string>, h2: Option<string>, idx: int, l: string)
    requires ChunkInv(b0, bc, lines, pre, cur, h2, idx) && IsH2(l) && cur == [] && pre == []
    ensures ChunkInv(b0, bc, lines + [l], pre, [l], Some(l), idx)
  {
    ChunkStep(lines, l);
    assert lines + [l] == [l];
  }

  lemma AppendLine(b0: seq<BigChunk>, bc: seq<BigChunk>, lines: seq<string>,
                   pre: seq<string>, cur: seq<string>, h2: Option<string>, idx: int, l: string)
    requires ChunkInv(b0, bc, lines, pre, cur, h2, idx) && !IsH2(l)
    ensures h2.None? ==> ChunkInv(b0, bc, lines + [l], pre + [l], cur, h2, idx)
    ensures h2.Some? ==> ChunkInv(b0, bc, lines + [l], pre, cur + [l], h2, idx)
  {
    ChunkStep(lines, l);
    var gs := Groups(lines);
    if h2.Some? {
      var gs' := gs[..|gs| - 1] + [cur + [l]];
      assert gs'[..|gs'| - 1] == gs[..|gs| - 1];
      assert !NoH2(lines + [l]) by {
        var j :| 0 <= j < |lines| && IsH2(lines[j]);
        assert (lines + [l])[j] == lines[j];
      }
    }
  }

  lemma FinalTail(b0: seq<BigChunk>, bc: seq<BigChunk>, lines: seq<string>,
                  pre: seq<string>, cur: seq<string>, h2: Option<string>, idx: int)
    requires ChunkInv(b0, bc, lines, pre, cur, h2, idx)
    ensures cur != [] ==> bc + [BigChunk(idx, None, cur)] == b0 + Chunked(lines)
    ensures cur == [] && pre != [] ==> bc + [BigChunk(1, None, pre)] == b0 + Chunked(lines)
    ensures cur == [] && pre == [] ==> bc == b0 + Chunked(lines)
    ensures h2.None? <==> NoH2(lines)
  {
    var gs := Groups(lines);
    if cur != [] {
      NumberSnoc(gs[..|gs| - 1], cur, 1);
    } else if pre != [] {
      GroupsAtWithoutHead(lines, "H2:");
      NumberSnoc([], pre, 1);
    }
  }
}
