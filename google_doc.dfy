/**
 * The Google-Doc extractor (core/google_doc_extractor.py): a five-step pass
 * over loosely structured markup that hunts for metadata lines, gathers a
 * "global context" chunk, promotes bold paragraphs to headings, flattens
 * tables, pairs questions with answers after an FAQ heading and finally cuts
 * the rest into chunks at h2/h3 headings.
 *
 * The document is the sequence of the body's top-level elements, in order.
 * A paragraph, heading or any other element with plain text is a `Node`; a
 * `ul`/`ol` holds its `li` texts; a table holds its rows of `td`/`th` cells.
 * Removing an element (`decompose`) leaves a `Gone` in its place, and removing
 * a list item or a cell marks it dead, so positions stay stable while the
 * tree shrinks.
 */
module GoogleDoc {
  import opened Wrappers
  import opened Strings
  import opened Chunks
  import Helpers

  datatype Name = P | H1 | H2 | H3 | Script | Style | Meta | Title | Head | OtherName(name: string)

  datatype Entry = Entry(text: string, alive: bool)

  datatype Cell = Cell(isHeader: bool, text: string, alive: bool)

  datatype Block =
    | Node(name: Name, text: string, bold: bool)
    | ItemList(ordered: bool, items: seq<Entry>)
    | Grid(rows: seq<seq<Cell>>)
    | Gone

  function Clean(t: string): string {
    Helpers.CleanText(t)
  }

  class Document {
    var blocks: seq<Block>

    constructor (blocks: seq<Block>)
      ensures this.blocks == blocks
    {
      this.blocks := blocks;
    }
  }

  // ---------------------------------------------------------------------------
  // Step 1: noise removal
  // ---------------------------------------------------------------------------

  predicate IsNoise(b: Block) {
    b.Node? && b.name in {Script, Style, Meta, Title, Head}
  }

  /** A paragraph whose text is only whitespace. */
  predicate IsBlankParagraph(b: Block) {
    b.Node? && b.name == P && AllSpace(b.text)
  }

  /** An element after noise removal. */
  function Denoised(b: Block): Block
  {
    if IsNoise(b) || IsBlankParagraph(b) then Gone else b
  }

  // ---------------------------------------------------------------------------
  // Step 2: the metadata hunt
  // ---------------------------------------------------------------------------

  /** The metadata types in the order they are tried, each with its keywords in order. */
  const MetadataKeys: seq<(string, seq<string>)> := [
    ("h1", ["h1", "title"]),
    ("subtitle", ["subtitle", "sub title", "sub-title"]),
    ("lead", ["lead", "lead text", "intro"]),
    ("meta_title", ["mt", "meta title", "meta_title"]),
    ("meta_desc", ["md", "meta description", "meta_desc"])]

  predicate IsSeparator(c: char) { c == ':' || IsSpace(c) }

  /** The length of the run of ':' and whitespace that starts `t`. */
  function SeparatorLen(t: string): (n: nat)
    ensures n <= |t|
    ensures forall k :: 0 <= k < n ==> IsSeparator(t[k])
    ensures n < |t| ==> !IsSeparator(t[n])
  {
    if t == [] || !IsSeparator(t[0]) then 0 else 1 + SeparatorLen(t[1..])
  }

  /**
   * The value `^keyword[:\s]+(.*)` captures in `text`, matched ignoring case,
   * stripped; the separator run is greedy, so the value starts after all of it.
   */
  function KeywordValue(text: string, keyword: string): Option<string>
  {
    if |text| <= |keyword| || Lower(text[..|keyword|]) != keyword || !IsSeparator(text[|keyword|]) then None
    else
      var rest := text[|keyword|..];
      Some(Strip(rest[SeparatorLen(rest)..]))
  }

  /**
   * One keyword's verdict on a tag's cleaned text: the captured value, if the
   * pattern matches, a keyword shorter than 3 characters finds ':' among the
   * first five characters, and the value is not empty.
   */
  function KeywordMatch(text: string, keyword: string): (r: Option<string>)
    ensures r.Some? ==> r.value != "" && KeywordValue(text, keyword) == r
  {
    match KeywordValue(text, keyword)
    case None => None
    case Some(v) =>
      if |keyword| < 3 && ':' !in text[..if |text| < 5 then |text| else 5] then None
      else if v == "" then None
      else Some(v)
  }

  /** The value of the first keyword of `keywords` that matches. */
  function MatchKeywords(text: string, keywords: seq<string>): (r: Option<string>)
  {
    if keywords == [] then None
    else if KeywordMatch(text, keywords[0]).Some? then KeywordMatch(text, keywords[0])
    else MatchKeywords(text, keywords[1..])
  }

  /** The first metadata type, in order, one of whose keywords matches, with its value. */
  function MatchMetadata(text: string, keys: seq<(string, seq<string>)>): (r: Option<(string, string)>)
    ensures r.Some? ==> r.value.0 in TypeNames(keys)
  {
    if keys == [] then None
    else
      match MatchKeywords(text, keys[0].1)
      case Some(v) => Some((keys[0].0, v))
      case None =>
        var r := MatchMetadata(text, keys[1..]);
        assert r.Some? ==> r.value.0 in TypeNames(keys) by {
          if r.Some? {
            var k :| k in keys[1..] && k.0 == r.value.0;
            assert k in keys;
          }
        }
        r
  }

  function TypeNames(keys: seq<(string, seq<string>)>): set<string>
  {
    set k | k in keys :: k.0
  }

  /** The type name upper-cased with '_' read as a space: "meta_title" is labelled "META TITLE". */
  function Label(t: string): (r: string)
    ensures |r| == |t|
    ensures forall i :: 0 <= i < |t| ==> r[i] == (if t[i] == '_' then ' ' else UpperChar(t[i]))
  {
    seq(|t|, i requires 0 <= i < |t| => if t[i] == '_' then ' ' else UpperChar(t[i]))
  }

  /** An element the hunt looks at: a whole paragraph or heading, a list item, or a table cell. */
  datatype Target = Whole(i: nat) | Item(i: nat, k: nat) | CellAt(i: nat, r: nat, c: nat)

  function ItemTargets(i: nat, items: seq<Entry>): seq<Target>
  {
    if items == [] then []
    else
      var n := |items| - 1;
      ItemTargets(i, items[..n]) + (if items[n].alive then [Item(i, n)] else [])
  }

  function RowTargets(i: nat, r: nat, row: seq<Cell>): seq<Target>
  {
    if row == [] then []
    else
      var n := |row| - 1;
      RowTargets(i, r, row[..n]) + (if row[n].alive && !row[n].isHeader then [CellAt(i, r, n)] else [])
  }

  function GridTargets(i: nat, rows: seq<seq<Cell>>): seq<Target>
  {
    if rows == [] then []
    else
      var n := |rows| - 1;
      GridTargets(i, rows[..n]) + RowTargets(i, n, rows[n])
  }

  /** `find_all(['p', 'li', 'td', 'h1', 'h2', 'h3'])`, in document order. */
  function HuntTargets(blocks: seq<Block>): seq<Target>
  {
    if blocks == [] then []
    else
      var n := |blocks| - 1;
      HuntTargets(blocks[..n]) +
        match blocks[n]
        case Node(name, _, _) => if name in {P, H1, H2, H3} then [Whole(n)] else []
        case ItemList(_, items) => ItemTargets(n, items)
        case Grid(rows) => GridTargets(n, rows)
        case Gone => []
  }

  /** The text of a target (empty for a position that holds no such element). */
  function TargetText(blocks: seq<Block>, t: Target): string
  {
    match t
    case Whole(i) => if i < |blocks| && blocks[i].Node? then blocks[i].text else ""
    case Item(i, k) =>
      if i < |blocks| && blocks[i].ItemList? && k < |blocks[i].items| then blocks[i].items[k].text else ""
    case CellAt(i, r, c) =>
      if i < |blocks| && blocks[i].Grid? && r < |blocks[i].rows| && c < |blocks[i].rows[r]|
      then blocks[i].rows[r][c].text else ""
  }

  /** `decompose()` of a target: the element leaves the document. */
  function Decompose(blocks: seq<Block>, t: Target): (r: seq<Block>)
    ensures |r| == |blocks|
  {
    match t
    case Whole(i) => if i < |blocks| then blocks[i := Gone] else blocks
    case Item(i, k) =>
      if i < |blocks| && blocks[i].ItemList? && k < |blocks[i].items| then
        var b := blocks[i];
        blocks[i := b.(items := b.items[k := b.items[k].(alive := false)])]
      else blocks
    case CellAt(i, r, c) =>
      if i < |blocks| && blocks[i].Grid? && r < |blocks[i].rows| && c < |blocks[i].rows[r]| then
        var b := blocks[i];
        var row := b.rows[r];
        blocks[i := b.(rows := b.rows[r := row[c := row[c].(alive := false)]])]
      else blocks
  }

  /**
   * The hunt's state: the metadata found so far (`found_metadata`), the types
   * in the order this pass recorded them, the lines for the metadata chunk and
   * the document.
   */
  datatype HuntState = HuntState(found: map<string, string>, order: seq<string>, items: seq<string>, blocks: seq<Block>)

  /** One target of the hunt: a first match of a type not found yet is recorded, labelled, and its element removed. */
  function HuntStep(st: HuntState, t: Target): HuntState
  {
    HuntText(st, t, Clean(TargetText(st.blocks, t)))
  }

  /** The hunt step on the target's cleaned text. */
  function HuntText(st: HuntState, t: Target, text: string): HuntState
  {
    if text == "" then st
    else
      match MatchMetadata(text, MetadataKeys)
      case None => st
      case Some(m) =>
        if m.0 in st.found then st
        else HuntState(st.found[m.0 := m.1], st.order + [m.0], st.items + [Label(m.0) + ": " + m.1],
                       Decompose(st.blocks, t))
  }

  function HuntLoop(st: HuntState, ts: seq<Target>): HuntState
  {
    if ts == [] then st else HuntStep(HuntLoop(st, ts[..|ts| - 1]), ts[|ts| - 1])
  }

  lemma HuntLoopSnoc(st: HuntState, ts: seq<Target>, t: nat)
    requires t < |ts|
    ensures HuntLoop(st, ts[..t + 1]) == HuntStep(HuntLoop(st, ts[..t]), ts[t])
  {
    assert ts[..t + 1][..t] == ts[..t];
  }

  /** `soup.find('h1')`: the first h1 still in the document. */
  function FirstH1(blocks: seq<Block>): (r: Option<nat>)
    ensures r.Some? ==> r.value < |blocks| && blocks[r.value].Node? && blocks[r.value].name == H1
    ensures r.Some? ==> forall j :: 0 <= j < r.value ==> !(blocks[j].Node? && blocks[j].name == H1)
    ensures r.None? ==> forall j :: 0 <= j < |blocks| ==> !(blocks[j].Node? && blocks[j].name == H1)
  {
    if blocks == [] then None
    else if blocks[0].Node? && blocks[0].name == H1 then Some(0)
    else match FirstH1(blocks[1..]) case None => None case Some(k) => Some(k + 1)
  }

  /** The hunt over the whole document, before the h1 fallback. */
  function Hunted(found: map<string, string>, blocks: seq<Block>): HuntState
  {
    HuntLoop(HuntState(found, [], [], blocks), HuntTargets(blocks))
  }

  /** The metadata chunk's lines: the hunt's, behind the first h1's text when no h1 line was found. */
  function MetadataItems(st: HuntState): seq<string>
  {
    if "h1" !in st.found && FirstH1(st.blocks).Some? then
      ["H1: " + Clean(st.blocks[FirstH1(st.blocks).value].text)] + st.items
    else st.items
  }

  /** The document after the hunt and the fallback. */
  function MetadataBlocks(st: HuntState): seq<Block>
  {
    if "h1" !in st.found && FirstH1(st.blocks).Some? then st.blocks[FirstH1(st.blocks).value := Gone]
    else st.blocks
  }

  /**
   * The hunt's bookkeeping is consistent with the metadata found before it:
   * every type it records is new, recorded once, is a known type, and has
   * one line "LABEL: value" in the metadata chunk, in the order recorded;
   * earlier entries are kept as they were.
   */
  ghost predicate Recorded(found0: map<string, string>, st: HuntState) {
    KeysKept(found0, st.found, st.order) && FreshTypes(found0, st.order) && LabelledLines(st.found, st.order, st.items)
  }

  ghost predicate KeysKept(found0: map<string, string>, found: map<string, string>, order: seq<string>) {
    && found.Keys == found0.Keys + (set t | t in order)
    && (forall k :: k in found0 ==> found[k] == found0[k])
  }

  ghost predicate FreshTypes(found0: map<string, string>, order: seq<string>) {
    && (forall i :: 0 <= i < |order| ==> order[i] !in found0 && order[i] in TypeNames(MetadataKeys))
    && (forall i, j :: 0 <= i < j < |order| ==> order[i] != order[j])
  }

  ghost predicate LabelledLines(found: map<string, string>, order: seq<string>, items: seq<string>) {
    && |items| == |order|
    && (forall i :: 0 <= i < |order| ==> order[i] in found && items[i] == Label(order[i]) + ": " + found[order[i]])
  }

  lemma KeysKeptAdd(found0: map<string, string>, found: map<string, string>, order: seq<string>, ty: string, v: string)
    requires KeysKept(found0, found, order) && ty !in found
    ensures KeysKept(found0, found[ty := v], order + [ty])
  {
    assert (set t | t in order + [ty]) == (set t | t in order) + {ty};
  }

  lemma FreshTypesAdd(found0: map<string, string>, order: seq<string>, ty: string)
    requires FreshTypes(found0, order) && ty !in found0 && ty !in order && ty in TypeNames(MetadataKeys)
    ensures FreshTypes(found0, order + [ty])
  {
  }

  lemma LabelledLinesAdd(found: map<string, string>, order: seq<string>, items: seq<string>, ty: string, v: string)
    requires LabelledLines(found, order, items) && ty !in found
    ensures LabelledLines(found[ty := v], order + [ty], items + [Label(ty) + ": " + v])
  {
  }

  /** Recording a new, known type keeps the bookkeeping consistent. */
  lemma RecordKeeps(found0: map<string, string>, st: HuntState, ty: string, v: string, blocks: seq<Block>)
    requires Recorded(found0, st) && ty !in st.found
    requires ty in TypeNames(MetadataKeys)
    ensures Recorded(found0, HuntState(st.found[ty := v], st.order + [ty], st.items + [Label(ty) + ": " + v], blocks))
  {
    KeysKeptAdd(found0, st.found, st.order, ty, v);
    assert ty !in st.order && ty !in found0;
    FreshTypesAdd(found0, st.order, ty);
    LabelledLinesAdd(st.found, st.order, st.items, ty, v);
  }

  lemma HuntTextRecorded(found0: map<string, string>, st: HuntState, t: Target, text: string)
    requires Recorded(found0, st)
    ensures Recorded(found0, HuntText(st, t, text))
  {
    if text != "" && MatchMetadata(text, MetadataKeys).Some? {
      var m := MatchMetadata(text, MetadataKeys).value;
      if m.0 !in st.found {
        RecordKeeps(found0, st, m.0, m.1, Decompose(st.blocks, t));
      }
    }
  }

  /** Each metadata type is recorded at most once per document, with its label and value. */
  lemma {:induction false} HuntRecordsOnce(found0: map<string, string>, st: HuntState, ts: seq<Target>)
    requires Recorded(found0, st)
    ensures Recorded(found0, HuntLoop(st, ts))
  {
    if ts != [] {
      HuntRecordsOnce(found0, st, ts[..|ts| - 1]);
      var st' := HuntLoop(st, ts[..|ts| - 1]);
      HuntTextRecorded(found0, st', ts[|ts| - 1], Clean(TargetText(st'.blocks, ts[|ts| - 1])));
    }
  }

  // ---------------------------------------------------------------------------
  // Step 3: the global context backpack
  // ---------------------------------------------------------------------------

  function AliveTexts(items: seq<Entry>): seq<string>
  {
    if items == [] then []
    else
      var n := |items| - 1;
      AliveTexts(items[..n]) + (if items[n].alive then [items[n].text] else [])
  }

  /** The texts of a row's cells still in the document, header cells included. */
  function CellTexts(row: seq<Cell>): seq<string>
  {
    if row == [] then []
    else
      var n := |row| - 1;
      CellTexts(row[..n]) + (if row[n].alive then [row[n].text] else [])
  }

  function GridTexts(rows: seq<seq<Cell>>): seq<string>
  {
    if rows == [] then [] else GridTexts(rows[..|rows| - 1]) + CellTexts(rows[|rows| - 1])
  }

  /** The document's text nodes, in order. */
  function Pieces(blocks: seq<Block>): seq<string>
  {
    if blocks == [] then []
    else
      var n := |blocks| - 1;
      Pieces(blocks[..n]) +
        match blocks[n]
        case Node(_, t, _) => [t]
        case ItemList(_, items) => AliveTexts(items)
        case Grid(rows) => GridTexts(rows)
        case Gone => []
  }

  /** Each piece stripped, the empty ones dropped. */
  function StrippedPieces(ps: seq<string>): (r: seq<string>)
    ensures forall i :: 0 <= i < |r| ==> r[i] != ""
  {
    if ps == [] then []
    else
      var n := |ps| - 1;
      StrippedPieces(ps[..n]) + (if Strip(ps[n]) == "" then [] else [Strip(ps[n])])
  }

  /** `get_text(" ", strip=True)`: the stripped, non-empty text nodes joined by one space. */
  function FullText(blocks: seq<Block>): string
  {
    Join(StrippedPieces(Pieces(blocks)), " ")
  }

  const LicenseKeywords: seq<string> := ["UKGC", "MGA", "Curacao", "License", "Licencja", "Regulated", "Commission"]

  /**
   * The dot-terminated stretches of `t`: every '.' closes the text since the
   * previous one (or since the start); the text after the last '.' is no
   * sentence.
   */
  function Sentences(t: string): (r: seq<string>)
    ensures forall i :: 0 <= i < |r| ==> r[i] != [] && r[i][|r[i]| - 1] == '.' && '.' !in r[i][..|r[i]| - 1]
  {
    var parts := Split(t, '.');
    seq(|parts| - 1, i requires 0 <= i < |parts| - 1 => parts[i] + ".")
  }

  /** Case-insensitive containment. */
  predicate Mentions(s: string, kw: string) {
    Contains(Lower(s), Lower(kw))
  }

  /** The members of `ss` that mention `kw`, in order. */
  function Mentioning(ss: seq<string>, kw: string): (r: seq<string>)
    ensures |r| <= |ss|
    ensures forall i :: 0 <= i < |r| ==> r[i] in ss && Mentions(r[i], kw)
    ensures forall x :: x in ss && Mentions(x, kw) ==> x in r
  {
    if ss == [] then []
    else
      var n := |ss| - 1;
      Mentioning(ss[..n], kw) + (if Mentions(ss[n], kw) then [ss[n]] else [])
  }

  /**
   * `re.findall(r'([^.]*?' + kw + r'[^.]*\.)', t, re.IGNORECASE)`: the
   * matches are exactly the dot-terminated sentences that mention the keyword.
   */
  function LicenseMatches(t: string, kw: string): seq<string>
  {
    Mentioning(Sentences(t), kw)
  }

  function FirstTwo(ms: seq<string>): (r: seq<string>)
    ensures |r| <= 2 && r <= ms
    ensures |ms| <= 2 ==> r == ms
  {
    if |ms| <= 2 then ms else ms[..2]
  }

  function LicenseLines(ms: seq<string>): (r: seq<string>)
    ensures |r| == |ms|
  {
    if ms == [] then [] else LicenseLines(ms[..|ms| - 1]) + ["LICENSE_CTX: " + Clean(ms[|ms| - 1])]
  }

  /** The license lines for the keywords of `kws`, in order, at most two each. */
  function LicenseContext(t: string, kws: seq<string>): seq<string>
  {
    if kws == [] then []
    else
      var n := |kws| - 1;
      LicenseContext(t, kws[..n]) + LicenseLines(FirstTwo(LicenseMatches(t, kws[n])))
  }

  lemma LicenseContextSnoc(t: string, kws: seq<string>, k: nat)
    requires k < |kws|
    ensures LicenseContext(t, kws[..k + 1]) == LicenseContext(t, kws[..k]) + LicenseLines(FirstTwo(LicenseMatches(t, kws[k])))
  {
    assert kws[..k + 1][..k] == kws[..k];
  }

  lemma LicenseLinesSnoc(ms: seq<string>, j: nat)
    requires j < |ms|
    ensures LicenseLines(ms[..j + 1]) == LicenseLines(ms[..j]) + ["LICENSE_CTX: " + Clean(ms[j])]
  {
    assert ms[..j + 1][..j] == ms[..j];
  }

  const SafetyLine: string := "SAFETY_CTX: Risk Warnings found in document."

  predicate HasRiskWarning(t: string) {
    Contains(t, WarningSign) || Contains(t, "18+")
  }

  /** The backpack's lines before duplicates are dropped. */
  function ContextItems(t: string): seq<string>
  {
    LicenseContext(t, LicenseKeywords) + (if HasRiskWarning(t) then [SafetyLine] else [])
  }

  lemma ContextItemsParts(t: string)
    ensures ContextItems(t) == LicenseContext(t, LicenseKeywords) + (if HasRiskWarning(t) then [SafetyLine] else [])
  {
  }

  /**
   * `list(set(items))`: every line once. The set's iteration order is not
   * modelled; this keeps first occurrences in order.
   */
  function Dedup(xs: seq<string>): (r: seq<string>)
    ensures forall x :: x in r <==> x in xs
    ensures forall i, j :: 0 <= i < j < |r| ==> r[i] != r[j]
  {
    if xs == [] then []
    else
      var n := |xs| - 1;
      var d := Dedup(xs[..n]);
      if xs[n] in d then d else d + [xs[n]]
  }

  /** Every license line is tagged, and there are at most two per keyword. */
  lemma {:induction false} LicenseContextShape(t: string, kws: seq<string>)
    ensures |LicenseContext(t, kws)| <= 2 * |kws|
    ensures forall i :: 0 <= i < |LicenseContext(t, kws)| ==> StartsWith(LicenseContext(t, kws)[i], "LICENSE_CTX: ")
  {
    if kws != [] {
      var n := |kws| - 1;
      LicenseContextShape(t, kws[..n]);
      LicenseLinesTagged(FirstTwo(LicenseMatches(t, kws[n])));
    }
  }

  lemma {:induction false} LicenseLinesTagged(ms: seq<string>)
    ensures forall i :: 0 <= i < |LicenseLines(ms)| ==> StartsWith(LicenseLines(ms)[i], "LICENSE_CTX: ")
  {
    if ms != [] {
      LicenseLinesTagged(ms[..|ms| - 1]);
      var l := "LICENSE_CTX: " + Clean(ms[|ms| - 1]);
      assert "LICENSE_CTX: " <= l;
    }
  }

  /** The backpack carries the safety line exactly when the text has the warning emoji or "18+". */
  lemma BackpackSafety(t: string)
    ensures SafetyLine in Dedup(ContextItems(t)) <==> HasRiskWarning(t)
  {
    var lic := LicenseContext(t, LicenseKeywords);
    LicenseContextShape(t, LicenseKeywords);
    SafetyNotLicense(lic);
    if HasRiskWarning(t) {
      assert ContextItems(t) == lic + [SafetyLine];
    } else {
      assert ContextItems(t) == lic;
    }
  }

  lemma SafetyNotLicense(lines: seq<string>)
    requires forall i :: 0 <= i < |lines| ==> StartsWith(lines[i], "LICENSE_CTX: ")
    ensures SafetyLine !in lines
  {
    assert SafetyLine[0] == 'S' && "LICENSE_CTX: "[0] == 'L';
  }

  /** Every license line comes from a sentence of the text that mentions one of the keywords. */
  lemma {:induction false} LicenseContextSources(t: string, kws: seq<string>)
    ensures forall l :: l in LicenseContext(t, kws) ==>
      exists m, k :: m in Sentences(t) && k in kws && Mentions(m, k) && l == "LICENSE_CTX: " + Clean(m)
  {
    if kws != [] {
      var n := |kws| - 1;
      LicenseContextSources(t, kws[..n]);
      var ms := FirstTwo(LicenseMatches(t, kws[n]));
      LicenseLinesSources(ms);
      forall l | l in LicenseContext(t, kws)
        ensures exists m, k :: m in Sentences(t) && k in kws && Mentions(m, k) && l == "LICENSE_CTX: " + Clean(m)
      {
        if l in LicenseContext(t, kws[..n]) {
          var m, k :| m in Sentences(t) && k in kws[..n] && Mentions(m, k) && l == "LICENSE_CTX: " + Clean(m);
          assert k in kws;
        } else {
          assert l in LicenseLines(ms);
          var m :| m in ms && l == "LICENSE_CTX: " + Clean(m);
          assert m in LicenseMatches(t, kws[n]);
          assert kws[n] in kws;
        }
      }
    }
  }

  lemma {:induction false} LicenseLinesSources(ms: seq<string>)
    ensures forall l :: l in LicenseLines(ms) ==> exists m :: m in ms && l == "LICENSE_CTX: " + Clean(m)
  {
    if ms != [] {
      var n := |ms| - 1;
      LicenseLinesSources(ms[..n]);
      forall l | l in LicenseLines(ms)
        ensures exists m :: m in ms && l == "LICENSE_CTX: " + Clean(m)
      {
        if l in LicenseLines(ms[..n]) {
          var m :| m in ms[..n] && l == "LICENSE_CTX: " + Clean(m);
          assert m in ms;
        } else {
          assert ms[n] in ms;
        }
      }
    }
  }

  // ---------------------------------------------------------------------------
  // Step 4: normalisation
  // ---------------------------------------------------------------------------

  /** The cleaned text of a plain element (empty for the others). */
  function NodeText(b: Block): string
  {
    if b.Node? then Clean(b.text) else ""
  }

  predicate EndsSentence(t: string) {
    t != [] && t[|t| - 1] in {'.', '!', '?'}
  }

  /**
   * Pass one on a paragraph whose cleaned text is `text`: a bold paragraph
   * with a short, non-empty text not ending like a sentence is renamed h2.
   */
  function Promoted(b: Block, text: string): Block
  {
    if b.Node? && b.name == P && text != "" && |text| <= 100 && b.bold && !EndsSentence(text)
    then b.(name := H2)
    else b
  }

  /** The non-empty cleaned texts of a row's `td` cells still in the document. */
  function RowCells(row: seq<Cell>): (r: seq<string>)
    ensures forall i :: 0 <= i < |r| ==> r[i] != ""
  {
    if row == [] then []
    else
      var n := |row| - 1;
      var c := row[n];
      RowCells(row[..n]) + (if c.alive && !c.isHeader && Clean(c.text) != "" then [Clean(c.text)] else [])
  }

  /** One line per row with a non-empty cell: the cells joined by " | ". */
  function TableRows(rows: seq<seq<Cell>>): (r: seq<string>)
    ensures |r| <= |rows|
  {
    if rows == [] then []
    else
      var n := |rows| - 1;
      var cells := RowCells(rows[n]);
      TableRows(rows[..n]) + (if cells != [] then [Join(cells, " | ")] else [])
  }

  /** Pass two: a table becomes a paragraph "TABLE_DATA: row // row ...", or leaves if no row has text. */
  function Flattened(b: Block): (r: Block)
    ensures !r.Grid?
  {
    match b
    case Grid(rows) =>
      var lines := TableRows(rows);
      if lines == [] then Gone else Node(P, "TABLE_DATA: " + Join(lines, " // "), false)
    case _ => b
  }

  lemma FlattenedKeeps(b: Block)
    requires !b.Grid?
    ensures Flattened(b) == b
  {
  }

  /** The blocks with those before `i` flattened and the rest as they were. */
  ghost function FlattenedUpTo(bs: seq<Block>, i: nat): (r: seq<Block>)
    ensures |r| == |bs|
    ensures forall j :: 0 <= j < |bs| ==> r[j] == if j < i then Flattened(bs[j]) else bs[j]
  {
    seq(|bs|, j requires 0 <= j < |bs| => if j < i then Flattened(bs[j]) else bs[j])
  }

  lemma FlattenedUpToStep(bs: seq<Block>, i: nat, r: Block)
    requires i < |bs| && r == Flattened(bs[i])
    ensures FlattenedUpTo(bs, i)[i := r] == FlattenedUpTo(bs, i + 1)
  {
  }

  /** An element after both normalisation passes. */
  function Normalized(b: Block): Block
  {
    Flattened(PromotedBlock(b))
  }

  /** Pass one on an element: its own cleaned text decides. */
  function PromotedBlock(b: Block): Block
  {
    Promoted(b, NodeText(b))
  }

  /** A row yields no cell exactly when none of its data cells still in the document has text. */
  lemma {:induction false} RowCellsEmpty(row: seq<Cell>)
    ensures RowCells(row) == [] <==>
      forall c :: 0 <= c < |row| && row[c].alive && !row[c].isHeader ==> AllSpace(row[c].text)
  {
    if row != [] {
      var n := |row| - 1;
      RowCellsEmpty(row[..n]);
      assert forall c :: 0 <= c < n ==> row[..n][c] == row[c];
    }
  }

  lemma TableRowsEmpty(rows: seq<seq<Cell>>)
    ensures TableRows(rows) == [] <==> forall k :: 0 <= k < |rows| ==> RowCells(rows[k]) == []
  {
    TableRowsAsLines(rows);
    RowLinesEmpty(CellLists(rows));
  }

  /** The row texts of a table, one list of non-empty cell texts per row. */
  ghost function CellLists(rows: seq<seq<Cell>>): (r: seq<seq<string>>)
    ensures |r| == |rows| && forall k :: 0 <= k < |rows| ==> r[k] == RowCells(rows[k])
  {
    seq(|rows|, k requires 0 <= k < |rows| => RowCells(rows[k]))
  }

  /** The table lines built from given row texts: one per row that has any. */
  ghost function RowLines(css: seq<seq<string>>): seq<string>
  {
    if css == [] then []
    else
      var n := |css| - 1;
      RowLines(css[..n]) + (if css[n] != [] then [Join(css[n], " | ")] else [])
  }

  lemma {:induction false} TableRowsAsLines(rows: seq<seq<Cell>>)
    ensures TableRows(rows) == RowLines(CellLists(rows))
  {
    if rows != [] {
      var n := |rows| - 1;
      var cs := CellLists(rows);
      TableRowsAsLines(rows[..n]);
      assert cs[..n] == CellLists(rows[..n]);
      TableRowsSnoc(rows, cs[n]);
    }
  }

  lemma TableRowsSnoc(rows: seq<seq<Cell>>, cells: seq<string>)
    requires rows != [] && cells == RowCells(rows[|rows| - 1])
    ensures TableRows(rows) == TableRows(rows[..|rows| - 1]) + (if cells != [] then [Join(cells, " | ")] else [])
  {
  }

  lemma {:induction false} RowLinesEmpty(css: seq<seq<string>>)
    ensures RowLines(css) == [] <==> forall k :: 0 <= k < |css| ==> css[k] == []
  {
    if css != [] {
      var n := |css| - 1;
      RowLinesEmpty(css[..n]);
      assert forall k :: 0 <= k < n ==> css[..n][k] == css[k];
    }
  }

  /** A table leaves the document exactly when none of its data cells has text. */
  lemma TableGone(rows: seq<seq<Cell>>)
    ensures Flattened(Grid(rows)) == Gone <==>
      forall k, c :: 0 <= k < |rows| && 0 <= c < |rows[k]| && rows[k][c].alive && !rows[k][c].isHeader ==>
        AllSpace(rows[k][c].text)
  {
    TableRowsEmpty(rows);
    forall k | 0 <= k < |rows| {
      RowCellsEmpty(rows[k]);
    }
  }

  /** Promotion renames and nothing more; only a paragraph can become a heading. */
  lemma PromotedKeepsText(b: Block, text: string)
    ensures Promoted(b, text).Node? <==> b.Node?
    ensures b.Node? ==> Promoted(b, text).text == b.text && Promoted(b, text).bold == b.bold
    ensures b.Node? && Promoted(b, text).name != b.name ==> b.name == P && Promoted(b, text).name == H2
    ensures b.Node? && b.name == P && b.bold && text != "" && |text| <= 100 && !EndsSentence(text)
      ==> Promoted(b, text).name == H2
  {
  }

  // ---------------------------------------------------------------------------
  // Step 5: the FAQ detective
  // ---------------------------------------------------------------------------

  /** An upper-cased header text that names an FAQ section. */
  predicate NamesFaq(txt: string) {
    (Contains(txt, "FAQ") || Contains(txt, "KKK") || Contains(txt, "PYTANIA")) && |txt| < 60
  }

  predicate IsFaqHeader(b: Block) {
    b.Node? && b.name in {H1, H2, H3, P} && NamesFaq(Upper(Clean(b.text)))
  }

  /** The first FAQ header of the document. */
  function FirstFaqHeader(bs: seq<Block>): (r: Option<nat>)
    ensures r.Some? ==> r.value < |bs|
  {
    FirstWhere(bs, IsFaqHeader)
  }

  /** The position of the first element that satisfies `p`. */
  function FirstWhere(bs: seq<Block>, p: Block -> bool): (r: Option<nat>)
    ensures r.Some? ==> r.value < |bs|
  {
    if bs == [] then None
    else if p(bs[0]) then Some(0)
    else match FirstWhere(bs[1..], p) case None => None case Some(k) => Some(k + 1)
  }

  lemma {:induction false} FirstWhereIsFirst(bs: seq<Block>, p: Block -> bool)
    ensures FirstWhere(bs, p).Some? ==> p(bs[FirstWhere(bs, p).value])
    ensures FirstWhere(bs, p).Some? ==> forall j :: 0 <= j < FirstWhere(bs, p).value ==> !p(bs[j])
    ensures FirstWhere(bs, p).None? ==> forall j :: 0 <= j < |bs| ==> !p(bs[j])
  {
    if bs != [] && !p(bs[0]) {
      FirstWhereIsFirst(bs[1..], p);
      assert forall j :: 1 <= j < |bs| ==> bs[j] == bs[1..][j - 1];
    }
  }

  lemma FirstWhereAt(bs: seq<Block>, p: Block -> bool, i: nat)
    requires i < |bs| && p(bs[i]) && forall j :: 0 <= j < i ==> !p(bs[j])
    ensures FirstWhere(bs, p) == Some(i)
  {
    FirstWhereIsFirst(bs, p);
  }

  lemma FirstWhereNone(bs: seq<Block>, p: Block -> bool)
    requires forall j :: 0 <= j < |bs| ==> !p(bs[j])
    ensures FirstWhere(bs, p) == None
  {
    FirstWhereIsFirst(bs, p);
  }

  /** The header found is an FAQ header and no earlier element is one; without one, none is. */
  lemma FirstFaqHeaderIsFirst(bs: seq<Block>)
    ensures FirstFaqHeader(bs).Some? ==> IsFaqHeader(bs[FirstFaqHeader(bs).value])
    ensures FirstFaqHeader(bs).Some? ==> forall j :: 0 <= j < FirstFaqHeader(bs).value ==> !IsFaqHeader(bs[j])
    ensures FirstFaqHeader(bs).None? ==> forall j :: 0 <= j < |bs| ==> !IsFaqHeader(bs[j])
  {
    FirstWhereIsFirst(bs, IsFaqHeader);
  }

  /** A non-empty h1 or h2 ends the FAQ section. */
  predicate StopsScan(b: Block) {
    b.Node? && b.name in {H1, H2} && Clean(b.text) != ""
  }

  function ItemQuestions(items: seq<Entry>): (r: seq<string>)
  {
    if items == [] then []
    else
      var n := |items| - 1;
      ItemQuestions(items[..n]) + (if items[n].alive then ["Q: " + Clean(items[n].text)] else [])
  }

  /**
   * The raw lines one sibling contributes: every item of a list is a
   * question; a paragraph is a question when it has a '?' and is shorter
   * than 150 characters, an answer otherwise; other elements contribute
   * nothing.
   */
  function ScanLines(b: Block): seq<string>
  {
    match b
    case ItemList(_, items) => ItemQuestions(items)
    case Node(name, t, _) =>
      if name != P then []
      else
        var txt := Clean(t);
        if '?' in txt && |txt| < 150 then ["Q: " + txt] else ["A: " + txt]
    case _ => []
  }

  /** The raw lines of the siblings from position `j` on, up to the first that stops the scan. */
  function RawFrom(bs: seq<Block>, j: nat): seq<string>
    decreases |bs| - j
  {
    if j >= |bs| then []
    else if StopsScan(bs[j]) then []
    else ScanLines(bs[j]) + RawFrom(bs, j + 1)
  }

  /** `line[3:]` */
  function Drop3(line: string): string
  {
    if |line| >= 3 then line[3..] else ""
  }

  /** The pairing state: the pending question and the pairs so far. */
  datatype Pairing = Pairing(pending: string, pairs: seq<string>)

  /**
   * A "Q:" line replaces the pending question; an "A:" line answers the
   * pending question, if there is one, and clears it; other lines change
   * nothing.
   */
  function PairStep(st: Pairing, line: string): Pairing
  {
    if StartsWith(line, "Q:") then Pairing(Drop3(line), st.pairs)
    else if StartsWith(line, "A:") && st.pending != "" then
      Pairing("", st.pairs + ["FAQ_Q: " + st.pending + " // FAQ_A: " + Drop3(line)])
    else st
  }

  function PairUp(lines: seq<string>): Pairing
  {
    if lines == [] then Pairing("", []) else PairStep(PairUp(lines[..|lines| - 1]), lines[|lines| - 1])
  }

  /** The FAQ lines for the header at `h`. */
  function FaqItems(bs: seq<Block>, h: nat): seq<string>
    requires h < |bs|
  {
    PairUp(RawFrom(bs, h + 1)).pairs
  }

  function CountStarting(lines: seq<string>, p: string): nat
  {
    if lines == [] then 0
    else CountStarting(lines[..|lines| - 1], p) + (if StartsWith(lines[|lines| - 1], p) then 1 else 0)
  }

  /**
   * Every pair consumes a question line and an answer line: there are no
   * more pairs than answers, and no more pairs (counting a pending question
   * as one) than questions.
   */
  lemma {:induction false} PairUpBound(lines: seq<string>)
    ensures |PairUp(lines).pairs| <= CountStarting(lines, "A:")
    ensures |PairUp(lines).pairs| + (if PairUp(lines).pending != "" then 1 else 0) <= CountStarting(lines, "Q:")
  {
    if lines != [] {
      PairUpBound(lines[..|lines| - 1]);
      var l := lines[|lines| - 1];
      if StartsWith(l, "Q:") {
        assert !StartsWith(l, "A:") by { assert l[1] == ':' && l[0] == 'Q'; }
      }
    }
  }

  /**
   * A run of questions followed by a run of answers yields one pair: the
   * last question with the first answer.
   */
  lemma QuestionsThenAnswers(q1: string, q2: string, q3: string, a1: string, a2: string, a3: string)
    requires q3 != ""
    ensures PairUp(["Q: " + q1, "Q: " + q2, "Q: " + q3, "A: " + a1, "A: " + a2, "A: " + a3]).pairs ==
            ["FAQ_Q: " + q3 + " // FAQ_A: " + a1]
  {
    var ls := ["Q: " + q1, "Q: " + q2, "Q: " + q3, "A: " + a1, "A: " + a2, "A: " + a3];
    QuestionLine(q1);
    QuestionLine(q2);
    QuestionLine(q3);
    AnswerLine(a1);
    AnswerLine(a2);
    AnswerLine(a3);
    assert ls[..1][..0] == [];
    assert ls[..2][..1] == ls[..1];
    assert ls[..3][..2] == ls[..2];
    assert ls[..4][..3] == ls[..3];
    assert ls[..5][..4] == ls[..4];
    assert ls[..6][..5] == ls[..5];
    assert ls[..6] == ls;
    assert PairUp(ls[..1]) == PairStep(Pairing("", []), ls[0]) == Pairing(q1, []);
    assert PairUp(ls[..2]) == PairStep(PairUp(ls[..1]), ls[1]) == Pairing(q2, []);
    assert PairUp(ls[..3]) == PairStep(PairUp(ls[..2]), ls[2]) == Pairing(q3, []);
    assert PairUp(ls[..4]) == Pairing("", ["FAQ_Q: " + q3 + " // FAQ_A: " + a1]);
  }

  lemma QuestionLine(q: string)
    ensures StartsWith("Q: " + q, "Q:") && Drop3("Q: " + q) == q
  {
    assert ("Q: " + q)[..2] == "Q:";
    assert ("Q: " + q)[3..] == q;
  }

  lemma AnswerLine(a: string)
    ensures !StartsWith("A: " + a, "Q:") && StartsWith("A: " + a, "A:") && Drop3("A: " + a) == a
  {
    assert ("A: " + a)[0] == 'A';
    assert ("A: " + a)[..2] == "A:";
    assert ("A: " + a)[3..] == a;
  }

  /**
   * The FAQ step's result: the pairs after the first FAQ header, when there
   * are any.
   */
  function Faq(bs: seq<Block>): (r: Option<seq<string>>)
    ensures r.Some? ==> FirstFaqHeader(bs).Some? && r.value != []
  {
    match FirstFaqHeader(bs)
    case None => None
    case Some(h) =>
      var items := FaqItems(bs, h);
      if items == [] then None else Some(items)
  }

  /** The document after the FAQ step: the FAQ header, if any, is removed, and nothing else. */
  function AfterFaq(bs: seq<Block>): (r: seq<Block>)
    ensures |r| == |bs|
    ensures forall i :: 0 <= i < |bs| && (FirstFaqHeader(bs).None? || i != FirstFaqHeader(bs).value) ==> r[i] == bs[i]
  {
    match FirstFaqHeader(bs)
    case None => bs
    case Some(h) => bs[h := Gone]
  }

  /** Nothing at or after the first section heading reaches the FAQ. */
  lemma {:induction false} RawFromStopAt(bs: seq<Block>, j: nat, k: nat)
    requires j <= k < |bs| && StopsScan(bs[k])
    ensures RawFrom(bs, j) == RawFrom(bs[..k], j)
    decreases k - j
  {
    if j < k && !StopsScan(bs[j]) {
      RawFromStopAt(bs, j + 1, k);
    }
  }

  /** Every FAQ line pairs a question with an answer. */
  lemma {:induction false} PairUpTagged(lines: seq<string>)
    ensures forall i :: 0 <= i < |PairUp(lines).pairs| ==> StartsWith(PairUp(lines).pairs[i], "FAQ_Q: ")
  {
    if lines != [] {
      var n := |lines| - 1;
      PairUpTagged(lines[..n]);
      var st := PairUp(lines[..n]);
      if !StartsWith(lines[n], "Q:") && StartsWith(lines[n], "A:") && st.pending != "" {
        var l := "FAQ_Q: " + st.pending + " // FAQ_A: " + Drop3(lines[n]);
        assert l[..7] == "FAQ_Q: ";
      }
    }
  }

  // ---------------------------------------------------------------------------
  // Step 6: linear chunking
  // ---------------------------------------------------------------------------

  /** `get_text()` of a list: its items' texts run together. */
  function ListText(items: seq<Entry>): string
  {
    if items == [] then ""
    else
      var n := |items| - 1;
      ListText(items[..n]) + (if items[n].alive then items[n].text else "")
  }

  function CleanItems(items: seq<Entry>): (r: seq<string>)
  {
    if items == [] then []
    else
      var n := |items| - 1;
      CleanItems(items[..n]) + (if items[n].alive then [Clean(items[n].text)] else [])
  }

  /** The text the linear pass cleans for an element. */
  function ElementText(b: Block): string
  {
    match b
    case Node(_, t, _) => t
    case ItemList(_, items) => ListText(items)
    case _ => ""
  }

  predicate IsWarningText(text: string) {
    Contains(text, WarningSign) || Contains(text, "WARNING") || Contains(text, "UWAGA")
  }

  const HeaderTag: string := "HEADER: "

  /**
   * The line a p, h2, h3, ul or ol element with cleaned text `text`
   * contributes: headings become "HEADER:" lines, lists "LIST:" lines with
   * the items joined by " // ", paragraphs "WARNING:" or "CONTENT:" lines.
   */
  function LineOfText(b: Block, text: string): (r: Option<string>)
    ensures r.Some? && StartsWith(r.value, HeaderTag) <==> b.Node? && b.name in {H2, H3} && text != ""
    ensures r.Some? && StartsWith(r.value, HeaderTag) ==> r.value[|HeaderTag|..] == text
  {
    if text == "" then None
    else
      match b
      case Node(name, _, _) =>
        if name in {H2, H3} then Some(HeaderTag + text)
        else if name == P then
          var l := (if IsWarningText(text) then "WARNING" else "CONTENT") + ": " + text;
          assert l[0] != HeaderTag[0];
          Some(l)
        else None
      case ItemList(_, items) =>
        var its := CleanItems(items);
        if its == [] then None
        else
          var l := "LIST: " + Join(its, " // ");
          assert l[2] != HeaderTag[2];
          Some(l)
      case _ => None
  }

  function LinearLine(b: Block): Option<string>
  {
    LineOfText(b, Clean(ElementText(b)))
  }

  function LinearLines(bs: seq<Block>): seq<string>
  {
    if bs == [] then []
    else
      var n := |bs| - 1;
      LinearLines(bs[..n]) + (if LinearLine(bs[n]).Some? then [LinearLine(bs[n]).value] else [])
  }

  function LinearGroups(bs: seq<Block>): seq<seq<string>>
  {
    GroupsAt(LinearLines(bs), HeaderTag)
  }

  /** A chunk is named after the heading it starts with, or "Main Content". */
  function TitleOf(g: seq<string>): string
  {
    if g != [] && StartsWith(g[0], HeaderTag) then g[0][|HeaderTag|..] else "Main Content"
  }

  /** Chunks over `gs` numbered from `start`, each named by `TitleOf`. */
  function Named(gs: seq<seq<string>>, start: int): (r: seq<BigChunk>)
    ensures |r| == |gs|
    ensures forall i :: 0 <= i < |gs| ==> r[i] == BigChunk(start + i, Some(TitleOf(gs[i])), gs[i])
  {
    seq(|gs|, i requires 0 <= i < |gs| => BigChunk(start + i, Some(TitleOf(gs[i])), gs[i]))
  }

  lemma NamedSnoc(gs: seq<seq<string>>, g: seq<string>, start: int)
    ensures Named(gs + [g], start) == Named(gs, start) + [BigChunk(start + |gs|, Some(TitleOf(g)), g)]
  {
  }

  /** Naming the groups up to the last one, then the last one, names them all. */
  lemma NamedLast(gs: seq<seq<string>>, start: int)
    requires gs != []
    ensures Named(gs, start) ==
            Named(gs[..|gs| - 1], start) + [BigChunk(start + |gs| - 1, Some(TitleOf(gs[|gs| - 1])), gs[|gs| - 1])]
  {
    assert gs == gs[..|gs| - 1] + [gs[|gs| - 1]];
    NamedSnoc(gs[..|gs| - 1], gs[|gs| - 1], start);
  }

  /** Naming loses no line: the chunks hold exactly the groups' lines. */
  lemma {:induction false} AllSmallChunksOfNamed(gs: seq<seq<string>>, start: int)
    ensures AllSmallChunks(Named(gs, start)) == Flatten(gs)
    decreases |gs|
  {
    if gs != [] {
      var n := |gs| - 1;
      assert Named(gs, start)[..n] == Named(gs[..n], start);
      AllSmallChunksOfNamed(gs[..n], start);
    }
  }

  /**
   * The linear chunks keep every line in order, and every chunk after the
   * first opens with its heading and is named after it.
   */
  lemma LinearChunksShape(lines: seq<string>, start: int)
    ensures AllSmallChunks(Named(GroupsAt(lines, HeaderTag), start)) == lines
    ensures forall i :: 0 < i < |GroupsAt(lines, HeaderTag)| ==>
      GroupsAt(lines, HeaderTag)[i] != [] && StartsWith(GroupsAt(lines, HeaderTag)[i][0], HeaderTag) &&
      Named(GroupsAt(lines, HeaderTag), start)[i].name == Some(GroupsAt(lines, HeaderTag)[i][0][|HeaderTag|..])
  {
    AllSmallChunksOfNamed(GroupsAt(lines, HeaderTag), start);
    GroupsAtFlatten(lines, HeaderTag);
    GroupsAtShape(lines, HeaderTag);
  }

  /**
   * The state of the linear pass after the lines `lines`: the open chunk is
   * the last group and carries its title, every earlier group has been
   * appended as a chunk, numbered from `i0`, and the counter is at the open
   * chunk's number.
   */
  ghost predicate LinearInv(lines: seq<string>, current: seq<string>, title: string,
                            chunks: seq<BigChunk>, idx: int, c0: seq<BigChunk>, i0: int)
  {
    var G := GroupsAt(lines, HeaderTag);
    if G == [] then current == [] && title == "Main Content" && chunks == c0 && idx == i0
    else current == G[|G| - 1] && title == TitleOf(current) && chunks == c0 + Named(G[..|G| - 1], i0) && idx == i0 + |G| - 1
  }

  function Opt(o: Option<string>): seq<string>
  {
    if o.Some? then [o.value] else []
  }

  lemma LinearLinesSnoc(bs: seq<Block>, i: nat, text: string)
    requires i < |bs| && text == Clean(ElementText(bs[i]))
    ensures LinearLines(bs[..i + 1]) == LinearLines(bs[..i]) + Opt(LineOfText(bs[i], text))
  {
    assert bs[..i + 1][..i] == bs[..i];
  }

  lemma LastGroupNonEmpty(lines: seq<string>)
    ensures GroupsAt(lines, HeaderTag) != [] ==> GroupsAt(lines, HeaderTag)[|GroupsAt(lines, HeaderTag)| - 1] != []
  {
    GroupsAtShape(lines, HeaderTag);
  }

  /** A heading flushes the open chunk and opens its own. */
  lemma LinearHeaderFlush(lines: seq<string>, current: seq<string>, title: string,
                          chunks: seq<BigChunk>, idx: int, c0: seq<BigChunk>, i0: int, text: string)
    requires LinearInv(lines, current, title, chunks, idx, c0, i0) && current != []
    ensures LinearInv(lines + [HeaderTag + text], [HeaderTag + text], text,
                      chunks + [BigChunk(idx, Some(title), current)], idx + 1, c0, i0)
  {
    var h := HeaderTag + text;
    var G := GroupsAt(lines, HeaderTag);
    HeaderLine(text);
    GroupsAtSnoc(lines, HeaderTag, h);
    var G' := G + [[h]];
    assert G'[..|G'| - 1] == G;
    NamedLast(G, i0);
    AppendAssoc(c0, Named(G[..|G| - 1], i0), [BigChunk(idx, Some(title), current)]);
  }

  /** A heading with no open chunk just opens its own. */
  lemma LinearHeaderFirst(lines: seq<string>, current: seq<string>, title: string,
                          chunks: seq<BigChunk>, idx: int, c0: seq<BigChunk>, i0: int, text: string)
    requires LinearInv(lines, current, title, chunks, idx, c0, i0) && current == []
    ensures LinearInv(lines + [HeaderTag + text], [HeaderTag + text], text, chunks, idx, c0, i0)
  {
    var h := HeaderTag + text;
    HeaderLine(text);
    LastGroupNonEmpty(lines);
    GroupsAtSnoc(lines, HeaderTag, h);
    var G' := [[h]];
    assert G'[..0] == [];
    AppendNothing(c0);
  }

  /** A heading line names its chunk after the heading's text. */
  lemma HeaderLine(text: string)
    ensures StartsWith(HeaderTag + text, HeaderTag) && TitleOf([HeaderTag + text]) == text
  {
    assert (HeaderTag + text)[|HeaderTag|..] == text;
  }

  /** Any other line joins the open chunk, opening a "Main Content" chunk if there is none. */
  lemma LinearLineStep(lines: seq<string>, current: seq<string>, title: string,
                       chunks: seq<BigChunk>, idx: int, c0: seq<BigChunk>, i0: int, l: string)
    requires LinearInv(lines, current, title, chunks, idx, c0, i0)
    requires !StartsWith(l, HeaderTag)
    ensures LinearInv(lines + [l], current + [l], title, chunks, idx, c0, i0)
  {
    var G := GroupsAt(lines, HeaderTag);
    GroupsAtSnoc(lines, HeaderTag, l);
    LastGroupNonEmpty(lines);
    if G != [] {
      var k := |G| - 1;
      var G' := G[..k] + [G[k] + [l]];
      assert G'[..k] == G[..k];
      assert (G[k] + [l])[0] == G[k][0];
    }
  }

  /** The final flush appends the open chunk without advancing the counter. */
  lemma LinearFinal(lines: seq<string>, current: seq<string>, title: string,
                    chunks: seq<BigChunk>, idx: int, c0: seq<BigChunk>, i0: int)
    requires LinearInv(lines, current, title, chunks, idx, c0, i0)
    ensures (if current != [] then chunks + [BigChunk(idx, Some(title), current)] else chunks)
            == c0 + Named(GroupsAt(lines, HeaderTag), i0)
    ensures idx == i0 + (if GroupsAt(lines, HeaderTag) == [] then 0 else |GroupsAt(lines, HeaderTag)| - 1)
  {
    var G := GroupsAt(lines, HeaderTag);
    LastGroupNonEmpty(lines);
    if G != [] {
      NamedLast(G, i0);
    }
  }

  /** The linear stage, in terms of what the pass holds once every element is read. */
  lemma LinearStageOf(o: Outcome, lines: seq<string>, current: seq<string>, title: string, chunks: seq<BigChunk>, idx: int)
    requires lines == LinearLines(o.blocks)
    requires LinearInv(lines, current, title, chunks, idx, o.chunks, o.index)
    ensures LinearStage(o) == Outcome(
      if current != [] then chunks + [BigChunk(idx, Some(title), current)] else chunks, idx, o.found, o.blocks)
  {
    LinearFinal(lines, current, title, chunks, idx, o.chunks, o.index);
  }

  // ---------------------------------------------------------------------------
  // The whole extraction
  // ---------------------------------------------------------------------------

  function DenoisedAll(bs: seq<Block>): (r: seq<Block>)
    ensures |r| == |bs| && forall i :: 0 <= i < |bs| ==> r[i] == Denoised(bs[i])
  {
    seq(|bs|, i requires 0 <= i < |bs| => Denoised(bs[i]))
  }

  function NormalizedAll(bs: seq<Block>): (r: seq<Block>)
    ensures |r| == |bs| && forall i :: 0 <= i < |bs| ==> r[i] == Normalized(bs[i])
  {
    seq(|bs|, i requires 0 <= i < |bs| => Normalized(bs[i]))
  }

  const EmptyChunk: BigChunk := BigChunk(1, Some("Empty"), ["No content found"])

  /** The chunks written out: a single placeholder chunk when there are none. */
  function FinalChunks(cs: seq<BigChunk>): (r: seq<BigChunk>)
    ensures r != []
    ensures cs != [] ==> r == cs
  {
    if cs == [] then [EmptyChunk] else cs
  }

  /** An extractor's state after an extraction, and the document it leaves. */
  datatype Outcome = Outcome(chunks: seq<BigChunk>, index: int, found: map<string, string>, blocks: seq<Block>)

  /** Step 1: the noise leaves. */
  function DenoiseStage(o: Outcome): (r: Outcome)
    ensures r.chunks == o.chunks && r.index == o.index && r.found == o.found
  {
    o.(blocks := DenoisedAll(o.blocks))
  }

  /** Step 2: the hunt; the metadata chunk, if any, takes the counter. */
  function HuntStage(o: Outcome): (r: Outcome)
    ensures o.chunks <= r.chunks && |r.chunks| <= |o.chunks| + 1
  {
    var st := Hunted(o.found, o.blocks);
    var meta := MetadataItems(st);
    Outcome(o.chunks + (if meta == [] then [] else [BigChunk(o.index, Some("Metadata & Summary"), meta)]),
            o.index + (if meta == [] then 0 else 1), st.found, MetadataBlocks(st))
  }

  /** Step 3: the global context chunk, numbered 0, when there is context. */
  function BackpackStage(o: Outcome): (r: Outcome)
    ensures o.chunks <= r.chunks && r.index == o.index && r.blocks == o.blocks
  {
    var items := ContextItems(FullText(o.blocks));
    o.(chunks := o.chunks + (if items == [] then [] else [BigChunk(0, Some("GLOBAL CONTEXT"), Dedup(items))]))
  }

  lemma BackpackStageOf(o: Outcome, items: seq<string>)
    requires items == ContextItems(FullText(o.blocks))
    ensures items == [] ==> BackpackStage(o) == o
    ensures items != [] ==> BackpackStage(o) == o.(chunks := o.chunks + [BigChunk(0, Some("GLOBAL CONTEXT"), Dedup(items))])
  {
    assert o.chunks + [] == o.chunks;
  }

  /** Step 4: promotion and table flattening. */
  function NormalizeStage(o: Outcome): (r: Outcome)
    ensures r.chunks == o.chunks && r.index == o.index
  {
    o.(blocks := NormalizedAll(o.blocks))
  }

  /** Step 5, on the document: the FAQ header leaves. */
  function FaqStage(o: Outcome): (r: Outcome)
    ensures r.chunks == o.chunks && r.index == o.index
  {
    o.(blocks := AfterFaq(o.blocks))
  }

  /** Step 6: the linear chunks, numbered on from the counter, which stops at the last one. */
  function LinearStage(o: Outcome): (r: Outcome)
    ensures o.chunks <= r.chunks && r.index >= o.index
  {
    var G := LinearGroups(o.blocks);
    o.(chunks := o.chunks + Named(G, o.index), index := o.index + (if G == [] then 0 else |G| - 1))
  }

  /** Step 7: the FAQ chunk, if any, takes the counter. */
  function FaqChunkStage(o: Outcome, faq: Option<seq<string>>): (r: Outcome)
    ensures o.chunks <= r.chunks && (faq.None? ==> r == o)
  {
    if faq.Some? then o.(chunks := o.chunks + [BigChunk(o.index, Some("Frequently Asked Questions"), faq.value)], index := o.index + 1)
    else o
  }

  /** The placeholder stands in for no chunks at all. */
  function FinalStage(o: Outcome): Outcome
  {
    o.(chunks := FinalChunks(o.chunks))
  }

  /** The extraction from an extractor and document in state `o`, step by step. */
  function Extraction(o: Outcome): Outcome
  {
    var o4 := NormalizeStage(BackpackStage(HuntStage(DenoiseStage(o))));
    FinalStage(FaqChunkStage(LinearStage(FaqStage(o4)), Faq(o4.blocks)))
  }

  /** The steps, taken one after the other, make up the extraction. */
  lemma ExtractionSteps(o0: Outcome, o1: Outcome, o2: Outcome, o3: Outcome, o4: Outcome,
                        o5: Outcome, o6: Outcome, o7: Outcome, o8: Outcome, faq: Option<seq<string>>)
    requires o1 == DenoiseStage(o0) && o2 == HuntStage(o1) && o3 == BackpackStage(o2)
    requires o4 == NormalizeStage(o3) && o5 == FaqStage(o4) && faq == Faq(o4.blocks)
    requires o6 == LinearStage(o5) && o7 == FaqChunkStage(o6, faq) && o8 == FinalStage(o7)
    ensures o8 == Extraction(o0)
  {
  }

  /** An extraction only appends chunks: whatever the extractor held stays, in front. */
  lemma ExtractionExtends(o: Outcome)
    ensures o.chunks <= Extraction(o).chunks
    ensures Extraction(o).chunks != []
  {
    var o1 := DenoiseStage(o);
    var o2 := HuntStage(o1);
    var o3 := BackpackStage(o2);
    var o4 := NormalizeStage(o3);
    var o5 := FaqStage(o4);
    var o6 := LinearStage(o5);
    var o7 := FaqChunkStage(o6, Faq(o4.blocks));
    PrefixTrans(o.chunks, o2.chunks, o3.chunks);
    PrefixTrans(o.chunks, o3.chunks, o6.chunks);
    PrefixTrans(o.chunks, o6.chunks, o7.chunks);
    assert Extraction(o) == FinalStage(o7);
  }

  /**
   * Metadata found before an extraction is kept as it was; every type the
   * extraction adds is one of the five known types.
   */
  lemma ExtractionKeepsMetadata(o: Outcome)
    ensures forall k :: k in o.found ==> k in Extraction(o).found && Extraction(o).found[k] == o.found[k]
    ensures forall k :: k in Extraction(o).found && k !in o.found ==> k in TypeNames(MetadataKeys)
  {
    HuntKeepsMetadata(o.found, DenoisedAll(o.blocks));
    ExtractionFound(o);
  }

  /** Only the hunt changes the metadata found. */
  lemma ExtractionFound(o: Outcome)
    ensures Extraction(o).found == Hunted(o.found, DenoisedAll(o.blocks)).found
  {
    var o2 := HuntStage(DenoiseStage(o));
    var o3 := BackpackStage(o2);
    var o4 := NormalizeStage(o3);
    var o6 := LinearStage(FaqStage(o4));
    var o7 := FaqChunkStage(o6, Faq(o4.blocks));
    assert o2.found == Hunted(o.found, DenoisedAll(o.blocks)).found;
    assert o7.found == o6.found == o4.found == o3.found == o2.found;
    assert Extraction(o) == FinalStage(o7);
  }

  lemma HuntKeepsMetadata(found0: map<string, string>, bs: seq<Block>)
    ensures forall k :: k in found0 ==> k in Hunted(found0, bs).found && Hunted(found0, bs).found[k] == found0[k]
    ensures forall k :: k in Hunted(found0, bs).found && k !in found0 ==> k in TypeNames(MetadataKeys)
  {
    var st0 := HuntState(found0, [], [], bs);
    assert (set t | t in st0.order) == {};
    HuntRecordsOnce(found0, st0, HuntTargets(bs));
    var st := HuntLoop(st0, HuntTargets(bs));
    forall k | k in st.found && k !in found0
      ensures k in TypeNames(MetadataKeys)
    {
      var i :| 0 <= i < |st.order| && st.order[i] == k;
    }
  }

  /**
   * With at least one linear chunk, the FAQ chunk takes the number the last
   * linear chunk already carries: the final flush of the linear pass does
   * not advance the counter.
   */
  lemma FaqSharesLastNumber(o: Outcome, faq: Option<seq<string>>)
    requires LinearGroups(o.blocks) != [] && faq.Some?
    ensures var cs := FaqChunkStage(LinearStage(o), faq).chunks;
      |cs| >= 2 && cs[|cs| - 1].index == cs[|cs| - 2].index
      && cs[|cs| - 1].name == Some("Frequently Asked Questions")
  {
    var G := LinearGroups(o.blocks);
    var named := Named(G, o.index);
    var l := LinearStage(o);
    assert l.chunks == o.chunks + named && l.index == o.index + |G| - 1;
    var cs := FaqChunkStage(l, faq).chunks;
    assert cs == l.chunks + [BigChunk(l.index, Some("Frequently Asked Questions"), faq.value)];
    assert cs[|cs| - 2] == named[|G| - 1];
  }

  lemma NormalizeStageOf(o: Outcome, o': Outcome)
    requires o' == o.(blocks := NormalizedAll(o.blocks))
    ensures o' == NormalizeStage(o)
  {
  }

  lemma NormalizedAllOf(orig: seq<Block>, mid: seq<Block>, now: seq<Block>)
    requires |orig| == |mid| == |now|
    requires forall j :: 0 <= j < |orig| ==> mid[j] == PromotedBlock(orig[j])
    requires forall j :: 0 <= j < |orig| ==> now[j] == Flattened(mid[j])
    ensures now == NormalizedAll(orig)
  {
  }

  /** Pass one on one element. */
  method PromoteParagraph(b: Block) returns (r: Block)
    ensures r == PromotedBlock(b)
  {
    r := b;
    if b.Node? && b.name == P {
      var text := Clean(b.text);
      if text != "" && |text| <= 100 {
        var isBold := b.bold;
        if isBold && !EndsSentence(text) {
          r := b.(name := H2);
        }
      }
    }
  }

  /** Pass two on one table: its rows' lines, then the paragraph or removal. */
  method FlattenTable(rows: seq<seq<Cell>>) returns (r: Block)
    ensures r == Flattened(Grid(rows))
  {
    var rowsText: seq<string> := [];
    var k := 0;
    while k < |rows|
      invariant 0 <= k <= |rows|
      invariant rowsText == TableRows(rows[..k])
    {
      assert rows[..k + 1][..k] == rows[..k];
      var cells := RowCells(rows[k]);
      if cells != [] {
        rowsText := rowsText + [Join(cells, " | ")];
      }
      k := k + 1;
    }
    assert rows[..k] == rows;
    if rowsText != [] {
      r := Node(P, "TABLE_DATA: " + Join(rowsText, " // "), false);
    } else {
      r := Gone;
    }
  }

  /** The license lines, then the safety line when the text carries a risk warning. */
  method ContextScan(fullText: string) returns (contextItems: seq<string>)
    ensures contextItems == ContextItems(fullText)
  {
    contextItems := LicenseScan(fullText, LicenseKeywords);
    if HasRiskWarning(fullText) {
      contextItems := contextItems + [SafetyLine];
    }
  }

  /** The license lines for each keyword in turn. */
  method LicenseScan(fullText: string, keywords: seq<string>) returns (contextItems: seq<string>)
    ensures contextItems == LicenseContext(fullText, keywords)
  {
    contextItems := [];
    var k := 0;
    while k < |keywords|
      invariant 0 <= k <= |keywords|
      invariant contextItems == LicenseContext(fullText, keywords[..k])
    {
      LicenseContextSnoc(fullText, keywords, k);
      var matches := FirstTwo(LicenseMatches(fullText, keywords[k]));
      contextItems := AppendLicenseLines(contextItems, matches);
      k := k + 1;
    }
    assert keywords[..k] == keywords;
  }

  /** `for m in matches: items.append(f"LICENSE_CTX: {clean_text(m)}")` */
  method AppendLicenseLines(items: seq<string>, matches: seq<string>) returns (r: seq<string>)
    ensures r == items + LicenseLines(matches)
  {
    r := items;
    var j := 0;
    while j < |matches|
      invariant 0 <= j <= |matches|
      invariant r == items + LicenseLines(matches[..j])
    {
      LicenseLinesSnoc(matches, j);
      r := r + ["LICENSE_CTX: " + Clean(matches[j])];
      j := j + 1;
    }
    assert matches[..j] == matches;
  }

  /** The keyword search for one tag's cleaned text: types in order, each type's keywords in order, first match wins. */
  method MatchTag(text: string) returns (r: Option<(string, string)>)
    ensures r == MatchMetadata(text, MetadataKeys)
  {
    var i := 0;
    while i < |MetadataKeys|
      invariant 0 <= i <= |MetadataKeys|
      invariant MatchMetadata(text, MetadataKeys) == MatchMetadata(text, MetadataKeys[i..])
    {
      var (ty, keywords) := MetadataKeys[i];
      assert MetadataKeys[i..][1..] == MetadataKeys[i + 1..];
      var j := 0;
      while j < |keywords|
        invariant 0 <= j <= |keywords|
        invariant MatchKeywords(text, keywords) == MatchKeywords(text, keywords[j..])
      {
        assert keywords[j..][1..] == keywords[j + 1..];
        var v := KeywordMatch(text, keywords[j]);
        if v.Some? {
          return Some((ty, v.value));
        }
        j := j + 1;
      }
      i := i + 1;
    }
    return None;
  }

  /** The first h1, h2, h3 or paragraph whose upper-cased text names an FAQ and is shorter than 60 characters. */
  method FindFaqHeader(bs: seq<Block>) returns (h: Option<nat>)
    ensures h == FirstFaqHeader(bs)
  {
    h := FindFirst(bs, IsFaqHeader);
  }

  /** The loop of the header search: the first element the test accepts. */
  method FindFirst(bs: seq<Block>, isHeader: Block -> bool) returns (h: Option<nat>)
    ensures h == FirstWhere(bs, isHeader)
  {
    var i := 0;
    while i < |bs|
      invariant 0 <= i <= |bs|
      invariant forall j :: 0 <= j < i ==> !isHeader(bs[j])
    {
      if isHeader(bs[i]) {
        FirstWhereAt(bs, isHeader, i);
        return Some(i);
      }
      i := i + 1;
    }
    FirstWhereNone(bs, isHeader);
    return None;
  }

  /** The raw question and answer lines of the siblings after the header at `h`. */
  method ScanAfter(bs: seq<Block>, h: nat) returns (raw: seq<string>)
    requires h < |bs|
    ensures raw == RawFrom(bs, h + 1)
  {
    raw := [];
    var j: nat := h + 1;
    while j < |bs|
      invariant h + 1 <= j <= |bs|
      invariant raw + RawFrom(bs, j) == RawFrom(bs, h + 1)
    {
      var stop := StopsAt(bs[j]);
      if stop {
        ScanStops(bs, j, raw);
        return;
      }
      var lines := SiblingLines(bs[j]);
      ScanContinues(bs, j, raw, lines);
      raw := raw + lines;
      j := j + 1;
    }
    assert RawFrom(bs, j) == [];
    AppendNothing(raw);
  }

  lemma ScanStops(bs: seq<Block>, j: nat, raw: seq<string>)
    requires j < |bs| && StopsScan(bs[j])
    ensures raw + RawFrom(bs, j) == raw
  {
    RawFromStep(bs, j);
    AppendNothing(raw);
  }

  lemma ScanContinues(bs: seq<Block>, j: nat, raw: seq<string>, lines: seq<string>)
    requires j < |bs| && !StopsScan(bs[j]) && lines == ScanLines(bs[j])
    ensures raw + RawFrom(bs, j) == (raw + lines) + RawFrom(bs, j + 1)
  {
    RawFromStep(bs, j);
    AppendAssoc(raw, lines, RawFrom(bs, j + 1));
  }

  lemma RawFromStep(bs: seq<Block>, j: nat)
    requires j < |bs|
    ensures StopsScan(bs[j]) ==> RawFrom(bs, j) == []
    ensures !StopsScan(bs[j]) ==> RawFrom(bs, j) == ScanLines(bs[j]) + RawFrom(bs, j + 1)
  {
  }

  /** A non-empty h1 or h2 ends the scan. */
  method StopsAt(b: Block) returns (stop: bool)
    ensures stop == StopsScan(b)
  {
    stop := b.Node? && b.name in {H1, H2} && Clean(b.text) != "";
  }

  /** The raw lines one sibling contributes. */
  method SiblingLines(b: Block) returns (lines: seq<string>)
    ensures lines == ScanLines(b)
  {
    lines := [];
    match b {
      case ItemList(_, items) =>
        lines := AppendQuestions([], items);
      case Node(name, t, _) =>
        if name == P {
          var txt := Clean(t);
          if '?' in txt && |txt| < 150 {
            lines := ["Q: " + txt];
          } else {
            lines := ["A: " + txt];
          }
        }
      case _ =>
    }
  }

  /** `for li in current.find_all('li'): raw_pairs.append(f"Q: {clean_text(li.get_text())}")` */
  method AppendQuestions(raw: seq<string>, items: seq<Entry>) returns (r: seq<string>)
    ensures r == raw + ItemQuestions(items)
  {
    r := raw;
    var k := 0;
    while k < |items|
      invariant 0 <= k <= |items|
      invariant r == raw + ItemQuestions(items[..k])
    {
      ItemQuestionsSnoc(items, k);
      if items[k].alive {
        var q := "Q: " + Clean(items[k].text);
        AppendAssoc(raw, ItemQuestions(items[..k]), [q]);
        r := r + [q];
      } else {
        AppendNothing(ItemQuestions(items[..k]));
      }
      k := k + 1;
    }
    assert items[..k] == items;
  }

  lemma ItemQuestionsSnoc(items: seq<Entry>, k: nat)
    requires k < |items|
    ensures ItemQuestions(items[..k + 1]) ==
      ItemQuestions(items[..k]) + (if items[k].alive then ["Q: " + Clean(items[k].text)] else [])
  {
    assert items[..k + 1][..k] == items[..k];
  }

  /** Pairs each answer line with the pending question, if any. */
  method PairLines(raw: seq<string>) returns (items: seq<string>)
    ensures items == PairUp(raw).pairs
  {
    var currQ := "";
    items := [];
    var k := 0;
    while k < |raw|
      invariant 0 <= k <= |raw|
      invariant Pairing(currQ, items) == PairUp(raw[..k])
    {
      assert raw[..k + 1][..k] == raw[..k];
      var line := raw[k];
      if StartsWith(line, "Q:") {
        currQ := Drop3(line);
      } else if StartsWith(line, "A:") && currQ != "" {
        items := items + ["FAQ_Q: " + currQ + " // FAQ_A: " + Drop3(line)];
        currQ := "";
      }
      k := k + 1;
    }
    assert raw[..k] == raw;
  }

  class Extractor {
    var bigChunks: seq<BigChunk>
    var chunkIndex: int
    var foundMetadata: map<string, string>

    /** The extractor's state together with the document's. */
    function State(doc: Document): Outcome
      reads this, doc
    {
      Outcome(bigChunks, chunkIndex, foundMetadata, doc.blocks)
    }

    constructor ()
      ensures bigChunks == [] && chunkIndex == 1 && foundMetadata == map[]
    {
      bigChunks := [];
      chunkIndex := 1;
      foundMetadata := map[];
    }

    /** Scripts, styles, meta, title and head elements leave, then every paragraph with no visible text. */
    method RemoveNoise(doc: Document)
      modifies doc
      ensures State(doc) == DenoiseStage(old(State(doc)))
      ensures forall i :: 0 <= i < |doc.blocks| ==> !IsNoise(doc.blocks[i]) && !IsBlankParagraph(doc.blocks[i])
    {
      var i := 0;
      while i < |doc.blocks|
        invariant 0 <= i <= |doc.blocks| == |old(doc.blocks)|
        invariant forall j :: 0 <= j < |doc.blocks| ==>
          doc.blocks[j] == if j < i && IsNoise(old(doc.blocks)[j]) then Gone else old(doc.blocks)[j]
      {
        if IsNoise(doc.blocks[i]) {
          doc.blocks := doc.blocks[i := Gone];
        }
        i := i + 1;
      }
      i := 0;
      while i < |doc.blocks|
        invariant 0 <= i <= |doc.blocks| == |old(doc.blocks)|
        invariant forall j :: 0 <= j < |doc.blocks| ==>
          doc.blocks[j] == if IsNoise(old(doc.blocks)[j]) || (j < i && IsBlankParagraph(old(doc.blocks)[j])) then Gone
                           else old(doc.blocks)[j]
      {
        if IsBlankParagraph(doc.blocks[i]) {
          doc.blocks := doc.blocks[i := Gone];
        }
        i := i + 1;
      }
    }

    /** One tag of the hunt, whose cleaned text is `text`. */
    method HuntTag(doc: Document, target: Target, text: string, items: seq<string>, ghost order: seq<string>)
      returns (items': seq<string>, ghost order': seq<string>)
      modifies this, doc
      ensures HuntState(foundMetadata, order', items', doc.blocks) ==
              HuntText(HuntState(old(foundMetadata), order, items, old(doc.blocks)), target, text)
      ensures bigChunks == old(bigChunks) && chunkIndex == old(chunkIndex)
    {
      items', order' := items, order;
      if text != "" {
        var m := MatchTag(text);
        if m.Some? && m.value.0 !in foundMetadata {
          var name := Label(m.value.0);
          foundMetadata := foundMetadata[m.value.0 := m.value.1];
          items' := items + [name + ": " + m.value.1];
          doc.blocks := Decompose(doc.blocks, target);
          order' := order + [m.value.0];
        }
      }
    }

    /**
     * The metadata hunt: every paragraph, heading, list item and cell, in
     * order, is matched against the keywords; the first value of each type
     * not yet found is recorded and its element removed. Without an h1
     * entry the first h1 stands in. The lines become the "Metadata &
     * Summary" chunk when there are any.
     */
    method HuntForMetadata(doc: Document)
      modifies this, doc
      ensures State(doc) == HuntStage(old(State(doc)))
    {
      var targets := HuntTargets(doc.blocks);
      ghost var st0 := HuntState(foundMetadata, [], [], doc.blocks);
      ghost var hunted := Hunted(foundMetadata, doc.blocks);
      ghost var order: seq<string> := [];
      var items: seq<string> := [];
      var t := 0;
      while t < |targets|
        invariant 0 <= t <= |targets|
        invariant HuntLoop(st0, targets[..t]) == HuntState(foundMetadata, order, items, doc.blocks)
        invariant bigChunks == old(bigChunks) && chunkIndex == old(chunkIndex)
      {
        HuntLoopSnoc(st0, targets, t);
        var text := Clean(TargetText(doc.blocks, targets[t]));
        items, order := HuntTag(doc, targets[t], text, items, order);
        t := t + 1;
      }
      assert targets[..t] == targets;
      assert HuntState(foundMetadata, order, items, doc.blocks) == hunted;
      FinishHunt(doc, items, hunted);
    }

    /** The h1 fallback and the metadata chunk, after the hunt reached `st`. */
    method FinishHunt(doc: Document, items: seq<string>, ghost st: HuntState)
      requires st == HuntState(foundMetadata, st.order, items, doc.blocks)
      modifies this, doc
      ensures foundMetadata == old(foundMetadata)
      ensures doc.blocks == MetadataBlocks(st)
      ensures bigChunks == old(bigChunks) +
        (if MetadataItems(st) == [] then [] else [BigChunk(old(chunkIndex), Some("Metadata & Summary"), MetadataItems(st))])
      ensures chunkIndex == old(chunkIndex) + (if MetadataItems(st) == [] then 0 else 1)
    {
      var lines := items;
      if "h1" !in foundMetadata {
        var h := FirstH1(doc.blocks);
        if h.Some? {
          var val := Clean(doc.blocks[h.value].text);
          lines := ["H1: " + val] + lines;
          doc.blocks := doc.blocks[h.value := Gone];
        }
      }
      if lines != [] {
        bigChunks := bigChunks + [BigChunk(chunkIndex, Some("Metadata & Summary"), lines)];
        chunkIndex := chunkIndex + 1;
      }
    }

    /**
     * The "GLOBAL CONTEXT" chunk, numbered 0: up to two license sentences
     * per keyword and the safety line, without duplicates.
     */
    method ExtractGlobalBackpack(doc: Document)
      modifies this
      ensures State(doc) == BackpackStage(old(State(doc)))
    {
      var fullText := FullText(doc.blocks);
      var contextItems := ContextScan(fullText);
      BackpackStageOf(State(doc), contextItems);
      if contextItems != [] {
        bigChunks := bigChunks + [BigChunk(0, Some("GLOBAL CONTEXT"), Dedup(contextItems))];
      }
    }

    /** Bold short paragraphs become h2 headings; then every table is flattened into a paragraph or removed. */
    method NormalizeStructure(doc: Document)
      modifies doc
      ensures doc.blocks == NormalizedAll(old(doc.blocks))
    {
      ghost var orig := doc.blocks;
      PromoteAll(doc);
      ghost var mid := doc.blocks;
      FlattenAll(doc);
      NormalizedAllOf(orig, mid, doc.blocks);
    }

    /** The first pass: every bold short paragraph becomes an h2. */
    method PromoteAll(doc: Document)
      modifies doc
      ensures |doc.blocks| == |old(doc.blocks)|
      ensures forall j :: 0 <= j < |doc.blocks| ==> doc.blocks[j] == PromotedBlock(old(doc.blocks)[j])
    {
      ghost var orig := doc.blocks;
      var i := 0;
      while i < |doc.blocks|
        invariant 0 <= i <= |doc.blocks| == |orig|
        invariant forall j :: 0 <= j < i ==> doc.blocks[j] == PromotedBlock(orig[j])
        invariant forall j :: i <= j < |orig| ==> doc.blocks[j] == orig[j]
      {
        var b := PromoteParagraph(doc.blocks[i]);
        doc.blocks := doc.blocks[i := b];
        i := i + 1;
      }
    }

    /** The second pass: every table becomes a paragraph of its rows, or leaves when it has none. */
    method FlattenAll(doc: Document)
      modifies doc
      ensures |doc.blocks| == |old(doc.blocks)|
      ensures forall j :: 0 <= j < |doc.blocks| ==> doc.blocks[j] == Flattened(old(doc.blocks)[j])
    {
      ghost var orig := doc.blocks;
      var i := 0;
      while i < |doc.blocks|
        invariant 0 <= i <= |doc.blocks| == |orig|
        invariant doc.blocks == FlattenedUpTo(orig, i)
      {
        var b := doc.blocks[i];
        if b.Grid? {
          var r := FlattenTable(b.rows);
          assert Grid(b.rows) == b;
          FlattenedUpToStep(orig, i, r);
          doc.blocks := doc.blocks[i := r];
        } else {
          FlattenedKeeps(b);
          FlattenedUpToStep(orig, i, b);
          assert doc.blocks[i := b] == doc.blocks;
        }
        i := i + 1;
      }
    }

    /**
     * The whole extraction of one parsed document; returns the chunks that
     * are written out.
     */
    method ExtractContent(doc: Document) returns (chunks: seq<BigChunk>)
      modifies this, doc
      ensures State(doc) == Extraction(old(State(doc)))
      ensures chunks == bigChunks
    {
      ghost var o0 := State(doc);
      RemoveNoise(doc);
      ghost var o1 := State(doc);
      HuntForMetadata(doc);
      ghost var o2 := State(doc);
      ExtractGlobalBackpack(doc);
      ghost var o3 := State(doc);
      NormalizeStructure(doc);
      ghost var o4 := State(doc);
      NormalizeStageOf(o3, o4);
      var faqChunk := ExtractFlexibleFaq(doc);
      ghost var o5 := State(doc);
      ChunkLinearContent(doc);
      ghost var o6 := State(doc);
      AddFaqChunk(doc, faqChunk);
      ghost var o7 := State(doc);
      chunks := CreateFinalJson();
      ExtractionSteps(o0, o1, o2, o3, o4, o5, o6, o7, State(doc), faqChunk);
    }

    /** The FAQ pairs, if any, become the last chunk and take the counter. */
    method AddFaqChunk(doc: Document, faq: Option<seq<string>>)
      modifies this
      ensures State(doc) == FaqChunkStage(old(State(doc)), faq)
    {
      if faq.Some? {
        bigChunks := bigChunks + [BigChunk(chunkIndex, Some("Frequently Asked Questions"), faq.value)];
        chunkIndex := chunkIndex + 1;
      }
    }

    /** The chunks written out; the placeholder chunk replaces an empty list. */
    method CreateFinalJson() returns (chunks: seq<BigChunk>)
      modifies this
      ensures bigChunks == FinalChunks(old(bigChunks)) && chunks == bigChunks
      ensures chunkIndex == old(chunkIndex) && foundMetadata == old(foundMetadata)
    {
      if bigChunks == [] {
        bigChunks := [EmptyChunk];
      }
      chunks := bigChunks;
    }

    /**
     * The linear pass: cuts the lines of the remaining p, h2, h3, ul and ol
     * elements into chunks at headings, numbered on from the counter and
     * named after their heading or "Main Content". The counter is left at
     * the last chunk's number: the final flush does not advance it.
     */
    method ChunkLinearContent(doc: Document)
      modifies this
      ensures State(doc) == LinearStage(old(State(doc)))
    {
      ghost var o := State(doc);
      var currentChunk, currentTitle := ChunkLinearLines(doc);
      LinearStageOf(o, LinearLines(doc.blocks), currentChunk, currentTitle, bigChunks, chunkIndex);
      if currentChunk != [] {
        bigChunks := bigChunks + [BigChunk(chunkIndex, Some(currentTitle), currentChunk)];
      }
    }

    /** The loop of the linear pass: every element's line, up to the final flush. */
    method ChunkLinearLines(doc: Document) returns (currentChunk: seq<string>, currentTitle: string)
      modifies this
      ensures LinearInv(LinearLines(doc.blocks), currentChunk, currentTitle, bigChunks, chunkIndex, old(bigChunks), old(chunkIndex))
      ensures foundMetadata == old(foundMetadata)
    {
      currentChunk := [];
      currentTitle := "Main Content";
      ghost var lines: seq<string> := [];
      var i := 0;
      while i < |doc.blocks|
        invariant 0 <= i <= |doc.blocks|
        invariant lines == LinearLines(doc.blocks[..i])
        invariant LinearInv(lines, currentChunk, currentTitle, bigChunks, chunkIndex, old(bigChunks), old(chunkIndex))
        invariant foundMetadata == old(foundMetadata)
      {
        var elem := doc.blocks[i];
        var text := Clean(ElementText(elem));
        LinearLinesSnoc(doc.blocks, i, text);
        currentChunk, currentTitle := LinearElement(elem, text, currentChunk, currentTitle, lines, old(bigChunks), old(chunkIndex));
        lines := lines + Opt(LineOfText(elem, text));
        i := i + 1;
      }
      assert doc.blocks[..i] == doc.blocks;
    }

    /** A heading flushes the open chunk, if it has lines, and opens a chunk named after itself. */
    method OpenHeading(text: string, current: seq<string>, title: string,
                       ghost lines: seq<string>, ghost c0: seq<BigChunk>, ghost i0: int)
      returns (current': seq<string>, title': string)
      modifies this
      requires LinearInv(lines, current, title, bigChunks, chunkIndex, c0, i0)
      ensures LinearInv(lines + [HeaderTag + text], current', title', bigChunks, chunkIndex, c0, i0)
      ensures foundMetadata == old(foundMetadata)
    {
      if current != [] {
        LinearHeaderFlush(lines, current, title, bigChunks, chunkIndex, c0, i0, text);
        bigChunks := bigChunks + [BigChunk(chunkIndex, Some(title), current)];
        chunkIndex := chunkIndex + 1;
      } else {
        LinearHeaderFirst(lines, current, title, bigChunks, chunkIndex, c0, i0, text);
      }
      current' := [HeaderTag + text];
      title' := text;
    }

    /** One element of the linear pass, given its cleaned text. */
    method LinearElement(elem: Block, text: string, current: seq<string>, title: string,
                         ghost lines: seq<string>, ghost c0: seq<BigChunk>, ghost i0: int)
      returns (current': seq<string>, title': string)
      modifies this
      requires LinearInv(lines, current, title, bigChunks, chunkIndex, c0, i0)
      ensures LinearInv(lines + Opt(LineOfText(elem, text)), current', title', bigChunks, chunkIndex, c0, i0)
      ensures foundMetadata == old(foundMetadata)
    {
      current', title' := current, title;
      if text == "" {
        assert lines + Opt(LineOfText(elem, text)) == lines;
        return;
      }
      match elem {
        case Node(name, _, _) =>
          if name in {H2, H3} {
            assert LineOfText(elem, text) == Some(HeaderTag + text);
            current', title' := OpenHeading(text, current, title, lines, c0, i0);
          } else if name == P {
            var prefix := "CONTENT";
            if IsWarningText(text) {
              prefix := "WARNING";
            }
            var l := prefix + ": " + text;
            assert LineOfText(elem, text) == Some(l);
            assert l[0] != HeaderTag[0];
            LinearLineStep(lines, current, title, bigChunks, chunkIndex, c0, i0, l);
            current' := current' + [l];
          } else {
            assert lines + Opt(LineOfText(elem, text)) == lines;
          }
        case ItemList(_, items) =>
          var its := CleanItems(items);
          if its != [] {
            var l := "LIST: " + Join(its, " // ");
            assert LineOfText(elem, text) == Some(l);
            assert l[2] != HeaderTag[2];
            LinearLineStep(lines, current, title, bigChunks, chunkIndex, c0, i0, l);
            current' := current' + [l];
          } else {
            assert lines + Opt(LineOfText(elem, text)) == lines;
          }
        case _ =>
          assert lines + Opt(LineOfText(elem, text)) == lines;
      }
    }

    /**
     * The FAQ step: finds the header, pairs the questions and answers after
     * it and removes the header; the pairs are returned only when there are some.
     */
    method ExtractFlexibleFaq(doc: Document) returns (faq: Option<seq<string>>)
      modifies doc
      ensures faq == Faq(old(doc.blocks))
      ensures State(doc) == FaqStage(old(State(doc)))
    {
      var h := FindFaqHeader(doc.blocks);
      if h.None? {
        return None;
      }
      var raw := ScanAfter(doc.blocks, h.value);
      var items := PairLines(raw);
      doc.blocks := doc.blocks[h.value := Gone];
      if items != [] {
        return Some(items);
      }
      return None;
    }
  }
}
