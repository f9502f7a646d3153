/**
 * The audit orchestrator's own bookkeeping (core/orchestrator.py): the page
 * title it reads from the extracted content for the auditors' payload, how
 * it gathers the replies of the parallel audits, the deduplication fallback
 * and the Markdown report. The assistant service, the concurrency around it
 * and the clock are outside the model: the replies and the date are inputs.
 */
module Orchestrator {
  import opened Wrappers
  import opened Strings
  import Json
  import opened Models
  import Parser
  import Chunks

  const UnknownTitle: string := "Unknown Title"
  const AllFailed: string := "All audits failed."

  /** What one call to the assistant service returns: `(success, text, error)`. */
  datatype Reply = Reply(success: bool, text: Option<string>, error: Option<string>)

  /** `success and text`: the reply is a successful audit. */
  predicate Answered(r: Reply) {
    r.success && r.text.Some? && r.text.value != ""
  }

  // ---------------------------------------------------------------------------
  // The title of the analysed page

  /** How scanning a chunk ends: an exception, no "H1:" line, or the title of the first one. */
  datatype Scan = Raised | NotFound | Found(title: string)

  /** `item.replace("H1:", "").strip()` */
  function H1Title(item: string): string {
    Strip(ReplaceAll(item, "H1:", ""))
  }

  /**
   * The inner loop over a chunk's small chunks from position `j`: the first
   * "H1:" line gives the title; a non-string item met before it has no
   * `startswith` and raises.
   */
  function ItemsScan(items: seq<Json.Value>, j: nat): Scan
    decreases |items| - j
  {
    if j >= |items| then NotFound
    else if !items[j].Str? then Raised
    else if StartsWith(items[j].s, "H1:") then Found(H1Title(items[j].s))
    else ItemsScan(items, j + 1)
  }

  /** A string item starting with "H1:". */
  predicate H1Line(v: Json.Value) {
    v.Str? && StartsWith(v.s, "H1:")
  }

  /** A string item the scan passes over. */
  predicate PlainLine(v: Json.Value) {
    v.Str? && !StartsWith(v.s, "H1:")
  }

  /**
   * A chunk's title comes from its first "H1:" line, and only strings
   * precede that line.
   */
  lemma {:induction false} ItemsScanFound(items: seq<Json.Value>, j: nat)
    ensures var r := ItemsScan(items, j);
      r.Found? ==> exists k :: (j <= k < |items| && H1Line(items[k]) && r.title == H1Title(items[k].s)
        && forall m :: j <= m < k ==> PlainLine(items[m]))
    decreases |items| - j
  {
    if j < |items| && items[j].Str? {
      var r := ItemsScan(items, j);
      if StartsWith(items[j].s, "H1:") {
        assert r == Found(H1Title(items[j].s));
        assert H1Line(items[j]) && r.title == H1Title(items[j].s);
      } else {
        assert PlainLine(items[j]);
        assert r == ItemsScan(items, j + 1);
        ItemsScanFound(items, j + 1);
        if r.Found? {
          var k :| j + 1 <= k < |items| && H1Line(items[k]) && r.title == H1Title(items[k].s)
            && forall m :: j + 1 <= m < k ==> PlainLine(items[m]);
          assert forall m :: j <= m < k ==> PlainLine(items[m]);
        }
      }
    }
  }

  /** The scan finds nothing exactly when every item is a string and none starts with "H1:". */
  lemma {:induction false} ItemsScanNotFound(items: seq<Json.Value>, j: nat)
    ensures ItemsScan(items, j).NotFound? <==> forall k :: j <= k < |items| ==> PlainLine(items[k])
    decreases |items| - j
  {
    if j < |items| {
      if PlainLine(items[j]) {
        assert ItemsScan(items, j) == ItemsScan(items, j + 1);
        ItemsScanNotFound(items, j + 1);
      } else {
        assert !ItemsScan(items, j).NotFound?;
      }
    }
  }

  /** One chunk: `chunk.get("small_chunks", [])` needs a dictionary, and its value must be iterable. */
  function ChunkScan(chunk: Json.Value): Scan {
    if !chunk.Obj? then Raised
    else
      match Json.PyIter(Json.GetOr(chunk.fields, "small_chunks", Json.Arr([])))
      case None => Raised
      case Some(items) => ItemsScan(items, 0)
  }

  /**
   * The outer loop from chunk `i`, while the title is still "Unknown Title".
   * An exception ends the scan with the title found so far, which is then
   * still "Unknown Title"; a title that happens to read "Unknown Title" does
   * not stop the scan.
   */
  function ChunksTitle(chunks: seq<Json.Value>, i: nat): string
    decreases |chunks| - i
  {
    if i >= |chunks| then UnknownTitle
    else
      match ChunkScan(chunks[i])
      case Raised => UnknownTitle
      case NotFound => ChunksTitle(chunks, i + 1)
      case Found(t) => if t != UnknownTitle then t else ChunksTitle(chunks, i + 1)
  }

  /** A title other than "Unknown Title" is the one some chunk from `i` on gives. */
  lemma {:induction false} ChunksTitleFound(chunks: seq<Json.Value>, i: nat)
    ensures ChunksTitle(chunks, i) != UnknownTitle ==>
      exists k :: i <= k < |chunks| && ChunkScan(chunks[k]) == Found(ChunksTitle(chunks, i))
    decreases |chunks| - i
  {
    if i < |chunks| && ChunkScan(chunks[i]) != Raised {
      ChunksTitleFound(chunks, i + 1);
    }
  }

  /** `v[:3]`, iterated: `None` where slicing raises (a dictionary, a number, None). */
  function FirstThree(v: Json.Value): Option<seq<Json.Value>> {
    match v
    case Arr(xs) => Some(xs[..if |xs| <= 3 then |xs| else 3])
    case Str(s) =>
      var t := s[..if |s| <= 3 then |s| else 3];
      Some(seq(|t|, i requires 0 <= i < |t| => Json.Str([t[i]])))
    case _ => None
  }

  /** The title `_build_analyzer_payload` puts in the global context. */
  function PayloadTitle(contentJson: string, loads: string -> Option<Json.Value>): string {
    match loads(contentJson)
    case None => UnknownTitle
    case Some(data) =>
      if !data.Obj? then UnknownTitle
      else
        match FirstThree(Json.GetOr(data.fields, "big_chunks", Json.Arr([])))
        case None => UnknownTitle
        case Some(chunks) => ChunksTitle(chunks, 0)
  }

  /**
   * Where the title comes from: it is "Unknown Title" when the content does
   * not parse, and otherwise it is the first "H1:" line, with "H1:" removed
   * and stripped, of one of the first three big chunks.
   */
  lemma PayloadTitleSource(contentJson: string, loads: string -> Option<Json.Value>)
    ensures loads(contentJson).None? ==> PayloadTitle(contentJson, loads) == UnknownTitle
    ensures PayloadTitle(contentJson, loads) != UnknownTitle ==>
      var data := loads(contentJson).value;
      var big := Json.GetOr(data.fields, "big_chunks", Json.Arr([]));
      loads(contentJson).Some? && data.Obj? && big.Arr?
      && exists k :: 0 <= k < 3 && k < |big.items| && ChunkScan(big.items[k]) == Found(PayloadTitle(contentJson, loads))
  {
    var r := PayloadTitle(contentJson, loads);
    if r != UnknownTitle {
      var data := loads(contentJson).value;
      var big := Json.GetOr(data.fields, "big_chunks", Json.Arr([]));
      var chunks := FirstThree(big).value;
      ChunksTitleFound(chunks, 0);
      var k :| 0 <= k < |chunks| && ChunkScan(chunks[k]) == Found(r);
      assert chunks[k] == big.items[k];
    }
  }

  /** Big chunks after the third never matter. */
  lemma {:induction false} PayloadTitleIgnoresLaterChunks(
    c1: string, c2: string, loads: string -> Option<Json.Value>, f1: seq<(string, Json.Value)>, f2: seq<(string, Json.Value)>,
    xs: seq<Json.Value>, ys: seq<Json.Value>)
    requires loads(c1) == Some(Json.Obj(f1)) && loads(c2) == Some(Json.Obj(f2))
    requires Json.Get(f1, "big_chunks") == Some(Json.Arr(xs)) && Json.Get(f2, "big_chunks") == Some(Json.Arr(ys))
    requires |xs| >= 3 && |ys| >= 3 && xs[..3] == ys[..3]
    ensures PayloadTitle(c1, loads) == PayloadTitle(c2, loads)
  {
    assert Json.GetOr(f1, "big_chunks", Json.Arr([])) == Json.Arr(xs);
    assert Json.GetOr(f2, "big_chunks", Json.Arr([])) == Json.Arr(ys);
    assert FirstThree(Json.Arr(xs)) == Some(xs[..3]);
    assert FirstThree(Json.Arr(ys)) == Some(ys[..3]);
  }

  /**
   * A first big chunk with an "H1:" line names the page, unless that line
   * reads "Unknown Title" (the scan then goes on).
   */
  lemma PayloadTitleFirstChunk(
    c: string, loads: string -> Option<Json.Value>, fields: seq<(string, Json.Value)>, chunks: seq<Json.Value>)
    requires loads(c) == Some(Json.Obj(fields)) && Json.Get(fields, "big_chunks") == Some(Json.Arr(chunks))
    requires chunks != [] && ChunkScan(chunks[0]).Found? && ChunkScan(chunks[0]).title != UnknownTitle
    ensures PayloadTitle(c, loads) == ChunkScan(chunks[0]).title
  {
    assert Json.GetOr(fields, "big_chunks", Json.Arr([])) == Json.Arr(chunks);
    var cs := FirstThree(Json.Arr(chunks)).value;
    assert cs[0] == chunks[0];
    assert ChunksTitle(cs, 0) == ChunkScan(chunks[0]).title;
  }

  /** The fixed global context around the title. */
  function GlobalContext(title: string): (ctx: Json.Value)
    ensures ctx.Obj? && Json.Get(ctx.fields, "primary_topic") == Some(Json.Str(title))
  {
    Json.Obj([
      ("primary_topic", Json.Str(title)),
      ("content_type", Json.Str("Commercial Review")),
      ("ymyl_category", Json.Str("Financial/Gambling")),
      ("global_assumptions", Json.Obj([
        ("site_identity", Json.Str("Compliant")),
        ("affiliate_disclosure", Json.Str("Compliant")),
        ("site_reputation", Json.Str("Neutral/Good"))]))])
  }

  /** The inner loop of `_build_analyzer_payload` over one chunk. */
  method ScanChunk(chunk: Json.Value) returns (s: Scan)
    ensures s == ChunkScan(chunk)
  {
    if !chunk.Obj? {
      return Raised;
    }
    var it := Json.PyIter(Json.GetOr(chunk.fields, "small_chunks", Json.Arr([])));
    if it.None? {
      return Raised;
    }
    var items := it.value;
    var j := 0;
    while j < |items|
      invariant 0 <= j <= |items|
      invariant ItemsScan(items, j) == ItemsScan(items, 0)
    {
      if !items[j].Str? {
        return Raised;
      }
      if StartsWith(items[j].s, "H1:") {
        return Found(H1Title(items[j].s));
      }
      j := j + 1;
    }
    return NotFound;
  }

  /**
   * `_build_analyzer_payload`: the auditors' payload carries the content
   * unchanged under "chunk_text", next to the global context whose topic is
   * the page title.
   */
  method BuildAnalyzerPayload(contentJson: string, loads: string -> Option<Json.Value>)
    returns (payload: Json.Value, context: Json.Value)
    ensures context == GlobalContext(PayloadTitle(contentJson, loads))
    ensures payload.Obj? && Json.Keys(payload.fields) == ["global_context", "chunk_text"]
    ensures Json.Get(payload.fields, "chunk_text") == Some(Json.Str(contentJson))
    ensures Json.Get(payload.fields, "global_context") == Some(context)
  {
    var h1 := UnknownTitle;
    var data := loads(contentJson);
    if data.Some? && data.value.Obj? {
      var first := FirstThree(Json.GetOr(data.value.fields, "big_chunks", Json.Arr([])));
      if first.Some? {
        var chunks := first.value;
        var i := 0;
        while i < |chunks|
          invariant 0 <= i <= |chunks|
          invariant h1 == UnknownTitle
          invariant ChunksTitle(chunks, i) == ChunksTitle(chunks, 0)
        {
          var s := ScanChunk(chunks[i]);
          if s.Raised? {
            break;
          }
          if s.Found? {
            h1 := s.title;
            if h1 != UnknownTitle {
              break;
            }
          }
          i := i + 1;
        }
      }
    }
    context := GlobalContext(h1);
    payload := Json.Obj([("global_context", context), ("chunk_text", Json.Str(contentJson))]);
  }

  // ---------------------------------------------------------------------------
  // Gathering the audits

  /** The violations of `vs`, each marked as found by audit number `id`. */
  function Tagged(vs: seq<Violation>, id: int): seq<Violation> {
    seq(|vs|, i requires 0 <= i < |vs| => vs[i].(sourceAuditId := Some(id)))
  }

  /** `for v in violations: v.source_audit_id = i + 1` */
  method TagAll(vs: seq<Violation>, id: int) returns (ws: seq<Violation>)
    ensures |ws| == |vs|
    ensures forall i :: 0 <= i < |vs| ==> ws[i] == vs[i].(sourceAuditId := Some(id))
  {
    ws := [];
    var k := 0;
    while k < |vs|
      invariant 0 <= k <= |vs|
      invariant |ws| == k
      invariant forall i :: 0 <= i < k ==> ws[i] == vs[i].(sourceAuditId := Some(id))
    {
      ws := ws + [vs[k].(sourceAuditId := Some(id))];
      k := k + 1;
    }
  }

  /** `all_violations` after the replies `rs`: each answered reply's parse, tagged with its 1-based position. */
  function Collected(rs: seq<Reply>, loads: string -> Option<Json.Value>): seq<Violation> {
    if rs == [] then []
    else
      var n := |rs| - 1;
      Collected(rs[..n], loads)
      + (if Answered(rs[n]) then Tagged(Parser.ParsedViolations(rs[n].text.value, loads), n + 1) else [])
  }

  /** `successful_audits` after the replies `rs`. */
  function Successes(rs: seq<Reply>): nat {
    if rs == [] then 0
    else Successes(rs[..|rs| - 1]) + (if Answered(rs[|rs| - 1]) then 1 else 0)
  }

  /** The aggregation loop of `run_analysis`. */
  method Aggregate(replies: seq<Reply>, loads: string -> Option<Json.Value>)
    returns (all: seq<Violation>, successes: nat)
    ensures all == Collected(replies, loads) && successes == Successes(replies)
  {
    all, successes := [], 0;
    var i := 0;
    while i < |replies|
      invariant 0 <= i <= |replies|
      invariant all == Collected(replies[..i], loads) && successes == Successes(replies[..i])
    {
      var r := replies[i];
      assert replies[..i + 1][..i] == replies[..i];
      if r.success && r.text.Some? && r.text.value != "" {
        var violations := Parser.ParseToViolations(r.text.value, loads);
        successes := successes + 1;
        var tagged := TagAll(violations, i + 1);
        assert tagged == Tagged(violations, i + 1);
        all := all + tagged;
      }
      i := i + 1;
    }
    assert replies[..i] == replies;
  }

  /** Every answered reply counts as a successful audit, and no other does. */
  lemma {:induction false} SuccessesCount(rs: seq<Reply>)
    ensures Successes(rs) <= |rs|
    ensures Successes(rs) == 0 <==> forall i :: 0 <= i < |rs| ==> !Answered(rs[i])
  {
    if rs != [] {
      var n := |rs| - 1;
      SuccessesCount(rs[..n]);
      assert forall i :: 0 <= i < n ==> rs[..n][i] == rs[i];
    }
  }

  /** An answered reply whose text yields no violation still counts, and adds nothing to the list. */
  lemma UnparseableReplyCounts(rs: seq<Reply>, r: Reply, loads: string -> Option<Json.Value>)
    requires Answered(r) && Parser.ParsedViolations(r.text.value, loads) == []
    ensures Successes(rs + [r]) == Successes(rs) + 1
    ensures Collected(rs + [r], loads) == Collected(rs, loads)
  {
    assert (rs + [r])[..|rs|] == rs;
  }

  /**
   * Every collected violation carries the 1-based position of the audit that
   * reported it, and that audit was answered.
   */
  lemma {:induction false} CollectedIds(rs: seq<Reply>, loads: string -> Option<Json.Value>)
    ensures FromAnsweredAudits(Collected(rs, loads), rs)
  {
    if rs != [] {
      var n := |rs| - 1;
      CollectedIds(rs[..n], loads);
      FromAnsweredAuditsWiden(Collected(rs[..n], loads), rs);
      if Answered(rs[n]) {
        var tail := Tagged(Parser.ParsedViolations(rs[n].text.value, loads), n + 1);
        TaggedFromAnsweredAudit(Parser.ParsedViolations(rs[n].text.value, loads), rs);
        FromAnsweredAuditsConcat(Collected(rs[..n], loads), tail, rs);
      } else {
        AppendNothing(Collected(rs[..n], loads));
      }
    }
  }

  /** Every violation in `vs` carries the 1-based position of an answered audit among `rs`. */
  ghost predicate FromAnsweredAudits(vs: seq<Violation>, rs: seq<Reply>) {
    forall v :: v in vs ==>
      v.sourceAuditId.Some? && 1 <= v.sourceAuditId.value <= |rs| && Answered(rs[v.sourceAuditId.value - 1])
  }

  lemma FromAnsweredAuditsWiden(vs: seq<Violation>, rs: seq<Reply>)
    requires rs != [] && FromAnsweredAudits(vs, rs[..|rs| - 1])
    ensures FromAnsweredAudits(vs, rs)
  {
    var prev := rs[..|rs| - 1];
    forall v | v in vs
      ensures v.sourceAuditId.Some? && 1 <= v.sourceAuditId.value <= |rs| && Answered(rs[v.sourceAuditId.value - 1])
    {
      assert prev[v.sourceAuditId.value - 1] == rs[v.sourceAuditId.value - 1];
    }
  }

  lemma TaggedFromAnsweredAudit(vs: seq<Violation>, rs: seq<Reply>)
    requires rs != [] && Answered(rs[|rs| - 1])
    ensures FromAnsweredAudits(Tagged(vs, |rs|), rs)
  {
    forall v | v in Tagged(vs, |rs|)
      ensures v.sourceAuditId == Some(|rs|)
    {
      var i :| 0 <= i < |vs| && Tagged(vs, |rs|)[i] == v;
    }
  }

  lemma FromAnsweredAuditsConcat(a: seq<Violation>, b: seq<Violation>, rs: seq<Reply>)
    requires FromAnsweredAudits(a, rs) && FromAnsweredAudits(b, rs)
    ensures FromAnsweredAudits(a + b, rs)
  {
  }

  /** The replies' violations in audit order: the list grows only at its end. */
  lemma {:induction false} CollectedGrows(rs: seq<Reply>, more: seq<Reply>, loads: string -> Option<Json.Value>)
    ensures Collected(rs, loads) <= Collected(rs + more, loads)
    decreases |more|
  {
    if more != [] {
      var n := |more| - 1;
      var all := rs + more;
      assert all[..|all| - 1] == rs + more[..n];
      CollectedGrows(rs, more[..n], loads);
      assert Collected(rs + more[..n], loads) <= Collected(all, loads);
    } else {
      assert rs + more == rs;
    }
  }

  // ---------------------------------------------------------------------------
  // Deduplication

  /** `f"{error}"` */
  function ErrorText(e: Option<string>): string {
    match e
    case None => "None"
    case Some(s) => s
  }

  /** The request sent to the deduplicator. */
  function DedupRequest(vs: seq<Violation>, context: Json.Value): Json.Value {
    Json.Obj([("context_backpack", context), ("violations_input", Json.Arr(Parser.ToDicts(vs)))])
  }

  /** `_run_deduplication` given the deduplicator's reply: its parse, or the input unchanged. */
  function Dedup(vs: seq<Violation>, reply: Reply, loads: string -> Option<Json.Value>): (seq<Violation>, string) {
    if Answered(reply) then (Parser.ParsedViolations(reply.text.value, loads), reply.text.value)
    else (vs, "FAILED: " + ErrorText(reply.error))
  }

  // ---------------------------------------------------------------------------
  // The Markdown report

  const NoViolationsLine: string := "\n\U{2705} **No violations found.**"
  const Rule: string := "\n---\n"

  function Header(date: string, auditCount: int): string {
    "# YMYL Compliance Report\n**Date:** " + date + "\n**Audits Performed:** " + IntToString(auditCount) + "\n---"
  }

  /** `v.violation_type.lower()` needs a string. */
  predicate Typed(v: Violation) {
    v.violationType.Str?
  }

  /** An entry the report skips: its type mentions "no violation". */
  predicate Hidden(v: Violation)
    requires Typed(v)
  {
    Contains(Lower(v.violationType.s), "no violation")
  }

  function Emoji(s: Severity): string {
    match s
    case Critical => "\U{1F534}"
    case High => "\U{1F7E0}"
    case Medium => "\U{1F7E0}"
    case Low => "\U{1F535}"
  }

  /** `severity.value.title()` */
  function SeverityTitle(s: Severity): string {
    match s
    case Critical => "Critical"
    case High => "High"
    case Medium => "Medium"
    case Low => "Low"
  }

  function Heading(v: Violation, number: nat): string {
    "### " + NatToString(number) + ". " + Emoji(v.severity) + " " + Json.PyStr(v.violationType)
  }

  function TranslationLine(v: Violation): string {
    "> \U{1F310} **Translation:** _" + Json.PyStr(v.translation) + "_"
  }

  function FixTranslationLine(v: Violation): string {
    "> \U{1F6E0}\U{FE0F} **Fix Translation:** _" + Json.PyStr(v.rewriteTranslation) + "_"
  }

  function SeverityLine(v: Violation): string {
    "**Severity:** " + SeverityTitle(v.severity)
  }

  function ProblemLine(v: Violation): string {
    "**Problematic Text:** \"" + Json.PyStr(v.problematicText) + "\""
  }

  function ExplanationLine(v: Violation): string {
    "**Explanation:** " + Json.PyStr(v.explanation)
  }

  function GuidelineLine(v: Violation): string {
    "**Guideline:** Section " + v.guidelineSection + " (Page " + Json.PyStr(v.pageNumber) + ")"
  }

  function FixLine(v: Violation): string {
    "**Suggested Fix:** \"" + Json.PyStr(v.suggestedRewrite) + "\""
  }

  /** The lines of the report entry numbered `number`. */
  function Entry(v: Violation, number: nat): seq<string> {
    [Heading(v, number)] + [SeverityLine(v)] + [ProblemLine(v)]
    + (if Json.Truthy(v.translation) then [TranslationLine(v)] else [])
    + [ExplanationLine(v)] + [GuidelineLine(v)] + [FixLine(v)]
    + (if Json.Truthy(v.rewriteTranslation) then [FixTranslationLine(v)] else [])
    + [Rule]
  }

  /** The violations the report lists, in order. */
  function Shown(vs: seq<Violation>): seq<Violation>
    requires forall i :: 0 <= i < |vs| ==> Typed(vs[i])
  {
    if vs == [] then []
    else
      var n := |vs| - 1;
      Shown(vs[..n]) + (if Hidden(vs[n]) then [] else [vs[n]])
  }

  /** The entries of `ws`, numbered from 1. */
  function Blocks(ws: seq<Violation>): seq<seq<string>> {
    seq(|ws|, i requires 0 <= i < |ws| => Entry(ws[i], i + 1))
  }

  function Entries(ws: seq<Violation>): seq<string> {
    Chunks.Flatten(Blocks(ws))
  }

  /** `_generate_markdown`, as the lines joined by newlines; `None` where it raises. */
  function Report(vs: seq<Violation>, auditCount: int, date: string): Option<string> {
    if vs == [] then Some(Join([Header(date, auditCount), NoViolationsLine], "\n"))
    else if exists i :: 0 <= i < |vs| && !Typed(vs[i]) then None
    else Some(Join([Header(date, auditCount)] + Entries(Shown(vs)), "\n"))
  }

  /** `_generate_markdown`: the report of `vs`; the date is an input. */
  method GenerateMarkdown(vs: seq<Violation>, auditCount: int, date: string) returns (md: Option<string>)
    ensures md == Report(vs, auditCount, date)
  {
    var header := Header(date, auditCount);
    var lines := [header];
    if vs == [] {
      lines := lines + [NoViolationsLine];
      return Some(Join(lines, "\n"));
    }
    var count := 1;
    var k := 0;
    ghost var shown := [];
    while k < |vs|
      invariant 0 <= k <= |vs|
      invariant forall i :: 0 <= i < k ==> Typed(vs[i])
      invariant shown == Shown(vs[..k])
      invariant count == |shown| + 1
      invariant lines == [header] + Entries(shown)
    {
      var v := vs[k];
      if !v.violationType.Str? {
        assert !Typed(vs[k]);
        return None;
      }
      lines, count, shown := ListEntry(vs, k, lines, count, header, shown);
      k := k + 1;
    }
    assert vs[..k] == vs;
    ReportListed(vs, auditCount, date);
    return Some(Join(lines, "\n"));
  }

  lemma ShownStep(vs: seq<Violation>, k: nat)
    requires k < |vs| && forall i :: 0 <= i <= k ==> Typed(vs[i])
    ensures Hidden(vs[k]) ==> Shown(vs[..k + 1]) == Shown(vs[..k])
    ensures !Hidden(vs[k]) ==> Shown(vs[..k + 1]) == Shown(vs[..k]) + [vs[k]]
  {
    assert vs[..k + 1][..k] == vs[..k];
    if Hidden(vs[k]) {
      assert Shown(vs[..k + 1]) == Shown(vs[..k]) + [];
    }
  }

  lemma EntriesSnoc(ws: seq<Violation>, w: Violation)
    ensures Entries(ws + [w]) == Entries(ws) + Entry(w, |ws| + 1)
  {
    var bs := Blocks(ws + [w]);
    assert bs == Blocks(ws) + [Entry(w, |ws| + 1)];
    assert bs[..|bs| - 1] == Blocks(ws);
  }

  lemma ReportListed(vs: seq<Violation>, auditCount: int, date: string)
    requires vs != [] && forall i :: 0 <= i < |vs| ==> Typed(vs[i])
    ensures Report(vs, auditCount, date) == Some(Join([Header(date, auditCount)] + Entries(Shown(vs)), "\n"))
  {
  }

  /** One iteration of the report loop over a violation whose type is a string. */
  method ListEntry(
    vs: seq<Violation>, k: nat, lines: seq<string>, count: nat, ghost header: string, ghost shown: seq<Violation>)
    returns (lines': seq<string>, count': nat, ghost shown': seq<Violation>)
    requires k < |vs| && forall i :: 0 <= i <= k ==> Typed(vs[i])
    requires shown == Shown(vs[..k]) && count == |shown| + 1 && lines == [header] + Entries(shown)
    ensures shown' == Shown(vs[..k + 1]) && count' == |shown'| + 1 && lines' == [header] + Entries(shown')
  {
    ShownStep(vs, k);
    var v := vs[k];
    if !Hidden(v) {
      lines' := AppendEntry(lines, v, count, [header], shown);
      shown' := shown + [v];
      count' := count + 1;
    } else {
      lines', count', shown' := lines, count, shown;
    }
  }

  /** The report so far, followed by the entry numbered after the entries so far. */
  method AppendEntry(lines: seq<string>, v: Violation, count: nat, ghost header: seq<string>, ghost shown: seq<Violation>)
    returns (longer: seq<string>)
    requires count == |shown| + 1 && lines == header + Entries(shown)
    ensures longer == header + Entries(shown + [v])
  {
    var entry := EntryLines(v, count);
    EntriesSnoc(shown, v);
    AppendAssoc(header, Entries(shown), entry);
    longer := lines + entry;
  }

  /** The lines one loop iteration of `_generate_markdown` appends. */
  method EntryLines(v: Violation, count: nat) returns (lines: seq<string>)
    ensures lines == Entry(v, count)
  {
    lines := [Heading(v, count)];
    lines := lines + [SeverityLine(v)];
    lines := lines + [ProblemLine(v)];
    if Json.Truthy(v.translation) {
      lines := lines + [TranslationLine(v)];
    }
    lines := lines + [ExplanationLine(v)];
    lines := lines + [GuidelineLine(v)];
    lines := lines + [FixLine(v)];
    if Json.Truthy(v.rewriteTranslation) {
      lines := lines + [FixTranslationLine(v)];
    }
    lines := lines + [Rule];
  }

  /** The listed violations are exactly those of `vs` whose type does not mention "no violation", in order. */
  lemma {:induction false} ShownFilters(vs: seq<Violation>)
    requires forall i :: 0 <= i < |vs| ==> Typed(vs[i])
    ensures forall w :: w in Shown(vs) ==> w in vs && !Hidden(w)
    ensures forall i :: 0 <= i < |vs| && !Hidden(vs[i]) ==> vs[i] in Shown(vs)
    ensures |Shown(vs)| <= |vs|
  {
    if vs != [] {
      var n := |vs| - 1;
      var prev := vs[..n];
      ShownFilters(prev);
      var tail := if Hidden(vs[n]) then [] else [vs[n]];
      assert Shown(vs) == Shown(prev) + tail;
      forall w | w in Shown(vs)
        ensures w in vs && !Hidden(w)
      {
        if w in Shown(prev) {
          var i :| 0 <= i < n && prev[i] == w;
          assert vs[i] == w;
        }
      }
      forall i | 0 <= i < |vs| && !Hidden(vs[i])
        ensures vs[i] in Shown(vs)
      {
        if i < n {
          assert prev[i] == vs[i];
        }
      }
    }
  }

  /** The report fails exactly when a non-empty list holds a violation type that is not a string. */
  lemma ReportRaises(vs: seq<Violation>, auditCount: int, date: string)
    ensures Report(vs, auditCount, date).None? <==> exists i :: 0 <= i < |vs| && !Typed(vs[i])
  {
  }

  /** With nothing to report the report is the header and the "No violations found" line. */
  lemma ReportEmpty(auditCount: int, date: string)
    ensures Report([], auditCount, date) == Some(Header(date, auditCount) + "\n" + NoViolationsLine)
  {
    var parts := [Header(date, auditCount), NoViolationsLine];
    assert parts[1..] == [NoViolationsLine];
    assert Join(parts[1..], "\n") == NoViolationsLine;
    assert Join(parts, "\n") == Header(date, auditCount) + "\n" + NoViolationsLine;
  }

  /** A non-empty list whose every type mentions "no violation" reports the header alone. */
  lemma ReportAllHidden(vs: seq<Violation>, auditCount: int, date: string)
    requires vs != [] && forall i :: 0 <= i < |vs| ==> Typed(vs[i]) && Hidden(vs[i])
    ensures Report(vs, auditCount, date) == Some(Header(date, auditCount))
  {
    NothingShown(vs);
  }

  lemma {:induction false} NothingShown(vs: seq<Violation>)
    requires forall i :: 0 <= i < |vs| ==> Typed(vs[i]) && Hidden(vs[i])
    ensures Shown(vs) == []
  {
    if vs != [] {
      var n := |vs| - 1;
      assert forall i :: 0 <= i < n ==> vs[..n][i] == vs[i];
      NothingShown(vs[..n]);
    }
  }

  /** The lines that open an entry. */
  function Headings(lines: seq<string>): seq<string> {
    if lines == [] then []
    else
      var n := |lines| - 1;
      Headings(lines[..n]) + (if StartsWith(lines[n], "### ") then [lines[n]] else [])
  }

  /** A line opening with anything but '#' is no heading. */
  lemma NotHeading(s: string)
    requires s != [] && s[0] != '#'
    ensures !StartsWith(s, "### ")
  {
  }

  /** An entry has exactly one heading line, its first. */
  lemma EntryHeadings(v: Violation, number: nat)
    ensures Headings(Entry(v, number)) == [Heading(v, number)]
  {
    var e := Entry(v, number);
    assert StartsWith(Heading(v, number), "### ");
    EntryLineStarts(v, number);
    EntrySplit(v, number);
    forall i | 1 <= i < |e|
      ensures !StartsWith(e[i], "### ")
    {
      NotHeading(e[i]);
    }
    HeadingsAfterFirst(e);
  }

  lemma {:induction false} HeadingsAfterFirst(e: seq<string>)
    requires e != [] && StartsWith(e[0], "### ")
    requires forall i :: 1 <= i < |e| ==> !StartsWith(e[i], "### ")
    ensures Headings(e) == [e[0]]
  {
    var n := |e| - 1;
    if n > 0 {
      assert forall i :: 1 <= i < n ==> e[..n][i] == e[i];
      HeadingsAfterFirst(e[..n]);
    } else {
      assert e[..n] == [];
    }
  }

  /**
   * The listed violations become consecutive blocks numbered 1, 2, …, k in
   * order: block i has exactly one heading line, naming number i + 1, the
   * severity's emoji and the violation's type.
   */
  lemma EntriesNumbered(ws: seq<Violation>)
    ensures |Blocks(ws)| == |ws|
    ensures forall i :: 0 <= i < |ws| ==> Headings(Blocks(ws)[i]) == [Heading(ws[i], i + 1)]
  {
    forall i | 0 <= i < |ws|
      ensures Headings(Blocks(ws)[i]) == [Heading(ws[i], i + 1)]
    {
      EntryHeadings(ws[i], i + 1);
    }
  }

  /** The first characters that tell an entry's lines apart. */
  lemma EntryLineStarts(v: Violation, number: nat)
    ensures Heading(v, number)[0] == '#'
    ensures SeverityLine(v)[0] == '*' && ProblemLine(v)[0] == '*' && ExplanationLine(v)[0] == '*'
    ensures GuidelineLine(v)[0] == '*' && FixLine(v)[0] == '*' && Rule[0] == '\n'
    ensures TranslationLine(v)[0] == '>' && TranslationLine(v)[2] == '\U{1F310}'
    ensures FixTranslationLine(v)[0] == '>' && FixTranslationLine(v)[2] == '\U{1F6E0}'
  {
  }

  lemma EntrySplit(v: Violation, number: nat)
    ensures var t := if Json.Truthy(v.translation) then [TranslationLine(v)] else [];
      var f := if Json.Truthy(v.rewriteTranslation) then [FixTranslationLine(v)] else [];
      Entry(v, number) == [Heading(v, number), SeverityLine(v), ProblemLine(v)] + t
        + [ExplanationLine(v), GuidelineLine(v), FixLine(v)] + f + [Rule]
  {
  }

  /**
   * An entry shows a translation line exactly when the violation's
   * translation is non-empty, and a fix-translation line exactly when its
   * rewrite translation is.
   */
  lemma EntryTranslations(v: Violation, number: nat)
    ensures TranslationLine(v) in Entry(v, number) <==> Json.Truthy(v.translation)
    ensures FixTranslationLine(v) in Entry(v, number) <==> Json.Truthy(v.rewriteTranslation)
  {
    EntryLineStarts(v, number);
    EntrySplit(v, number);
  }

  // ---------------------------------------------------------------------------
  // The whole run

  datatype Outcome =
    | Failed(error: string)
    | Succeeded(report: string, violations: seq<Violation>, total: nat, unique: nat, dedupRaw: string)
    | Crashed

  /** `run_analysis`, given the audit replies (in audit order) and the deduplicator's reply. */
  function Analysis(
    contentJson: string, replies: seq<Reply>, dedupReply: Reply,
    loads: string -> Option<Json.Value>, date: string): Outcome
  {
    var all := Collected(replies, loads);
    var successes := Successes(replies);
    if successes == 0 then Failed(AllFailed)
    else
      var (final, raw) := if all != [] then Dedup(all, dedupReply, loads) else ([], "Skipped");
      match Report(final, successes, date)
      case None => Crashed
      case Some(md) => Succeeded(md, final, |all|, |final|, raw)
  }

  /**
   * `run_analysis`: the outcome, the payload every audit receives and the
   * deduplicator's request, sent only when some audit reported a violation.
   */
  method RunAnalysis(
    contentJson: string, replies: seq<Reply>, dedupReply: Reply,
    loads: string -> Option<Json.Value>, date: string)
    returns (out: Outcome, payload: Json.Value, dedupRequest: Option<Json.Value>)
    ensures out == Analysis(contentJson, replies, dedupReply, loads, date)
    ensures payload.Obj? && Json.Get(payload.fields, "chunk_text") == Some(Json.Str(contentJson))
    ensures dedupRequest.Some? <==> Successes(replies) > 0 && Collected(replies, loads) != []
    ensures dedupRequest.Some? ==>
      dedupRequest.value == DedupRequest(Collected(replies, loads), GlobalContext(PayloadTitle(contentJson, loads)))
  {
    var context;
    payload, context := BuildAnalyzerPayload(contentJson, loads);
    dedupRequest := None;
    var all, successes := Aggregate(replies, loads);
    if successes == 0 {
      return Failed(AllFailed), payload, dedupRequest;
    }
    var final := [];
    var raw := "Skipped";
    if all != [] {
      dedupRequest := Some(DedupRequest(all, context));
      final, raw := Dedup(all, dedupReply, loads).0, Dedup(all, dedupReply, loads).1;
    }
    var md := GenerateMarkdown(final, successes, date);
    if md.None? {
      return Crashed, payload, dedupRequest;
    }
    out := Succeeded(md.value, final, |all|, |final|, raw);
  }

  /** The run fails exactly when no audit was answered, and then says "All audits failed.". */
  lemma AnalysisFails(contentJson: string, replies: seq<Reply>, dedupReply: Reply, loads: string -> Option<Json.Value>, date: string)
    ensures var out := Analysis(contentJson, replies, dedupReply, loads, date);
      out.Failed? <==> forall i :: 0 <= i < |replies| ==> !Answered(replies[i])
    ensures var out := Analysis(contentJson, replies, dedupReply, loads, date);
      out.Failed? ==> out.error == AllFailed
  {
    SuccessesCount(replies);
  }

  /**
   * A successful run: the total counts every collected violation and the
   * unique count the reported ones. Without violations deduplication is
   * skipped; a failed deduplicator leaves the collected violations, each
   * still carrying the audit that found it; an answered one gives its parse.
   */
  lemma AnalysisSucceeds(contentJson: string, replies: seq<Reply>, dedupReply: Reply, loads: string -> Option<Json.Value>, date: string)
    requires Analysis(contentJson, replies, dedupReply, loads, date).Succeeded?
    ensures var out := Analysis(contentJson, replies, dedupReply, loads, date);
      var all := Collected(replies, loads);
      && out.total == |all| && out.unique == |out.violations|
      && (all == [] ==> out.violations == [] && out.dedupRaw == "Skipped")
      && (all != [] && !Answered(dedupReply) ==>
            out.violations == all && out.unique == out.total && out.dedupRaw == "FAILED: " + ErrorText(dedupReply.error)
            && forall v :: v in out.violations ==> v.sourceAuditId.Some? && 1 <= v.sourceAuditId.value <= |replies|)
      && (all != [] && Answered(dedupReply) ==>
            out.violations == Parser.ParsedViolations(dedupReply.text.value, loads) && out.dedupRaw == dedupReply.text.value)
  {
    CollectedIds(replies, loads);
  }

  /** The report names the number of answered audits, not the number asked for. */
  lemma AnalysisReportHeader(contentJson: string, replies: seq<Reply>, dedupReply: Reply, loads: string -> Option<Json.Value>, date: string)
    requires Analysis(contentJson, replies, dedupReply, loads, date).Succeeded?
    ensures StartsWith(Analysis(contentJson, replies, dedupReply, loads, date).report, Header(date, Successes(replies)))
  {
    var all := Collected(replies, loads);
    var final := if all != [] then Dedup(all, dedupReply, loads).0 else [];
    ReportHeader(final, Successes(replies), date);
  }

  lemma ReportHeader(vs: seq<Violation>, auditCount: int, date: string)
    requires Report(vs, auditCount, date).Some?
    ensures StartsWith(Report(vs, auditCount, date).value, Header(date, auditCount))
  {
    var h := Header(date, auditCount);
    if vs == [] {
      JoinStartsWithFirst([h, NoViolationsLine], "\n");
    } else {
      JoinStartsWithFirst([h] + Entries(Shown(vs)), "\n");
    }
  }

  lemma JoinStartsWithFirst(parts: seq<string>, sep: string)
    requires parts != []
    ensures StartsWith(Join(parts, sep), parts[0])
  {
  }
}
