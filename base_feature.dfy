/**
 * The helpers every analysis feature inherits (features/base_feature.py):
 * the feature id derived from the class name, session-key prefixing, basic
 * input validation, the single-file defaults of the multi-file hooks, and
 * the chunk metrics shown to administrators. A feature's input is the
 * dictionary its input interface returns, modelled as the fields of a JSON
 * object.
 */
module BaseFeature {
  import opened Wrappers
  import opened Strings
  import opened Json
  import Chunks

  // ---------------------------------------------------------------------------
  // Identity and session keys
  // ---------------------------------------------------------------------------

  /** The feature id: the lower-cased class name without "analysisfeature", then without "feature". */
  function FeatureId(className: string): string {
    ReplaceAll(ReplaceAll(Lower(className), "analysisfeature", ""), "feature", "")
  }

  /**
   * A class name made of a plain stem (no "a" and no "f" in any case) and
   * the suffix "AnalysisFeature" has the lower-cased stem as its id.
   */
  lemma FeatureIdOfStem(stem: string)
    requires forall i :: 0 <= i < |stem| ==> LowerChar(stem[i]) != 'a' && LowerChar(stem[i]) != 'f'
    ensures FeatureId(stem + "AnalysisFeature") == Lower(stem)
  {
    var low := Lower(stem);
    assert Lower(stem + "AnalysisFeature") == low + "analysisfeature";
    ReplaceAllPast(low, "analysisfeature", "", "analysisfeature");
    assert ReplaceAll("analysisfeature", "analysisfeature", "") == "";
    assert low + "analysisfeature" == low + "analysisfeature" + "";
    ReplaceAllPast(low, "feature", "", "");
    assert low + "" == low;
  }

  /** The two concrete features get the ids "html" and "url", not their registry ids. */
  lemma FeatureIdOfHtml()
    ensures FeatureId("HTMLAnalysisFeature") == "html"
  {
    var html := "HTML";
    assert forall i :: 0 <= i < |html| ==> LowerChar(html[i]) != 'a' && LowerChar(html[i]) != 'f';
    FeatureIdOfStem(html);
    assert html + "AnalysisFeature" == "HTMLAnalysisFeature" && Lower(html) == "html";
  }

  lemma FeatureIdOfUrl()
    ensures FeatureId("URLAnalysisFeature") == "url"
  {
    var url := "URL";
    assert forall i :: 0 <= i < |url| ==> LowerChar(url[i]) != 'a' && LowerChar(url[i]) != 'f';
    FeatureIdOfStem(url);
    assert url + "AnalysisFeature" == "URLAnalysisFeature" && Lower(url) == "url";
  }

  /** Replacement leaves a prefix alone that never holds the pattern's first character. */
  lemma {:induction false} ReplaceAllPast(x: string, pat: string, rep: string, y: string)
    requires pat != [] && forall i :: 0 <= i < |x| ==> x[i] != pat[0]
    ensures ReplaceAll(x + y, pat, rep) == x + ReplaceAll(y, pat, rep)
    decreases |x|
  {
    if x != [] {
      var s := x + y;
      assert s[0] == x[0] && s[0] != pat[0];
      if |s| < |pat| {
        assert ReplaceAll(y, pat, rep) == y;
      } else {
        assert s[..|pat|] != pat by { assert s[..|pat|][0] == s[0]; }
        assert ReplaceAll(s, pat, rep) == [s[0]] + ReplaceAll(s[1..], pat, rep);
        assert s[1..] == x[1..] + y;
        ReplaceAllPast(x[1..], pat, rep, y);
        assert [x[0]] + x[1..] == x;
      }
    } else {
      assert x + y == y;
    }
  }

  /** `get_session_key`: the feature id, an underscore, then the widget key. */
  function SessionKey(featureId: string, key: string): (r: string)
    ensures |r| == |featureId| + 1 + |key|
    ensures r[..|featureId|] == featureId && r[|featureId|] == '_' && r[|featureId| + 1..] == key
  {
    featureId + "_" + key
  }

  /** Within one feature, distinct widget keys give distinct session keys. */
  lemma SessionKeyInjective(featureId: string, a: string, b: string)
    ensures SessionKey(featureId, a) == SessionKey(featureId, b) <==> a == b
  {
    if SessionKey(featureId, a) == SessionKey(featureId, b) {
      assert a == SessionKey(featureId, a)[|featureId| + 1..];
    }
  }

  /** Across features the prefix alone does not separate keys when ids or keys hold underscores. */
  lemma SessionKeysAcrossFeatures()
    ensures SessionKey("html", "x_y") == SessionKey("html_x", "y")
  {
  }

  // ---------------------------------------------------------------------------
  // Validation and the multi-file defaults
  // ---------------------------------------------------------------------------

  /**
   * `validate_input`: an empty input is refused; a falsy `is_valid` (a missing
   * one counts as true) refuses with the input's own `error_message`, or
   * "Invalid input" without one; anything else passes with an empty message.
   */
  function ValidateInput(input: seq<(string, Value)>): (r: (bool, Value))
    ensures r.0 <==> input != [] && Truthy(GetOr(input, "is_valid", Bool(true)))
    ensures input == [] ==> r.1 == Str("No input data provided")
    ensures input != [] && !r.0 ==> r.1 == GetOr(input, "error_message", Str("Invalid input"))
    ensures r.0 ==> r.1 == Str("")
  {
    if input == [] then (false, Str("No input data provided"))
    else if !Truthy(GetOr(input, "is_valid", Bool(true))) then (false, GetOr(input, "error_message", Str("Invalid input")))
    else (true, Str(""))
  }

  /** Any non-empty input without an `is_valid` entry passes. */
  lemma ValidateWithoutFlag(input: seq<(string, Value)>)
    requires input != []
    requires forall j :: 0 <= j < |input| ==> input[j].0 != "is_valid"
    ensures ValidateInput(input) == (true, Str(""))
  {
    GetMissing(input, "is_valid");
  }

  /** The default `is_multi_file_input`: every input is a single file. */
  function IsMultiFileInput(input: seq<(string, Value)>): bool {
    false
  }

  /** The default `get_file_list`: no per-file names. */
  function FileList(input: seq<(string, Value)>): seq<string> {
    []
  }

  // ---------------------------------------------------------------------------
  // Extraction metrics
  // ---------------------------------------------------------------------------

  const ParseError: string := "Could not parse JSON structure"

  /** What `get_extraction_metrics` reports: the counts, or only the size and an error. */
  datatype Metrics = Counts(bigChunks: nat, smallChunks: nat, jsonSize: nat) | Unparsed(jsonSize: nat, error: string)

  /** The sum of `len(chunk.get('small_chunks', []))`; `None` where a chunk has no `get` or the value no `len`. */
  function SmallTotal(chunks: seq<Value>): Option<nat>
  {
    if chunks == [] then Some(0)
    else
      var last := chunks[|chunks| - 1];
      match SmallTotal(chunks[..|chunks| - 1])
      case None => None
      case Some(t) =>
        if !last.Obj? then None
        else match PyLen(GetOr(last.fields, "small_chunks", Arr([])))
          case None => None
          case Some(n) => Some(t + n)
  }

  /**
   * `get_extraction_metrics`: `loads` is the JSON parser, `None` where it
   * raises. Every exception the body can raise (no parse, a top level or a
   * chunk without `get`, a value without `len`) ends in the error variant.
   */
  function ExtractionMetrics(s: string, loads: string -> Option<Value>): (m: Metrics)
    ensures m.jsonSize == |s|
    ensures m.Unparsed? ==> m.error == ParseError
    ensures (loads(s).None? || !loads(s).value.Obj?) ==> m.Unparsed?
  {
    var d := loads(s);
    if d.None? || !d.value.Obj? then Unparsed(|s|, ParseError)
    else
      var big := GetOr(d.value.fields, "big_chunks", Arr([]));
      match PyIter(big)
      case None => Unparsed(|s|, ParseError)
      case Some(items) =>
        match SmallTotal(items)
        case None => Unparsed(|s|, ParseError)
        case Some(t) =>
          match PyLen(big)
          case None => Unparsed(|s|, ParseError)
          case Some(n) => Counts(n, t, |s|)
  }

  /** A big chunk as the extractors serialise it: index, the name if any, then the lines. */
  function ChunkValue(c: Chunks.BigChunk): (v: Value)
    ensures v.Obj? && Get(v.fields, "small_chunks") == Some(Arr(Lines(c.smallChunks)))
  {
    var head := [("big_chunk_index", Num(c.index))];
    var named := if c.name.Some? then [("content_name", Str(c.name.value))] else [];
    var fields := head + named + [("small_chunks", Arr(Lines(c.smallChunks)))];
    GetAt(fields, "small_chunks", |fields| - 1);
    Obj(fields)
  }

  function Lines(ls: seq<string>): (r: seq<Value>)
    ensures |r| == |ls|
  {
    seq(|ls|, i requires 0 <= i < |ls| => Str(ls[i]))
  }

  function ChunkValues(cs: seq<Chunks.BigChunk>): (r: seq<Value>)
    ensures |r| == |cs|
  {
    seq(|cs|, i requires 0 <= i < |cs| => ChunkValue(cs[i]))
  }

  /** The document `_create_final_json` writes for a list of chunks. */
  function ChunksDocument(cs: seq<Chunks.BigChunk>): Value {
    Obj([("big_chunks", Arr(ChunkValues(cs)))])
  }

  lemma {:induction false} SmallTotalOfChunks(cs: seq<Chunks.BigChunk>)
    ensures SmallTotal(ChunkValues(cs)) == Some(|Chunks.AllSmallChunks(cs)|)
    decreases |cs|
  {
    if cs != [] {
      var n := |cs| - 1;
      var vs := ChunkValues(cs);
      assert vs[..n] == ChunkValues(cs[..n]);
      SmallTotalOfChunks(cs[..n]);
      var last := ChunkValue(cs[n]);
      assert vs[n] == last;
      assert GetOr(last.fields, "small_chunks", Arr([])) == Arr(Lines(cs[n].smallChunks));
      assert Chunks.AllSmallChunks(cs) == Chunks.AllSmallChunks(cs[..n]) + cs[n].smallChunks;
    }
  }

  /**
   * The metrics of an extractor's document count its chunks and all their
   * lines, and the size is the length of the text.
   */
  lemma MetricsOfChunks(s: string, loads: string -> Option<Value>, cs: seq<Chunks.BigChunk>)
    requires loads(s) == Some(ChunksDocument(cs))
    ensures ExtractionMetrics(s, loads) == Counts(|cs|, |Chunks.AllSmallChunks(cs)|, |s|)
  {
    SmallTotalOfChunks(cs);
  }

  /** A document whose chunk list holds something other than objects yields only the error. */
  lemma MetricsOfNonObjectChunk(s: string, loads: string -> Option<Value>, items: seq<Value>, i: nat)
    requires loads(s) == Some(Obj([("big_chunks", Arr(items))]))
    requires i < |items| && !items[i].Obj?
    ensures ExtractionMetrics(s, loads) == Unparsed(|s|, ParseError)
  {
    SmallTotalFails(items, i);
  }

  lemma {:induction false} SmallTotalFails(items: seq<Value>, i: nat)
    requires i < |items| && !items[i].Obj?
    ensures SmallTotal(items).None?
    decreases |items|
  {
    var n := |items| - 1;
    if i < n {
      assert items[..n][i] == items[i];
      SmallTotalFails(items[..n], i);
    }
  }
}
