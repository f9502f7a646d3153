/**
 * The HTML analysis feature (features/html_analysis.py): which members of an
 * uploaded ZIP archive are extracted, how the per-file extraction results are
 * packaged (one file as itself, several under "files"), the dispatch between
 * ZIP and single-file input, the multi-file hooks, the source description
 * and the rule that accepts pasted HTML.
 *
 * Reading the archive and decoding its members is abstracted: an archive is
 * the list of its members' names and decoded texts. The single-file extractor
 * (`extract_html_content`) and `json.dumps` are parameters.
 */
module HtmlAnalysis {
  import opened Wrappers
  import opened Strings
  import opened Json
  import BaseFeature
  import Helpers

  const FeatureName: string := "HTML Analysis"
  const PasteMethod: string := "\U{1F4DD} Paste HTML"
  const NoContent: string := "No valid HTML content could be extracted from ZIP"
  const TooShort: string := "HTML content too short"
  const NoHtmlInZip: string := "No HTML files found in ZIP"

  /** What an extraction returns: success, the JSON text, the error message. */
  datatype Extraction = Extraction(success: bool, content: Option<string>, error: Option<string>)

  // ---------------------------------------------------------------------------
  // Member filters
  // ---------------------------------------------------------------------------

  /** The lower-cased name ends in ".html" or ".htm". */
  predicate HtmlExtension(name: string) {
    EndsWith(Lower(name), ".html") || EndsWith(Lower(name), ".htm")
  }

  /** The members `_extract_zip_content` reads: HTML, outside "__MACOSX/", not a directory. */
  predicate ZipMember(name: string) {
    HtmlExtension(name) && !StartsWith(name, "__MACOSX/") && !EndsWith(name, "/")
  }

  /** The members the upload form counts when it pre-validates an archive. */
  predicate PreValidMember(name: string) {
    HtmlExtension(name) && !StartsWith(name, "__MACOSX")
  }

  /** The directory test never excludes anything: a name ending in "/" has no HTML extension. */
  lemma DirectoryCheckRedundant(name: string)
    ensures ZipMember(name) <==> HtmlExtension(name) && !StartsWith(name, "__MACOSX/")
  {
    if EndsWith(name, "/") {
      var low := Lower(name);
      assert low[|low| - 1] == LowerChar(name[|name| - 1]) == '/';
      if |low| >= 5 {
        assert low[|low| - 5..][4] == '/';
      }
      if |low| >= 4 {
        assert low[|low| - 4..][3] == '/';
      }
    }
  }

  /** Every member the form counts is extracted. */
  lemma PreValidIsMember(name: string)
    ensures PreValidMember(name) ==> ZipMember(name)
  {
    DirectoryCheckRedundant(name);
    if StartsWith(name, "__MACOSX/") {
      assert "__MACOSX/"[..8] == "__MACOSX";
      assert name[..8] == "__MACOSX";
    }
  }

  /** The converse fails: a name that merely begins with "__MACOSX" is extracted but not counted. */
  lemma MemberNotPreValid()
    ensures ZipMember("__MACOSXnotes.html") && !PreValidMember("__MACOSXnotes.html")
  {
    var odd := "__MACOSXnotes.html";
    assert odd[..8] == "__MACOSX";
    assert odd[..9] != "__MACOSX/" by { assert odd[8] == 'n'; }
    var low := Lower(odd);
    assert low[|low| - 5..] == ".html";
    assert low[|low| - 1] != '/';
  }

  // ---------------------------------------------------------------------------
  // Packaging
  // ---------------------------------------------------------------------------

  /** `d[key] = v` on an insertion-ordered dictionary: a new key goes last, a known key keeps its place. */
  function Put(files: seq<(string, Value)>, key: string, v: Value): (r: seq<(string, Value)>)
    ensures |r| == if Get(files, key).Some? then |files| else |files| + 1
    ensures Get(r, key) == Some(v)
    ensures forall k :: k != key ==> Get(r, k) == Get(files, k)
    decreases |files|
  {
    if files == [] then [(key, v)]
    else if files[0].0 == key then [(key, v)] + files[1..]
    else [files[0]] + Put(files[1..], key, v)
  }

  /** The name a member is stored under. */
  function SafeName(name: string): string {
    Helpers.CreateSafeFilename(name)
  }

  /** The archive's HTML members in archive order: `file_list`. */
  function ZipFileList(members: seq<(string, string)>): (r: seq<(string, string)>)
    ensures |r| <= |members|
  {
    if members == [] then []
    else
      var prev := ZipFileList(members[..|members| - 1]);
      var m := members[|members| - 1];
      if ZipMember(m.0) then prev + [m] else prev
  }

  /** A member is listed exactly when it passes the filter. */
  lemma {:induction false} ZipFileListIff(members: seq<(string, string)>)
    ensures forall m :: m in ZipFileList(members) <==> m in members && ZipMember(m.0)
    decreases |members|
  {
    if members != [] {
      var n := |members| - 1;
      ZipFileListIff(members[..n]);
      assert members == members[..n] + [members[n]];
    }
  }

  // ---------------------------------------------------------------------------
  // The upload form's archive pre-validation
  // ---------------------------------------------------------------------------

  /** The members the upload form counts, in archive order. */
  function FormCount(members: seq<(string, string)>): (n: nat)
    ensures n <= |members|
  {
    if members == [] then 0
    else FormCount(members[..|members| - 1]) + (if PreValidMember(members[|members| - 1].0) then 1 else 0)
  }

  /** The form's pre-validation of an uploaded archive as written: the `file_count` it stores, or its refusal. */
  function PreValidateZip(members: seq<(string, string)>): (r: Result<nat, string>)
    ensures r.Ok? ==> 1 <= r.value <= |members|
    ensures r.Err? ==> r.error == NoHtmlInZip
  {
    var n := FormCount(members);
    if n > 0 then Ok(n) else Err(NoHtmlInZip)
  }

  /** The form never counts more members than the extraction reads. */
  lemma {:induction false} FormCountAtMost(members: seq<(string, string)>)
    ensures FormCount(members) <= |ZipFileList(members)|
    decreases |members|
  {
    if members != [] {
      FormCountAtMost(members[..|members| - 1]);
      PreValidIsMember(members[|members| - 1].0);
    }
  }

  /** An archive whose only HTML member is "__MACOSXnotes.html" is refused, although the extraction would read that member. */
  lemma PreValidateZipRefusesMember(content: string)
    ensures var members := [("__MACOSXnotes.html", content)];
      PreValidateZip(members).Err? && ZipFileList(members) == members
  {
    var members := [("__MACOSXnotes.html", content)];
    MemberNotPreValid();
    assert members[..0] == [];
  }

  /** The form's pre-validation as intended: it counts exactly the members the extraction reads. */
  function PreValidateZipIntended(members: seq<(string, string)>): (r: Result<nat, string>)
    ensures r.Ok? ==> 1 <= r.value <= |members|
    ensures r.Err? ==> r.error == NoHtmlInZip
  {
    var n := |ZipFileList(members)|;
    if n > 0 then Ok(n) else Err(NoHtmlInZip)
  }

  /**
   * The intended pre-validation accepts an archive exactly when the extraction has a
   * member to read, and then counts every such member.
   */
  lemma {:induction false} PreValidateZipIntendedAccepts(members: seq<(string, string)>)
    ensures PreValidateZipIntended(members).Ok? <==> exists i :: 0 <= i < |members| && ZipMember(members[i].0)
    ensures PreValidateZipIntended(members).Ok? ==> PreValidateZipIntended(members).value == |ZipFileList(members)|
  {
    ZipFileListIff(members);
    if ZipFileList(members) != [] {
      var m := ZipFileList(members)[0];
      assert m in ZipFileList(members);
      var i :| 0 <= i < |members| && members[i] == m;
    }
  }

  /** The member's extraction succeeds. */
  predicate Succeeds(m: (string, string), extract: string -> Extraction) {
    extract(m.1).success
  }

  /**
   * The (name, extraction) pairs the loop stores, one per listed member whose
   * extraction succeeds, in order; `rename` gives the name it is stored under.
   */
  function Entries(files: seq<(string, string)>, extract: string -> Extraction, rename: string -> string): (es: seq<(string, Value)>)
    ensures |es| <= |files|
  {
    if files == [] then []
    else
      var prev := Entries(files[..|files| - 1], extract, rename);
      var m := files[|files| - 1];
      if Succeeds(m, extract) then prev + [(rename(m.0), OptStr(extract(m.1).content))] else prev
  }

  /** A dictionary filled with the pairs in order. */
  function Fill(es: seq<(string, Value)>): (r: seq<(string, Value)>)
    ensures r == [] <==> es == []
  {
    if es == [] then [] else Put(Fill(es[..|es| - 1]), es[|es| - 1].0, es[|es| - 1].1)
  }

  /** The `extracted_files` dictionary after the loop over the archive's members. */
  function ExtractedFiles(members: seq<(string, string)>, extract: string -> Extraction): seq<(string, Value)> {
    Fill(Entries(ZipFileList(members), extract, SafeName))
  }

  /** Reference definition: the value of the last pair stored under `key`. */
  function LastFor(es: seq<(string, Value)>, key: string): Option<Value> {
    if es == [] then None
    else if es[|es| - 1].0 == key then Some(es[|es| - 1].1)
    else LastFor(es[..|es| - 1], key)
  }

  /** A stored JSON text back as a string. */
  function Text(v: Value): Option<string> {
    if v.Str? then Some(v.s) else None
  }

  /** The result of `_extract_zip_content` from its dictionary. */
  function ZipOutcome(files: seq<(string, Value)>, dumps: Value -> string): (r: Extraction)
    ensures r.success <==> files != []
    ensures !r.success ==> r == Extraction(false, None, Some(NoContent))
  {
    if files == [] then Extraction(false, None, Some(NoContent))
    else if |files| == 1 then Extraction(true, Text(files[0].1), None)
    else Extraction(true, Some(dumps(Obj([("files", Obj(files))]))), None)
  }

  /** `_extract_zip_content` */
  method ExtractZipContent(members: seq<(string, string)>, extract: string -> Extraction, dumps: Value -> string)
    returns (r: Extraction)
    ensures r == ZipOutcome(ExtractedFiles(members, extract), dumps)
  {
    var fileList := ZipFileList(members);
    var files := StoreExtractions(fileList, extract, SafeName);
    if files == [] {
      return Extraction(false, None, Some(NoContent));
    }
    if |files| == 1 {
      return Extraction(true, Text(files[0].1), None);
    }
    r := Extraction(true, Some(dumps(Obj([("files", Obj(files))]))), None);
  }

  /** The loop of `_extract_zip_content`: each successful extraction is stored under its renamed name. */
  method StoreExtractions(fileList: seq<(string, string)>, extract: string -> Extraction, rename: string -> string)
    returns (files: seq<(string, Value)>)
    ensures files == Fill(Entries(fileList, extract, rename))
  {
    files := [];
    ghost var es: seq<(string, Value)> := [];
    for i := 0 to |fileList|
      invariant es == Entries(fileList[..i], extract, rename) && files == Fill(es)
    {
      ghost var upto := fileList[..i + 1];
      assert upto[..i] == fileList[..i] && upto[i] == fileList[i];
      var e := extract(fileList[i].1);
      if e.success {
        var entry := (rename(fileList[i].0), OptStr(e.content));
        assert Entries(upto, extract, rename) == es + [entry];
        assert (es + [entry])[..|es|] == es;
        files := Put(files, entry.0, entry.1);
        es := es + [entry];
      } else {
        assert Entries(upto, extract, rename) == es;
      }
    }
    assert fileList[..|fileList|] == fileList;
  }

  /** Each stored name holds the value of the last pair with that name. */
  lemma {:induction false} FillLookup(es: seq<(string, Value)>, key: string)
    ensures Get(Fill(es), key) == LastFor(es, key)
    decreases |es|
  {
    if es != [] {
      FillLookup(es[..|es| - 1], key);
    }
  }

  /** A name is absent exactly when no successful member is stored under it: failed files are omitted. */
  lemma {:induction false} StoredIff(files: seq<(string, string)>, extract: string -> Extraction, rename: string -> string, key: string)
    ensures LastFor(Entries(files, extract, rename), key).None? <==>
      forall i :: 0 <= i < |files| ==> !(Succeeds(files[i], extract) && rename(files[i].0) == key)
    decreases |files|
  {
    if files != [] {
      var n := |files| - 1;
      var init := files[..n];
      StoredIff(init, extract, rename, key);
      StoredStep(files, extract, rename, key, Entries(init, extract, rename));
      assert forall i :: 0 <= i < n ==> init[i] == files[i];
    }
  }

  /** The last member decides the lookup when it is stored under the name; otherwise the earlier ones do. */
  lemma StoredStep(files: seq<(string, string)>, extract: string -> Extraction, rename: string -> string, key: string, prev: seq<(string, Value)>)
    requires files != [] && prev == Entries(files[..|files| - 1], extract, rename)
    ensures var m := files[|files| - 1];
      LastFor(Entries(files, extract, rename), key).None? <==>
        LastFor(prev, key).None? && !(Succeeds(m, extract) && rename(m.0) == key)
  {
    var m := files[|files| - 1];
    if Succeeds(m, extract) {
      var e := (rename(m.0), OptStr(extract(m.1).content));
      assert (prev + [e])[..|prev|] == prev;
    }
  }

  /** The last successful member stored under a name is the one whose extraction is kept: a later file wins. */
  lemma {:induction false} LaterWins(files: seq<(string, string)>, extract: string -> Extraction, rename: string -> string, i: nat)
    requires i < |files| && Succeeds(files[i], extract)
    requires forall j :: i < j < |files| ==> !(Succeeds(files[j], extract) && rename(files[j].0) == rename(files[i].0))
    ensures LastFor(Entries(files, extract, rename), rename(files[i].0)) == Some(OptStr(extract(files[i].1).content))
    decreases |files|
  {
    var n := |files| - 1;
    var prev := Entries(files[..n], extract, rename);
    if Succeeds(files[n], extract) {
      var e := (rename(files[n].0), OptStr(extract(files[n].1).content));
      assert (prev + [e])[..|prev|] == prev;
    }
    if i < n {
      assert files[..n][i] == files[i];
      assert forall j :: i < j < n ==> files[..n][j] == files[j];
      LaterWins(files[..n], extract, rename, i);
    }
  }

  /** There are pairs exactly when some member extracts successfully. */
  lemma {:induction false} EntriesEmpty(files: seq<(string, string)>, extract: string -> Extraction, rename: string -> string)
    ensures Entries(files, extract, rename) == [] <==> forall i :: 0 <= i < |files| ==> !Succeeds(files[i], extract)
    decreases |files|
  {
    if files != [] {
      var n := |files| - 1;
      EntriesEmpty(files[..n], extract, rename);
      assert forall i :: 0 <= i < n ==> files[..n][i] == files[i];
    }
  }

  /** No HTML member extracts successfully: the archive fails with the fixed message. */
  lemma NoSuccessOutcome(members: seq<(string, string)>, extract: string -> Extraction, dumps: Value -> string)
    requires forall i :: 0 <= i < |members| && ZipMember(members[i].0) ==> !Succeeds(members[i], extract)
    ensures ZipOutcome(ExtractedFiles(members, extract), dumps) == Extraction(false, None, Some(NoContent))
  {
    var files := ZipFileList(members);
    ZipFileListIff(members);
    assert forall i :: 0 <= i < |files| ==> files[i] in files;
    EntriesEmpty(files, extract, SafeName);
  }

  /** Pairs that all share one name fill a dictionary with that name alone, holding the last value. */
  lemma {:induction false} FillOneName(es: seq<(string, Value)>, key: string)
    requires es != [] && forall i :: 0 <= i < |es| ==> es[i].0 == key
    ensures Fill(es) == [(key, es[|es| - 1].1)]
    decreases |es|
  {
    var n := |es| - 1;
    if n > 0 {
      assert forall i :: 0 <= i < n ==> es[..n][i] == es[i];
      FillOneName(es[..n], key);
    }
  }

  /** When every successful member is stored under one name, so is every pair. */
  lemma {:induction false} EntriesOneName(files: seq<(string, string)>, extract: string -> Extraction, rename: string -> string, key: string)
    requires forall i :: 0 <= i < |files| && Succeeds(files[i], extract) ==> rename(files[i].0) == key
    ensures forall p :: 0 <= p < |Entries(files, extract, rename)| ==> Entries(files, extract, rename)[p].0 == key
    decreases |files|
  {
    if files != [] {
      var n := |files| - 1;
      assert forall i :: 0 <= i < n ==> files[..n][i] == files[i];
      EntriesOneName(files[..n], extract, rename, key);
    }
  }

  /** The last pair comes from the last successful member. */
  lemma {:induction false} EntriesLast(files: seq<(string, string)>, extract: string -> Extraction, rename: string -> string, i: nat)
    requires i < |files| && Succeeds(files[i], extract)
    requires forall j :: i < j < |files| ==> !Succeeds(files[j], extract)
    ensures LastPair(Entries(files, extract, rename)) == Some((rename(files[i].0), OptStr(extract(files[i].1).content)))
    decreases |files|
  {
    var n := |files| - 1;
    if i < n {
      assert files[..n][i] == files[i];
      assert forall j :: i < j < n ==> files[..n][j] == files[j];
      EntriesLast(files[..n], extract, rename, i);
    }
  }

  /**
   * One distinct name among the successful listed members: the archive
   * yields the last successful member's own extraction text.
   */
  lemma OneFileOutcome(files: seq<(string, string)>, extract: string -> Extraction, rename: string -> string,
                       dumps: Value -> string, i: nat)
    requires i < |files| && Succeeds(files[i], extract)
    requires forall j :: 0 <= j < |files| && Succeeds(files[j], extract) ==> rename(files[j].0) == rename(files[i].0)
    requires forall j :: i < j < |files| ==> !Succeeds(files[j], extract)
    ensures ZipOutcome(Fill(Entries(files, extract, rename)), dumps) == Extraction(true, extract(files[i].1).content, None)
  {
    EntriesOneFile(files, extract, rename, i);
    OneNameText(Entries(files, extract, rename), rename(files[i].0), dumps, extract(files[i].1).content);
  }

  /** Every pair is stored under `key`. */
  predicate AllNamed(es: seq<(string, Value)>, key: string) {
    forall p :: 0 <= p < |es| ==> es[p].0 == key
  }

  /** The last pair, if any. */
  function LastPair(es: seq<(string, Value)>): (r: Option<(string, Value)>)
    ensures r.Some? <==> es != []
  {
    if es == [] then None else Some(es[|es| - 1])
  }

  /** One distinct name among the successful members: every pair has it, and the last holds member `i`'s text. */
  lemma EntriesOneFile(files: seq<(string, string)>, extract: string -> Extraction, rename: string -> string, i: nat)
    requires i < |files| && Succeeds(files[i], extract)
    requires forall j :: 0 <= j < |files| && Succeeds(files[j], extract) ==> rename(files[j].0) == rename(files[i].0)
    requires forall j :: i < j < |files| ==> !Succeeds(files[j], extract)
    ensures AllNamed(Entries(files, extract, rename), rename(files[i].0))
    ensures LastPair(Entries(files, extract, rename)) == Some((rename(files[i].0), OptStr(extract(files[i].1).content)))
  {
    EntriesOneName(files, extract, rename, rename(files[i].0));
    EntriesLast(files, extract, rename, i);
  }

  /** Pairs under one name whose last value is the text `c` yield `c` itself. */
  lemma OneNameText(es: seq<(string, Value)>, key: string, dumps: Value -> string, c: Option<string>)
    requires AllNamed(es, key) && LastPair(es) == Some((key, OptStr(c)))
    ensures ZipOutcome(Fill(es), dumps) == Extraction(true, c, None)
  {
    OneNameOutcome(es, key, dumps);
    TextOfStored(c);
  }

  lemma OneNameOutcome(es: seq<(string, Value)>, key: string, dumps: Value -> string)
    requires es != [] && forall p :: 0 <= p < |es| ==> es[p].0 == key
    ensures ZipOutcome(Fill(es), dumps) == Extraction(true, Text(es[|es| - 1].1), None)
  {
    FillOneName(es, key);
  }

  /** Stored texts come back unchanged. */
  lemma TextOfStored(c: Option<string>)
    ensures Text(OptStr(c)) == c
  {
  }

  /**
   * Two successful listed members with different names: the archive yields
   * the "files" document of the whole dictionary.
   */
  lemma ManyFilesOutcome(files: seq<(string, string)>, extract: string -> Extraction, rename: string -> string,
                         dumps: Value -> string, i: nat, j: nat)
    requires i < |files| && j < |files| && Succeeds(files[i], extract) && Succeeds(files[j], extract)
    requires rename(files[i].0) != rename(files[j].0)
    ensures var dict := Fill(Entries(files, extract, rename));
      ZipOutcome(dict, dumps) == Extraction(true, Some(dumps(Obj([("files", Obj(dict))]))), None)
  {
    var dict := Fill(Entries(files, extract, rename));
    var a, b := rename(files[i].0), rename(files[j].0);
    StoredIff(files, extract, rename, a);
    StoredIff(files, extract, rename, b);
    FillLookup(Entries(files, extract, rename), a);
    FillLookup(Entries(files, extract, rename), b);
    assert Get(dict, a).Some? && Get(dict, b).Some?;
  }

  // ---------------------------------------------------------------------------
  // Dispatch and hooks
  // ---------------------------------------------------------------------------

  predicate IsZip(input: seq<(string, Value)>) {
    GetOr(input, "source_type", Null) == Str("zip")
  }

  /** The input's stored HTML text is a string wherever the form stores one. */
  predicate HtmlContentIsText(input: seq<(string, Value)>) {
    Get(input, "html_content").None? || Get(input, "html_content").value.Str?
  }

  /** `input_data.get('html_content', '')` */
  function HtmlContent(input: seq<(string, Value)>): string
    requires HtmlContentIsText(input)
  {
    GetOr(input, "html_content", Str("")).s
  }

  /**
   * `extract_content`: a ZIP input goes to the archive extraction (its
   * `zip_bytes`, read as `members`); anything else to the single-file
   * extractor with its HTML text, empty when there is none.
   */
  method ExtractContent(input: seq<(string, Value)>, members: seq<(string, string)>,
                        extract: string -> Extraction, dumps: Value -> string)
    returns (r: Extraction)
    requires HtmlContentIsText(input)
    requires IsZip(input) ==> Get(input, "zip_bytes").Some?
    ensures IsZip(input) ==> r == ZipOutcome(ExtractedFiles(members, extract), dumps)
    ensures !IsZip(input) ==> r == extract(HtmlContent(input))
  {
    if IsZip(input) {
      r := ExtractZipContent(members, extract, dumps);
    } else {
      r := extract(HtmlContent(input));
    }
  }

  /** The stored file count is a number wherever the form stores one. */
  predicate FileCountIsNumber(input: seq<(string, Value)>) {
    Get(input, "file_count").None? || Get(input, "file_count").value.Num?
  }

  /** `input_data.get('file_count', 0)` */
  function FileCount(input: seq<(string, Value)>): int
    requires FileCountIsNumber(input)
  {
    GetOr(input, "file_count", Num(0)).n
  }

  /** `is_multi_file_input`: a ZIP counted with more than one HTML member. */
  function IsMultiFileInput(input: seq<(string, Value)>): bool
    requires FileCountIsNumber(input)
  {
    IsZip(input) && FileCount(input) > 1
  }

  /** `get_file_list`: placeholder names "File 1 (inside ZIP)" … for a multi-file ZIP, none otherwise. */
  function FileList(input: seq<(string, Value)>): (r: seq<string>)
    requires FileCountIsNumber(input)
    ensures IsMultiFileInput(input) ==> |r| == FileCount(input)
    ensures !IsMultiFileInput(input) ==> r == []
    ensures forall i :: 0 <= i < |r| ==> r[i] == "File " + NatToString(i + 1) + " (inside ZIP)"
  {
    if IsMultiFileInput(input) then
      seq(FileCount(input), i requires 0 <= i < FileCount(input) => "File " + NatToString(i + 1) + " (inside ZIP)")
    else []
  }

  /** The list is non-empty exactly for multi-file input, and then has at least two names. */
  lemma FileListIffMulti(input: seq<(string, Value)>)
    requires FileCountIsNumber(input)
    ensures FileList(input) != [] <==> IsMultiFileInput(input)
    ensures IsMultiFileInput(input) ==> |FileList(input)| >= 2
  {
  }

  /** Off ZIP input the feature's hooks agree with the inherited defaults. */
  lemma HooksDefaultOffZip(input: seq<(string, Value)>)
    requires FileCountIsNumber(input) && !IsZip(input)
    ensures IsMultiFileInput(input) == BaseFeature.IsMultiFileInput(input)
    ensures FileList(input) == BaseFeature.FileList(input)
  {
  }

  /** `get_source_description`: the filename if it is truthy, else "HTML_Content". */
  function SourceDescription(input: seq<(string, Value)>): (r: Value)
    ensures Truthy(GetOr(input, "filename", Null)) ==> Get(input, "filename") == Some(r)
    ensures !Truthy(GetOr(input, "filename", Null)) ==> r == Str("HTML_Content")
  {
    if Truthy(GetOr(input, "filename", Null)) then Get(input, "filename").value else Str("HTML_Content")
  }

  // ---------------------------------------------------------------------------
  // Pasted HTML
  // ---------------------------------------------------------------------------

  /** Pasted text is accepted when, stripped, it is longer than ten characters. */
  predicate PasteAccepted(text: string) {
    text != "" && |Strip(text)| > 10
  }

  /** The input the paste form returns for `text`. */
  function PasteInput(text: string): seq<(string, Value)> {
    var valid := PasteAccepted(text);
    PasteForm(valid, text, if valid then "" else if text != "" then TooShort else "")
  }

  /** The fields of the paste form: the method, the text when accepted, then the verdict. */
  function PasteForm(valid: bool, text: string, error: string): seq<(string, Value)> {
    if valid then
      [("input_method", Str(PasteMethod)), ("html_content", Str(text)), ("source_type", Str("paste")),
       ("is_valid", Bool(true)), ("error_message", Str(error))]
    else
      [("input_method", Str(PasteMethod)), ("is_valid", Bool(false)), ("error_message", Str(error))]
  }

  /** Validation of the form returns its own verdict: accepted, or refused with its message. */
  lemma PasteFormValidation(valid: bool, text: string, error: string)
    ensures BaseFeature.ValidateInput(PasteForm(valid, text, error)) == (valid, if valid then Str("") else Str(error))
  {
    var input := PasteForm(valid, text, error);
    var n := |input|;
    assert forall j :: 0 <= j < n - 2 ==> input[j].0 != "is_valid" && input[j].0 != "error_message";
    GetAt(input, "is_valid", n - 2);
    GetAt(input, "error_message", n - 1);
  }

  /**
   * Validation of a paste accepts exactly the texts longer than ten
   * characters once stripped; a short non-empty text is refused as too short
   * and an empty one with an empty message.
   */
  lemma PasteValidation(text: string)
    ensures ValidateInput(text).0 <==> |Strip(text)| > 10
    ensures PasteAccepted(text) ==> ValidateInput(text).1 == Str("")
    ensures !PasteAccepted(text) && text != "" ==> ValidateInput(text).1 == Str(TooShort)
    ensures text == "" ==> ValidateInput(text).1 == Str("")
  {
    var valid := PasteAccepted(text);
    PasteFormValidation(valid, text, if valid then "" else if text != "" then TooShort else "");
  }

  /** `validate_input` of what the paste form returns. */
  function ValidateInput(text: string): (bool, Value) {
    BaseFeature.ValidateInput(PasteInput(text))
  }

  /** An accepted paste is single-file input whose extraction runs on the pasted text. */
  lemma PasteDispatch(text: string)
    requires PasteAccepted(text)
    ensures HtmlContentIsText(PasteInput(text)) && FileCountIsNumber(PasteInput(text))
    ensures !IsZip(PasteInput(text)) && !IsMultiFileInput(PasteInput(text))
    ensures HtmlContent(PasteInput(text)) == text
  {
    assert PasteInput(text) == PasteForm(true, text, "");
    AcceptedFormDispatch(text);
  }

  lemma AcceptedFormDispatch(text: string)
    ensures var input := PasteForm(true, text, "");
      && HtmlContentIsText(input) && FileCountIsNumber(input)
      && !IsZip(input) && !IsMultiFileInput(input)
      && HtmlContent(input) == text
  {
    var input := PasteForm(true, text, "");
    GetAt(input, "html_content", 1);
    GetAt(input, "source_type", 2);
    GetMissing(input, "file_count");
  }
}
