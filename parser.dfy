/**
 * core/parser.py: turning the auditor's raw reply into violations.
 * The reply is cut down to its JSON list, parsed (once more after the
 * tab/carriage-return repair if the first parse fails) and the list of
 * sections is flattened into `Violation` records with defaults.
 * `json.loads` is the parameter `loads`; `None` stands for a decode error.
 */
module Parser {
  import opened Wrappers
  import opened Strings
  import Json
  import opened Models

  // ---------------------------------------------------------------------------
  // _extract_json_structure
  // ---------------------------------------------------------------------------

  const Fence: string := "```"

  /**
   * Where the `[` of a fenced block opening at `p` sits: three backticks, an
   * optional `json` tag and whitespace come first.
   */
  function FenceOpen(t: string, p: nat): (r: Option<nat>)
    requires p <= |t|
    ensures r.Some? ==> p + 3 <= r.value < |t| && t[r.value] == '['
  {
    if !StartsWith(t[p..], Fence) then None
    else
      var a := p + 3;
      var b := if StartsWith(t[a..], "json") then a + 4 else a;
      var c := b + SpaceLen(t[b..]);
      if c < |t| && t[c] == '[' then Some(c) else None
  }

  /** A `]` at `q` followed by whitespace and three backticks. */
  predicate FenceCloseAt(t: string, q: nat)
    requires q < |t|
  {
    t[q] == ']' && StartsWith(t[q + 1 + SpaceLen(t[q + 1..])..], Fence)
  }

  /** The lazy body of the fenced pattern: the first closing position from `q` on. */
  function FirstClose(t: string, q: nat): (r: Option<nat>)
    requires q <= |t|
    ensures r.Some? ==> q <= r.value < |t| && FenceCloseAt(t, r.value)
    ensures r.Some? ==> forall k :: q <= k < r.value ==> !FenceCloseAt(t, k)
    ensures r.None? ==> forall k :: q <= k < |t| ==> !FenceCloseAt(t, k)
    decreases |t| - q
  {
    if q == |t| then None
    else if FenceCloseAt(t, q) then Some(q)
    else FirstClose(t, q + 1)
  }

  /** Strategy 1, a leftmost search from `p`: the bracketed body of the first fenced block. */
  function FencedBlock(t: string, p: nat): (r: Option<string>)
    requires p <= |t|
    ensures r.Some? ==> |r.value| >= 2 && r.value[0] == '[' && r.value[|r.value| - 1] == ']'
    ensures r.Some? ==> Contains(t, r.value)
    decreases |t| - p
  {
    if p == |t| then None
    else
      var body := match FenceOpen(t, p) case Some(c) => FenceBody(t, c) case None => None;
      if body.Some? then body else FencedBlock(t, p + 1)
  }

  /** The bracketed body opening at `c`, up to the first closing fence. */
  function FenceBody(t: string, c: nat): (r: Option<string>)
    requires c < |t| && t[c] == '['
    ensures r.Some? ==> |r.value| >= 2 && r.value[0] == '[' && r.value[|r.value| - 1] == ']'
    ensures r.Some? ==> Contains(t, r.value)
  {
    match FirstClose(t, c + 1)
    case Some(q) =>
      assert OccursAt(t, t[c..q + 1], c);
      Some(t[c..q + 1])
    case None => None
  }

  /**
   * Strategy 2, `^\s*(\[[\s\S]*\])\s*$`: the span from the `[` after the leading
   * whitespace to the last non-whitespace character, which must be `]`.
   */
  function BracketSpan(t: string): (r: Option<string>)
    ensures r.Some? ==> |r.value| >= 2 && r.value[0] == '[' && r.value[|r.value| - 1] == ']'
    ensures r.Some? ==> Contains(t, r.value)
  {
    var i := SpaceLen(t);
    var e := |RStrip(t)|;
    if i + 1 < e && t[i] == '[' && t[e - 1] == ']' then
      assert OccursAt(t, t[i..e], i);
      Some(t[i..e])
    else None
  }

  /** Strategy 3: the text itself if it starts with `[` and ends with `]`. */
  function Fallback(t: string): (r: Option<string>)
    ensures r.Some? <==> t != [] && t[0] == '[' && t[|t| - 1] == ']'
    ensures r.Some? ==> r.value == t
  {
    if StartsWith(t, "[") && EndsWith(t, "]") then Some(t) else None
  }

  /** `_extract_json_structure(text)` */
  function ExtractJsonStructure(text: string): (r: Option<string>)
    ensures text == [] ==> r.None?
    ensures r.Some? ==> r.value != [] && r.value[0] == '[' && r.value[|r.value| - 1] == ']'
    ensures r.Some? ==> Contains(Strip(text), r.value)
  {
    if text == [] then None else Strategies(Strip(text))
  }

  /** The three strategies in order on the stripped text: the first that matches wins. */
  function Strategies(t: string): (r: Option<string>)
    ensures r.Some? ==> r.value != [] && r.value[0] == '[' && r.value[|r.value| - 1] == ']'
    ensures r.Some? ==> Contains(t, r.value)
  {
    var fenced := FencedBlock(t, 0);
    if fenced.Some? then fenced
    else
      var span := BracketSpan(t);
      if span.Some? then span
      else
        var r := Fallback(t);
        if r.Some? then
          assert t[0..|t|] == t && OccursAt(t, t, 0);
          r
        else r
  }

  /** On stripped text the bracket-span strategy only ever returns the text itself. */
  lemma BracketSpanOfStripped(t: string)
    requires t == [] || (!IsSpace(t[0]) && !IsSpace(t[|t| - 1]))
    ensures BracketSpan(t).Some? ==> BracketSpan(t) == Fallback(t)
  {
    if t != [] {
      assert SpaceLen(t) == 0;
      var r := RStrip(t);
      assert |r| == |t|;
      assert t[0..|t|] == t;
    }
  }

  /**
   * Without a fenced block, strategies 2 and 3 agree: the result is the stripped
   * text exactly when it starts with `[` and ends with `]`.
   */
  lemma ExtractWithoutFence(text: string)
    requires text != [] && FencedBlock(Strip(text), 0).None?
    ensures ExtractJsonStructure(text) == Fallback(Strip(text))
  {
    BracketSpanOfStripped(Strip(text));
  }

  // ---------------------------------------------------------------------------
  // _heuristic_fix_json
  // ---------------------------------------------------------------------------

  /** `s.replace(c, rep)` for a one-character pattern, one character at a time. */
  function ReplaceChar(s: string, c: char, rep: string): (r: string)
    ensures c !in rep ==> c !in r
    ensures forall d :: d in r ==> d in s || d in rep
    ensures c !in s ==> r == s
    decreases |s|
  {
    if s == [] then []
    else (if s[0] == c then rep else [s[0]]) + ReplaceChar(s[1..], c, rep)
  }

  lemma {:induction false} ReplaceAllOfChar(s: string, c: char, rep: string)
    ensures ReplaceAll(s, [c], rep) == ReplaceChar(s, c, rep)
    decreases |s|
  {
    if s != [] {
      ReplaceAllOfChar(s[1..], c, rep);
      assert s[..1] == [s[0]];
      assert s[1..] == s[|[c]|..];
    }
  }

  /** `_heuristic_fix_json(bad_json)` */
  function HeuristicFixJson(s: string): (r: string)
    ensures '\t' !in r && '\r' !in r
  {
    ReplaceAllOfChar(s, '\t', "    ");
    var noTabs := ReplaceAll(s, "\t", "    ");
    ReplaceAllOfChar(noTabs, '\r', "");
    assert '\t' !in ReplaceChar(noTabs, '\r', "");
    ReplaceAll(noTabs, "\r", "")
  }

  /** Text with neither tabs nor carriage returns is left alone. */
  lemma HeuristicFixIdentity(s: string)
    requires '\t' !in s && '\r' !in s
    ensures HeuristicFixJson(s) == s
  {
    ReplaceAllOfChar(s, '\t', "    ");
    ReplaceAllOfChar(s, '\r', "");
  }

  lemma HeuristicFixIdempotent(s: string)
    ensures HeuristicFixJson(HeuristicFixJson(s)) == HeuristicFixJson(s)
  {
    HeuristicFixIdentity(HeuristicFixJson(s));
  }

  // ---------------------------------------------------------------------------
  // _map_data_to_violations
  // ---------------------------------------------------------------------------

  /**
   * One entry of a section's `violations` list: `None` when it is skipped, because
   * it is not a dictionary or because building its severity raised.
   */
  function MapEntry(e: Json.Value): (r: Option<Violation>)
    ensures r.Some? <==> e.Obj? && FromString(Json.GetOr(e.fields, "severity", Json.Str("medium"))).Some?
    ensures r.Some? ==> r.value.sourceAuditId.None?
  {
    if !e.Obj? then None
    else
      var fs := e.fields;
      match FromString(Json.GetOr(fs, "severity", Json.Str("medium")))
      case None => None
      case Some(sev) =>
        Some(BuildViolation(fs, sev))
  }

  /** The `Violation(...)` call: every missing key takes its default; `str` is applied to the guideline section. */
  function BuildViolation(fs: seq<(string, Json.Value)>, sev: Severity): (v: Violation)
    ensures v.severity == sev && v.sourceAuditId.None?
  {
    Violation(
      Json.GetOr(fs, "problematic_text", Json.Str("N/A")),
      Json.GetOr(fs, "violation_type", Json.Str("Unknown")),
      Json.GetOr(fs, "explanation", Json.Str("No explanation")),
      Json.PyStr(Json.GetOr(fs, "guideline_section", Json.Str("N/A"))),
      Json.GetOr(fs, "page_number", Json.Num(0)),
      sev,
      Json.GetOr(fs, "suggested_rewrite", Json.Str("N/A")),
      Json.GetOr(fs, "translation", Json.Null),
      Json.GetOr(fs, "rewrite_translation", Json.Null),
      Json.GetOr(fs, "chunk_language", Json.Str("English")),
      None)
  }

  /** The violations a list of entries contributes, in entry order. */
  function Entries(es: seq<Json.Value>): (r: seq<Violation>)
    ensures |r| <= |es|
    decreases |es|
  {
    if es == [] then []
    else
      Entries(es[..|es| - 1]) + (match MapEntry(es[|es| - 1]) case Some(v) => [v] case None => [])
  }

  /** The entries of one section that are looked at: only a non-empty `violations` list. */
  function SectionEntries(section: Json.Value): (r: seq<Json.Value>)
    ensures r != [] ==> section.Obj? && Json.Get(section.fields, "violations") == Some(Json.Arr(r))
  {
    if !section.Obj? then []
    else
      match Json.Get(section.fields, "violations")
      case None => []
      case Some(raw) =>
        if raw.Str? || !Json.Truthy(raw) then []
        else if raw.Arr? then raw.items
        else []
  }

  /** The violations one section contributes. */
  function SectionViolations(section: Json.Value): seq<Violation> {
    Entries(SectionEntries(section))
  }

  /** The violations of a list of sections, in section order and then entry order. */
  function Sections(ss: seq<Json.Value>): seq<Violation>
    decreases |ss|
  {
    if ss == [] then []
    else Sections(ss[..|ss| - 1]) + SectionViolations(ss[|ss| - 1])
  }

  /** What `_map_data_to_violations` returns: only a top-level list is read. */
  function MapData(data: Json.Value): (r: seq<Violation>)
    ensures !data.Arr? ==> r == []
  {
    if data.Arr? then Sections(data.items) else []
  }

  /** `_map_data_to_violations(data)` */
  method MapDataToViolations(data: Json.Value) returns (violations: seq<Violation>)
    ensures violations == MapData(data)
  {
    violations := [];
    if !data.Arr? {
      return;
    }
    var sections := data.items;
    for i := 0 to |sections|
      invariant violations == Sections(sections[..i])
    {
      SectionsSnoc(sections, i);
      violations := AppendSection(violations, sections[i]);
    }
    assert sections[..|sections|] == sections;
  }

  /** One section of the outer loop: a dictionary whose `violations` is a non-empty list adds its entries. */
  method AppendSection(acc: seq<Violation>, section: Json.Value) returns (r: seq<Violation>)
    ensures r == acc + SectionViolations(section)
  {
    r := acc;
    assert acc + [] == acc;
    if !section.Obj? {
      return;
    }
    var rawViolations := Json.Get(section.fields, "violations");
    if rawViolations.None? || rawViolations.value.Str? || !Json.Truthy(rawViolations.value) {
      return;
    }
    if rawViolations.value.Arr? {
      var entries := rawViolations.value.items;
      assert SectionEntries(section) == entries;
      r := AppendEntries(acc, entries);
    }
  }

  /** The inner loop: each dictionary entry whose severity can be built adds one violation. */
  method AppendEntries(acc: seq<Violation>, entries: seq<Json.Value>) returns (r: seq<Violation>)
    ensures r == acc + Entries(entries)
  {
    r := acc;
    assert acc + [] == acc;
    for k := 0 to |entries|
      invariant r == acc + Entries(entries[..k])
    {
      EntriesSnoc(entries, k);
      var entry := entries[k];
      if entry.Obj? {
        var fs := entry.fields;
        var severity := FromString(Json.GetOr(fs, "severity", Json.Str("medium")));
        if severity.Some? {
          var violation := BuildViolation(fs, severity.value);
          assert MapEntry(entry) == Some(violation);
          assert acc + (Entries(entries[..k]) + [violation]) == r + [violation];
          r := r + [violation];
        } else {
          assert MapEntry(entry).None?;
        }
      }
    }
    assert entries[..|entries|] == entries;
  }

  lemma SectionsSnoc(ss: seq<Json.Value>, i: nat)
    requires i < |ss|
    ensures Sections(ss[..i + 1]) == Sections(ss[..i]) + SectionViolations(ss[i])
  {
    assert ss[..i + 1][..i] == ss[..i];
  }

  lemma EntriesSnoc(es: seq<Json.Value>, k: nat)
    requires k < |es|
    ensures MapEntry(es[k]).None? ==> Entries(es[..k + 1]) == Entries(es[..k])
    ensures MapEntry(es[k]).Some? ==> Entries(es[..k + 1]) == Entries(es[..k]) + [MapEntry(es[k]).value]
  {
    assert es[..k + 1][..k] == es[..k];
    assert Entries(es[..k]) + [] == Entries(es[..k]);
  }

  lemma {:induction false} EntriesAppend(a: seq<Json.Value>, b: seq<Json.Value>)
    ensures Entries(a + b) == Entries(a) + Entries(b)
    decreases |b|
  {
    if b != [] {
      var b' := b[..|b| - 1];
      assert (a + b)[..|a + b| - 1] == a + b';
      EntriesAppend(a, b');
    } else {
      assert a + b == a;
    }
  }

  lemma {:induction false} SectionsAppend(a: seq<Json.Value>, b: seq<Json.Value>)
    ensures Sections(a + b) == Sections(a) + Sections(b)
    decreases |b|
  {
    if b != [] {
      var b', x := b[..|b| - 1], b[|b| - 1];
      var ab := a + b;
      assert ab[..|ab| - 1] == a + b' && ab[|ab| - 1] == x;
      assert Sections(ab) == Sections(a + b') + SectionViolations(x);
      assert Sections(b) == Sections(b') + SectionViolations(x);
      SectionsAppend(a, b');
      AppendAssoc(Sections(a), Sections(b'), SectionViolations(x));
    } else {
      assert a + b == a;
      AppendNothing(Sections(a));
    }
  }

  /** Every emitted violation comes from a dictionary entry; none carries an audit id yet. */
  lemma {:induction false} EntriesFromDicts(es: seq<Json.Value>)
    ensures forall v :: v in Entries(es) ==> v.sourceAuditId.None?
    ensures (forall k :: 0 <= k < |es| ==> !es[k].Obj?) ==> Entries(es) == []
    decreases |es|
  {
    if es != [] {
      EntriesFromDicts(es[..|es| - 1]);
    }
  }

  /** An empty dictionary entry takes every default. */
  lemma MapEntryDefaults()
    ensures MapEntry(Json.Obj([])) == Some(Violation(
      Json.Str("N/A"), Json.Str("Unknown"), Json.Str("No explanation"), "N/A", Json.Num(0),
      Medium, Json.Str("N/A"), Json.Null, Json.Null, Json.Str("English"), None))
  {
    FromStringRoundTrip(Medium);
  }

  /** An entry whose severity is a truthy non-string is skipped on its own. */
  lemma MapEntrySkipsBadSeverity(fs: seq<(string, Json.Value)>, x: Json.Value)
    requires Json.Get(fs, "severity") == Some(x) && Json.Truthy(x) && !x.Str?
    ensures MapEntry(Json.Obj(fs)) == None
  {
  }

  lemma ViolationKeysDistinct()
    ensures forall i, j :: 0 <= i < j < |ViolationKeys| ==> ViolationKeys[i] != ViolationKeys[j]
  {
  }

  /** Looking a field up in `to_dict` finds the field. */
  lemma ToDictGet(v: Violation, i: nat)
    requires i < 10
    ensures Json.Get(ToDict(v).fields, ViolationKeys[i]) == Some(ToDict(v).fields[i].1)
  {
    ViolationKeysDistinct();
    Json.GetAt(ToDict(v).fields, ViolationKeys[i], i);
  }

  /** Reading back what `to_dict` wrote gives the violation again, without its audit id. */
  lemma MapEntryOfToDict(v: Violation)
    ensures MapEntry(ToDict(v)) == Some(v.(sourceAuditId := None))
  {
    var fs := ToDict(v).fields;
    ToDictGet(v, 0);
    ToDictGet(v, 1);
    ToDictGet(v, 2);
    ToDictGet(v, 3);
    ToDictGet(v, 4);
    ToDictGet(v, 5);
    ToDictGet(v, 6);
    ToDictGet(v, 7);
    ToDictGet(v, 8);
    ToDictGet(v, 9);
    FromStringRoundTrip(v.severity);
  }

  function ToDicts(vs: seq<Violation>): (r: seq<Json.Value>)
    ensures |r| == |vs| && forall k :: 0 <= k < |vs| ==> r[k] == ToDict(vs[k])
  {
    seq(|vs|, k requires 0 <= k < |vs| => ToDict(vs[k]))
  }

  function WithoutAuditIds(vs: seq<Violation>): (r: seq<Violation>)
    ensures |r| == |vs| && forall k :: 0 <= k < |vs| ==> r[k] == vs[k].(sourceAuditId := None)
  {
    seq(|vs|, k requires 0 <= k < |vs| => vs[k].(sourceAuditId := None))
  }

  /** The entries written by `to_dict` map back to the same violations, in order, without their audit ids. */
  lemma {:induction false} EntriesOfToDicts(vs: seq<Violation>)
    ensures Entries(ToDicts(vs)) == WithoutAuditIds(vs)
    decreases |vs|
  {
    if vs != [] {
      var n := |vs| - 1;
      var ds := ToDicts(vs);
      ToDictsSnoc(vs);
      EntriesOfToDicts(vs[..n]);
      MapEntryOfToDict(vs[n]);
      EntriesSnoc(ds, n);
      assert ds[..n + 1] == ds;
    }
  }

  lemma ToDictsSnoc(vs: seq<Violation>)
    requires vs != []
    ensures var n := |vs| - 1;
      && ToDicts(vs)[..n] == ToDicts(vs[..n]) && ToDicts(vs)[n] == ToDict(vs[n])
      && WithoutAuditIds(vs) == WithoutAuditIds(vs[..n]) + [vs[n].(sourceAuditId := None)]
  {
    var n := |vs| - 1;
    assert ToDicts(vs)[..n] == ToDicts(vs[..n]);
    assert WithoutAuditIds(vs) == WithoutAuditIds(vs[..n]) + [vs[n].(sourceAuditId := None)];
  }

  /** One section holding `to_dict` of each violation maps back to the same violations. */
  lemma MapDataRoundTrip(vs: seq<Violation>)
    ensures MapData(Json.Arr([Json.Obj([("violations", Json.Arr(ToDicts(vs)))])])) == WithoutAuditIds(vs)
  {
    var section := Json.Obj([("violations", Json.Arr(ToDicts(vs)))]);
    assert Json.Get(section.fields, "violations") == Some(Json.Arr(ToDicts(vs)));
    assert SectionEntries(section) == ToDicts(vs);
    EntriesOfToDicts(vs);
    assert [section][..0] == [];
    assert Sections([section]) == Sections([]) + SectionViolations(section);
  }

  // ---------------------------------------------------------------------------
  // parse_to_violations
  // ---------------------------------------------------------------------------

  /** The texts handed to `json.loads`, in order: the extracted list, then its repaired form if the first parse failed. */
  function LoadAttempts(raw: string, loads: string -> Option<Json.Value>): (a: seq<string>)
    ensures |a| <= 2
    ensures ExtractJsonStructure(raw).None? <==> a == []
    ensures a != [] ==> a[0] == ExtractJsonStructure(raw).value
    ensures |a| == 2 <==> a != [] && loads(a[0]).None?
    ensures |a| == 2 ==> a[1] == HeuristicFixJson(a[0])
  {
    match ExtractJsonStructure(raw)
    case None => []
    case Some(c) => if loads(c).Some? then [c] else [c, HeuristicFixJson(c)]
  }

  /** The violations of a reply: those of the last text loaded, none if no text loads. */
  function ParsedViolations(raw: string, loads: string -> Option<Json.Value>): seq<Violation>
  {
    var a := LoadAttempts(raw, loads);
    if a == [] || loads(a[|a| - 1]).None? then [] else MapData(loads(a[|a| - 1]).value)
  }

  /** `parse_to_violations(raw_text)` */
  method ParseToViolations(raw: string, loads: string -> Option<Json.Value>) returns (violations: seq<Violation>)
    ensures violations == ParsedViolations(raw, loads)
  {
    // The extraction never yields empty text, so `not cleaned` is only the no-match case.
    var cleaned := ExtractJsonStructure(raw);
    if cleaned.None? {
      return [];
    }
    var c := cleaned.value;
    var data := loads(c);
    if data.Some? {
      assert LoadAttempts(raw, loads) == [c];
    } else {
      var healed := HeuristicFixJson(c);
      assert LoadAttempts(raw, loads) == [c, healed];
      data := loads(healed);
      if data.None? {
        return [];
      }
    }
    violations := MapDataToViolations(data.value);
  }
}
