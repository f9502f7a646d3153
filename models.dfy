/**
 * The records the audit pipeline passes around (core/models.py): severity
 * levels, one violation reported by the auditor, the final analysis result
 * and the per-file status shown to the user.
 */
module Models {
  import opened Wrappers
  import opened Strings
  import Json

  datatype Severity = Critical | High | Medium | Low {
    /** The enum member's string value. */
    function Name(): string {
      match this
      case Critical => "critical"
      case High => "high"
      case Medium => "medium"
      case Low => "low"
    }
  }

  /** `Severity(value)` on a string that is already normalised; unknown values fall back to MEDIUM. */
  function SeverityOfName(t: string): (r: Severity)
    ensures t == r.Name() || (r == Medium && forall s: Severity :: s.Name() != t)
  {
    if t == "critical" then Critical
    else if t == "high" then High
    else if t == "medium" then Medium
    else if t == "low" then Low
    else Medium
  }

  /**
   * `Severity.from_string(value)`. `value` comes from parsed JSON, so it need not
   * be a string: a truthy value of another type has no `lower` and the call
   * raises; that outcome is `None`.
   */
  function FromString(v: Json.Value): (r: Option<Severity>)
    ensures !Json.Truthy(v) ==> r == Some(Medium)
    ensures r.None? <==> Json.Truthy(v) && !v.Str?
    ensures v.Str? && r.Some? && r.value != Medium ==> Strip(Lower(v.s)) == r.value.Name()
  {
    if !Json.Truthy(v) then Some(Medium)
    else if v.Str? then Some(SeverityOfName(Strip(Lower(v.s))))
    else None
  }

  lemma SeverityOfOwnName(s: Severity)
    ensures SeverityOfName(s.Name()) == s
  {
  }

  /** A non-empty string whose lower-cased, stripped form names a level reads as that level. */
  lemma FromStringOfNormalised(s: Severity, t: string)
    requires t != [] && Strip(Lower(t)) == s.Name()
    ensures FromString(Json.Str(t)) == Some(s)
  {
    SeverityOfOwnName(s);
  }

  /** Every severity survives the trip through its string value. */
  lemma FromStringRoundTrip(s: Severity)
    ensures FromString(Json.Str(s.Name())) == Some(s)
  {
    var n := s.Name();
    assert Lower(n) == n;
    StripPadded([], n, []);
    assert [] + n + [] == n;
    FromStringOfNormalised(s, n);
  }

  /** Case and surrounding whitespace do not matter: "CRITICAL " is critical. */
  lemma FromStringIgnoresCaseAndSpace(s: Severity, pre: string, u: string, post: string)
    requires AllSpace(pre) && AllSpace(post) && Lower(u) == s.Name()
    ensures FromString(Json.Str(pre + u + post)) == Some(s)
  {
    var n := s.Name();
    LowerPadded(pre, u, post);
    StripPadded(pre, n, post);
    assert |u| == |n| > 0;
    FromStringOfNormalised(s, pre + u + post);
  }

  lemma FromStringExample()
    ensures FromString(Json.Str("CRITICAL ")) == Some(Critical)
  {
    assert Lower("CRITICAL") == "critical";
    assert "CRITICAL " == [] + "CRITICAL" + " ";
    FromStringIgnoresCaseAndSpace(Critical, [], "CRITICAL", " ");
  }

  /** A string that does not name a level, once normalised, reads as MEDIUM. */
  lemma FromStringUnknown(t: string)
    requires forall s: Severity :: s.Name() != Strip(Lower(t))
    ensures FromString(Json.Str(t)) == Some(Medium)
  {
  }

  /**
   * One violation. The fields other than `guideline_section` (built with `str`)
   * and `severity` hold whatever JSON value the auditor produced.
   */
  datatype Violation = Violation(
    problematicText: Json.Value,
    violationType: Json.Value,
    explanation: Json.Value,
    guidelineSection: string,
    pageNumber: Json.Value,
    severity: Severity,
    suggestedRewrite: Json.Value,
    translation: Json.Value,
    rewriteTranslation: Json.Value,
    chunkLanguage: Json.Value,
    sourceAuditId: Option<int>)

  /** A violation built from the seven required fields, with the declared defaults for the rest. */
  function NewViolation(
    problematicText: Json.Value, violationType: Json.Value, explanation: Json.Value,
    guidelineSection: string, pageNumber: Json.Value, severity: Severity,
    suggestedRewrite: Json.Value): (v: Violation)
    ensures v.translation == Json.Null && v.rewriteTranslation == Json.Null
    ensures v.chunkLanguage == Json.Str("English") && v.sourceAuditId == None
    ensures v.severity == severity && v.guidelineSection == guidelineSection
  {
    Violation(problematicText, violationType, explanation, guidelineSection, pageNumber,
      severity, suggestedRewrite, Json.Null, Json.Null, Json.Str("English"), None)
  }

  const ViolationKeys: seq<string> := [
    "problematic_text", "violation_type", "explanation", "guideline_section",
    "page_number", "severity", "suggested_rewrite", "translation",
    "rewrite_translation", "chunk_language"]

  /** `Violation.to_dict()`: ten keys in declaration order, severity as its string value. */
  function ToDict(v: Violation): (d: Json.Value)
    ensures d.Obj? && |d.fields| == 10
    ensures forall i :: 0 <= i < 10 ==> d.fields[i].0 == ViolationKeys[i]
    ensures d.fields[3].1 == Json.Str(v.guidelineSection)
    ensures d.fields[5].1 == Json.Str(v.severity.Name())
  {
    var d := Json.Obj([
      ("problematic_text", v.problematicText),
      ("violation_type", v.violationType),
      ("explanation", v.explanation),
      ("guideline_section", Json.Str(v.guidelineSection)),
      ("page_number", v.pageNumber),
      ("severity", Json.Str(v.severity.Name())),
      ("suggested_rewrite", v.suggestedRewrite),
      ("translation", v.translation),
      ("rewrite_translation", v.rewriteTranslation),
      ("chunk_language", v.chunkLanguage)]);
    d
  }

  /** The result of one analysis run. Timings, the Word document and debug data are not modelled. */
  datatype AnalysisResult = AnalysisResult(
    success: bool,
    report: Option<string>,
    violations: seq<Violation>,
    rawResponse: Option<seq<Json.Value>>,
    totalViolationsFound: int,
    uniqueViolations: int,
    error: Option<string>)

  /** `AnalysisResult(success)` with every other field at its default. */
  function NewAnalysisResult(success: bool): (r: AnalysisResult)
    ensures r.success == success && r.violations == [] && r.report.None? && r.error.None?
    ensures r.totalViolationsFound == 0 && r.uniqueViolations == 0 && r.rawResponse.None?
  {
    AnalysisResult(success, None, [], None, 0, 0, None)
  }

  /** The status row of one uploaded file. The start time is not modelled. */
  datatype FileState = FileState(
    filename: string,
    status: string,
    result: Option<AnalysisResult>,
    errorMessage: Option<string>)
}
