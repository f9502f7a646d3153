/**
 * utils/helpers.py: whitespace normalisation, OS-safe file names and the
 * URL pattern with the domain extraction built on it.
 */
module Helpers {
  import opened Wrappers
  import opened Strings

  // ---------------------------------------------------------------------------
  // clean_text
  // ---------------------------------------------------------------------------

  /** `re.sub(r'\s+', c, s)`: every maximal run of whitespace becomes the one character `c`. */
  function SpaceRuns(s: string, c: char): (r: string)
    ensures |r| <= |s|
    ensures forall k :: 0 <= k < |r| ==> r[k] == c || (!IsSpace(r[k]) && r[k] in s)
    decreases |s|
  {
    if s == [] then []
    else if IsSpace(s[0]) then
      var t := s[SpaceLen(s)..];
      assert forall k :: 0 <= k < |t| ==> t[k] == s[SpaceLen(s) + k];
      [c] + SpaceRuns(t, c)
    else [s[0]] + SpaceRuns(s[1..], c)
  }

  /** Collapsing the runs of an all-whitespace string leaves only copies of `c`. */
  lemma {:induction false} SpaceRunsOfSpaces(s: string, c: char)
    requires AllSpace(s)
    ensures forall k :: 0 <= k < |SpaceRuns(s, c)| ==> SpaceRuns(s, c)[k] == c
    decreases |s|
  {
    if s != [] {
      var t := s[SpaceLen(s)..];
      assert SpaceLen(s) == |s|;
      SpaceRunsOfSpaces(t, c);
    }
  }

  lemma {:induction false} SpaceLenOfGap(g: string, v: string)
    requires AllSpace(g)
    requires v == [] || !IsSpace(v[0])
    ensures SpaceLen(g + v) == |g|
    decreases |g|
  {
    if g == [] {
      assert g + v == v;
    } else {
      assert (g + v)[1..] == g[1..] + v;
      SpaceLenOfGap(g[1..], v);
    }
  }

  /** What `clean_text` promises: no outer whitespace, and every inner whitespace run is one space. */
  predicate IsClean(r: string) {
    && (r == [] || (!IsSpace(r[0]) && !IsSpace(r[|r| - 1])))
    && (forall k :: 0 <= k < |r| && IsSpace(r[k]) ==> r[k] == ' ')
    && (forall k :: 0 <= k < |r| - 1 && r[k] == ' ' ==> r[k + 1] != ' ')
  }

  /** `clean_text(text)`: strip, then collapse whitespace runs to one space. */
  function CleanText(text: string): (r: string)
    ensures r == "" <==> AllSpace(text)
    ensures |r| <= |text|
  {
    if text == "" then ""
    else
      CleanTextEmpty(text);
      SpaceRuns(Strip(text), ' ')
  }

  lemma CleanTextEmpty(text: string)
    ensures SpaceRuns(Strip(text), ' ') == "" <==> AllSpace(text)
  {
    SpaceRunsOfStripped(Strip(text));
    WordsOfStrip(text);
    WordsEmpty(text);
    JoinOfWordsIsClean(Words(text));
  }

  /** The result is stripped and its only whitespace is single spaces. */
  lemma CleanTextIsClean(text: string)
    ensures IsClean(CleanText(text))
  {
    if text != "" {
      SpaceRunsOfStripped(Strip(text));
      WordsOfStrip(text);
      JoinOfWordsIsClean(Words(text));
    }
  }

  /** Length of the longest prefix of `t` without whitespace. */
  function WordLen(t: string): (n: nat)
    ensures n <= |t| && NoSpace(t[..n])
    ensures n < |t| ==> IsSpace(t[n])
    ensures t != [] && !IsSpace(t[0]) ==> n >= 1
    decreases |t|
  {
    if t == [] || IsSpace(t[0]) then 0
    else
      var n := 1 + WordLen(t[1..]);
      assert t[..n] == [t[0]] + t[1..][..n - 1];
      n
  }

  /** `s.split()`: the maximal whitespace-free pieces of `s`, in order. */
  function Words(s: string): (ws: seq<string>)
    ensures forall k :: 0 <= k < |ws| ==> ws[k] != [] && NoSpace(ws[k])
    decreases |s|
  {
    if s == [] then []
    else if IsSpace(s[0]) then Words(s[1..])
    else
      var n := WordLen(s);
      [s[..n]] + Words(s[n..])
  }

  lemma {:induction false} WordLenAppend(t: string, b: string)
    requires b == [] || IsSpace(b[0])
    ensures WordLen(t + b) == WordLen(t)
    decreases |t|
  {
    if t == [] {
      assert t + b == b;
    } else if !IsSpace(t[0]) {
      assert (t + b)[1..] == t[1..] + b;
      WordLenAppend(t[1..], b);
    }
  }

  /** A string has no words exactly when it is all whitespace. */
  lemma {:induction false} WordsEmpty(s: string)
    ensures Words(s) == [] <==> AllSpace(s)
    decreases |s|
  {
    if s != [] && IsSpace(s[0]) {
      WordsEmpty(s[1..]);
      assert AllSpace(s) <==> AllSpace(s[1..]) by {
        if AllSpace(s[1..]) {
          forall k | 0 <= k < |s| ensures IsSpace(s[k]) { if k > 0 { assert s[k] == s[1..][k - 1]; } }
        }
      }
    }
  }

  /** Leading whitespace does not change the words. */
  lemma {:induction false} WordsOfLStrip(s: string)
    ensures Words(LStrip(s)) == Words(s)
    decreases |s|
  {
    if s != [] && IsSpace(s[0]) { WordsOfLStrip(s[1..]); }
  }

  /** Trailing whitespace does not change the words. */
  lemma {:induction false} WordsAppendSpaces(x: string, sp: string)
    requires AllSpace(sp)
    ensures Words(x + sp) == Words(x)
    decreases |x|
  {
    if x == [] {
      assert x + sp == sp;
      WordsEmpty(sp);
    } else if IsSpace(x[0]) {
      assert (x + sp)[1..] == x[1..] + sp;
      WordsAppendSpaces(x[1..], sp);
    } else {
      var n := WordLen(x);
      WordLenAppend(x, sp);
      assert (x + sp)[..n] == x[..n];
      assert (x + sp)[n..] == x[n..] + sp;
      WordsAppendSpaces(x[n..], sp);
    }
  }

  lemma WordsOfStrip(s: string)
    ensures Words(Strip(s)) == Words(s)
  {
    var l := LStrip(s);
    var r := RStrip(l);
    assert l == r + l[|r|..];
    WordsAppendSpaces(r, l[|r|..]);
    WordsOfLStrip(s);
  }

  lemma {:induction false} SpaceRunsPrefix(x: string, y: string, c: char)
    requires NoSpace(x)
    ensures SpaceRuns(x + y, c) == x + SpaceRuns(y, c)
    decreases |x|
  {
    if x == [] {
      assert x + y == y;
    } else {
      assert (x + y)[1..] == x[1..] + y;
      SpaceRunsPrefix(x[1..], y, c);
    }
  }

  lemma {:induction false} LStripOfGap(g: string, v: string)
    requires AllSpace(g)
    requires v == [] || !IsSpace(v[0])
    ensures LStrip(g + v) == v
    decreases |g|
  {
    if g == [] {
      assert g + v == v;
    } else {
      assert (g + v)[1..] == g[1..] + v;
      LStripOfGap(g[1..], v);
    }
  }

  /** A whitespace run before a word collapses to one `c`. */
  lemma SpaceRunsOfGap(g: string, v: string, c: char)
    requires g != [] && AllSpace(g)
    requires v == [] || !IsSpace(v[0])
    ensures SpaceRuns(g + v, c) == [c] + SpaceRuns(v, c)
  {
    SpaceLenOfGap(g, v);
    assert (g + v)[|g|..] == v;
  }

  lemma {:induction false} WordLenOfWord(w: string, rest: string)
    requires NoSpace(w)
    requires rest == [] || IsSpace(rest[0])
    ensures WordLen(w + rest) == |w|
    decreases |w|
  {
    if w == [] {
      assert w + rest == rest;
    } else {
      assert (w + rest)[1..] == w[1..] + rest;
      WordLenOfWord(w[1..], rest);
    }
  }

  /** A word followed by whitespace or nothing is the first word. */
  lemma WordsOfWord(w: string, rest: string)
    requires w != [] && NoSpace(w)
    requires rest == [] || IsSpace(rest[0])
    ensures Words(w + rest) == [w] + Words(rest)
  {
    WordLenOfWord(w, rest);
    assert (w + rest)[..|w|] == w;
    assert (w + rest)[|w|..] == rest;
  }

  /** A word, a whitespace run and the rest: the run collapses to one space after the word. */
  lemma WordGapRestRuns(w: string, g: string, v: string)
    requires w != [] && NoSpace(w)
    requires g != [] && AllSpace(g)
    requires v == [] || !IsSpace(v[0])
    ensures SpaceRuns(w + g + v, ' ') == w + " " + SpaceRuns(v, ' ')
  {
    assert w + g + v == w + (g + v);
    SpaceRunsPrefix(w, g + v, ' ');
    SpaceRunsOfGap(g, v, ' ');
  }

  /** A word, a whitespace run and the rest: the word comes first. */
  lemma WordGapRestWords(w: string, g: string, v: string)
    requires w != [] && NoSpace(w)
    requires g != [] && AllSpace(g)
    requires v == [] || !IsSpace(v[0])
    ensures Words(w + g + v) == [w] + Words(v)
  {
    assert w + g + v == w + (g + v);
    WordsOfWord(w, g + v);
    LStripOfGap(g, v);
    WordsOfLStrip(g + v);
  }

  /** A stripped string with whitespace inside splits into its first word, a whitespace run and a stripped rest. */
  lemma FirstWordSplit(u: string) returns (w: string, g: string, v: string)
    requires u != [] && !IsSpace(u[0]) && !IsSpace(u[|u| - 1])
    requires WordLen(u) < |u|
    ensures u == w + g + v && w == u[..WordLen(u)]
    ensures w != [] && NoSpace(w) && g != [] && AllSpace(g)
    ensures v != [] && !IsSpace(v[0]) && !IsSpace(v[|v| - 1]) && |v| < |u|
  {
    var n := WordLen(u);
    var rest := u[n..];
    var m := SpaceLen(rest);
    w, g, v := u[..n], rest[..m], rest[m..];
    assert rest[|rest| - 1] == u[|u| - 1];
    assert m < |rest|;
    assert rest[0] == u[n];
    assert v[|v| - 1] == u[|u| - 1];
    assert rest == g + v;
    assert u == w + rest;
  }

  /** On a stripped string, collapsing whitespace runs is joining its words with one space. */
  lemma {:induction false} SpaceRunsOfStripped(u: string)
    requires u == [] || (!IsSpace(u[0]) && !IsSpace(u[|u| - 1]))
    ensures SpaceRuns(u, ' ') == Join(Words(u), " ")
    decreases |u|
  {
    if u != [] {
      if WordLen(u) == |u| {
        assert u == u + [];
        SpaceRunsPrefix(u, [], ' ');
        WordsOfWord(u, []);
      } else {
        var w, g, v := FirstWordSplit(u);
        WordGapRestRuns(w, g, v);
        WordGapRestWords(w, g, v);
        SpaceRunsOfStripped(v);
        JoinCons(w, Words(v));
      }
    }
  }

  lemma JoinCons(w: string, ws: seq<string>)
    requires ws != []
    ensures Join([w] + ws, " ") == w + " " + Join(ws, " ")
  {
    assert ([w] + ws)[1..] == ws;
  }

  lemma {:induction false} LStripKeepsLast(s: string)
    requires s != [] && !IsSpace(s[|s| - 1])
    ensures LStrip(s) != [] && LStrip(s)[|LStrip(s)| - 1] == s[|s| - 1]
    decreases |s|
  {
    if IsSpace(s[0]) { LStripKeepsLast(s[1..]); }
  }

  /** Words joined with single spaces form a clean string, empty only when there are no words. */
  lemma {:induction false} JoinOfWordsIsClean(ws: seq<string>)
    requires forall k :: 0 <= k < |ws| ==> ws[k] != [] && NoSpace(ws[k])
    ensures IsClean(Join(ws, " "))
    ensures Join(ws, " ") == [] <==> ws == []
    decreases |ws|
  {
    if |ws| > 1 {
      JoinOfWordsIsClean(ws[1..]);
      var w, j := ws[0], Join(ws[1..], " ");
      var r := w + " " + j;
      assert Join(ws, " ") == r;
      forall k | 0 <= k < |r| && IsSpace(r[k]) ensures r[k] == ' ' {
        if k > |w| { assert r[k] == j[k - |w| - 1]; }
      }
      forall k | 0 <= k < |r| - 1 && r[k] == ' ' ensures r[k + 1] != ' ' {
        if k > |w| {
          assert r[k] == j[k - |w| - 1];
          assert r[k + 1] == j[k - |w|];
        } else if k == |w| {
          assert r[k + 1] == j[0];
        }
      }
      assert r[|r| - 1] == j[|j| - 1];
    }
  }

  /** `clean_text` agrees with Python's `' '.join(text.split())`. */
  lemma CleanTextIsJoinOfWords(text: string)
    ensures CleanText(text) == Join(Words(text), " ")
  {
    if text != "" {
      var u := Strip(text);
      SpaceRunsOfStripped(u);
      WordsOfStrip(text);
    }
  }

  lemma {:induction false} SpaceRunsOfSingleSpaced(u: string)
    requires forall k :: 0 <= k < |u| && IsSpace(u[k]) ==> u[k] == ' '
    requires forall k :: 0 <= k < |u| - 1 && u[k] == ' ' ==> u[k + 1] != ' '
    ensures SpaceRuns(u, ' ') == u
    decreases |u|
  {
    if u != [] {
      if IsSpace(u[0]) {
        assert SpaceLen(u) == 1 by {
          if |u| > 1 { assert u[1..][0] == u[1]; }
        }
      }
      SpaceRunsOfSingleSpaced(u[1..]);
    }
  }

  /** `clean_text` is the identity on its own outputs. */
  lemma CleanTextOfClean(r: string)
    requires IsClean(r)
    ensures CleanText(r) == r
  {
    if r != "" {
      assert LStrip(r) == r;
      assert RStrip(r) == r;
      SpaceRunsOfSingleSpaced(r);
    }
  }

  lemma CleanTextIdempotent(text: string)
    ensures CleanText(CleanText(text)) == CleanText(text)
  {
    CleanTextIsClean(text);
    CleanTextOfClean(CleanText(text));
  }

  // ---------------------------------------------------------------------------
  // create_safe_filename
  // ---------------------------------------------------------------------------

  /** `re.sub(r'[^\w\s-]', '', s)` */
  function KeepSafeChars(s: string): (r: string)
    ensures |r| <= |s|
    ensures forall k :: 0 <= k < |r| ==> IsWordChar(r[k]) || IsSpace(r[k]) || r[k] == '-'
    ensures (forall k :: 0 <= k < |s| ==> !IsWordChar(s[k]) && s[k] != '-') ==> AllSpace(r)
    decreases |s|
  {
    if s == [] then []
    else
      var c := s[0];
      var rest := KeepSafeChars(s[1..]);
      if IsWordChar(c) || IsSpace(c) || c == '-' then [c] + rest else rest
  }

  /** Python's `s[:n]`, negative `n` counting from the end. */
  function PyPrefix(s: string, n: int): (r: string)
    ensures r <= s
    ensures n >= 0 ==> |r| == if n <= |s| then n else |s|
  {
    if n >= 0 then (if n <= |s| then s[..n] else s)
    else if |s| + n >= 0 then s[..|s| + n] else []
  }

  predicate IsSafeFilenameChar(c: char) { IsWordChar(c) || c == '-' }

  /** `create_safe_filename(text, max_length)` */
  function CreateSafeFilename(text: string, maxLength: int := 50): (r: string)
    ensures text == "" ==> r == "untitled"
    ensures text != "" ==> |r| <= |text|
    ensures text != "" && maxLength >= 0 ==> |r| <= maxLength
    ensures text != "" ==> forall k :: 0 <= k < |r| ==> IsSafeFilenameChar(r[k])
    ensures text != "" ==> r == [] || (r[0] != '_' && r[|r| - 1] != '_')
  {
    if text == "" then "untitled"
    else
      var kept := KeepSafeChars(text);
      var joined := SpaceRuns(kept, '_');
      var cut := PyPrefix(joined, maxLength);
      assert forall k :: 0 <= k < |cut| ==> cut[k] == joined[k];
      StripChar(cut, '_')
  }

  /** A name with no word character and no hyphen has no safe name at all. */
  lemma SafeFilenameOfPunctuation(text: string, maxLength: int)
    requires text != ""
    requires forall k :: 0 <= k < |text| ==> !IsWordChar(text[k]) && text[k] != '-'
    ensures CreateSafeFilename(text, maxLength) == ""
  {
    var kept := KeepSafeChars(text);
    var joined := SpaceRuns(kept, '_');
    SpaceRunsOfSpaces(kept, '_');
    var cut := PyPrefix(joined, maxLength);
    assert forall k :: 0 <= k < |cut| ==> cut[k] == '_';
    StripUnderscores(cut);
  }

  lemma StripUnderscores(s: string)
    requires forall k :: 0 <= k < |s| ==> s[k] == '_'
    ensures StripChar(s, '_') == []
    decreases |s|
  {
    if s != [] { StripUnderscores(s[1..]); }
  }

  lemma SafeFilenameOfBang()
    ensures CreateSafeFilename("!!!") == ""
  {
    SafeFilenameOfPunctuation("!!!", 50);
  }

  // ---------------------------------------------------------------------------
  // validate_url: the pattern
  //   ^https?://(?:(?:LABEL\.)+[A-Z]{2,6}\.?|localhost|\d{1,3}(\.\d{1,3}){3})(?::\d+)?(?:/?|[/?]\S+)$
  // with IGNORECASE, as a recogniser.
  // ---------------------------------------------------------------------------

  predicate IsAlnum(c: char) { IsLetter(c) || IsDigit(c) }

  /** The characters a host accepted by the pattern is made of. */
  predicate IsHostChar(c: char) { IsAlnum(c) || c == '-' || c == '.' }

  predicate NoDot(s: string) { forall k :: 0 <= k < |s| ==> s[k] != '.' }

  /**
   * `(?:[A-Z0-9](?:[A-Z0-9-]{0,61}[A-Z0-9])?\.)*` followed by one more such label:
   * labels of letters, digits and hyphens that start and end with a letter or digit,
   * at most 63 characters long, separated by single dots.
   */
  predicate IsLabels(s: string) {
    && s != [] && IsAlnum(s[0]) && IsAlnum(s[|s| - 1])
    && (forall k :: 0 <= k < |s| ==> IsHostChar(s[k]))
    && (forall k :: 0 < k < |s| - 1 && s[k] == '.' ==> IsAlnum(s[k - 1]) && IsAlnum(s[k + 1]))
    && (forall a, b :: 0 <= a <= b <= |s| && NoDot(s[a..b]) ==> b - a <= 63)
  }

  /** `[A-Z]{2,6}` */
  predicate IsTld(t: string) {
    2 <= |t| <= 6 && forall k :: 0 <= k < |t| ==> IsLetter(t[k])
  }

  /** `(?:LABEL\.)+[A-Z]{2,6}\.?`: the last dot of the body separates the labels from the top-level name. */
  predicate IsDomainName(h: string) {
    var body := DomainBody(h);
    exists d | 0 < d < |body| :: DomainAt(body, d)
  }

  /** The host without its optional trailing dot. */
  function DomainBody(h: string): (body: string)
    ensures body <= h && |h| - 1 <= |body|
  {
    if h != [] && h[|h| - 1] == '.' then h[..|h| - 1] else h
  }

  /** Labels before the dot at `d`, a top-level name after it. */
  predicate DomainAt(body: string, d: int) {
    0 < d < |body| && body[d] == '.' && IsLabels(body[..d]) && IsTld(body[d + 1..])
  }

  /** `\d{1,3}` */
  predicate IsDigitGroup(s: string) {
    1 <= |s| <= 3 && forall k :: 0 <= k < |s| ==> IsDigit(s[k])
  }

  /** `\d{1,3}\.\d{1,3}\.\d{1,3}\.\d{1,3}`, the three dots at `i`, `j` and `k`. */
  predicate QuadAt(h: string, i: int, j: int, k: int) {
    && 0 < i < j < k < |h| && h[i] == '.' && h[j] == '.' && h[k] == '.'
    && IsDigitGroup(h[..i]) && IsDigitGroup(h[i + 1..j]) && IsDigitGroup(h[j + 1..k]) && IsDigitGroup(h[k + 1..])
  }

  predicate IsDottedQuad(h: string) {
    exists i, j, k | 0 < i < j < k < |h| :: QuadAt(h, i, j, k)
  }

  predicate IsHost(h: string) {
    IsDomainName(h) || Lower(h) == "localhost" || IsDottedQuad(h)
  }

  /** `(?::\d+)?` */
  predicate IsPort(p: string) {
    p == [] || (|p| >= 2 && p[0] == ':' && forall k :: 1 <= k < |p| ==> IsDigit(p[k]))
  }

  /** `(?:/?|[/?]\S+)$` */
  predicate IsPathTail(t: string) {
    t == [] || t == "/" || (|t| >= 2 && (t[0] == '/' || t[0] == '?') && NoSpace(t[1..]))
  }

  /** Length of the case-insensitive `https?://` prefix, if there is one. */
  function SchemeLength(u: string): Option<nat> {
    if StartsWith(Lower(u), "https://") then Some(8)
    else if StartsWith(Lower(u), "http://") then Some(7)
    else None
  }

  /** `rest` splits into a host, an optional port and a path tail at `i` and `j`. */
  predicate UrlSplit(rest: string, i: int, j: int) {
    0 <= i <= j <= |rest| && IsHost(rest[..i]) && IsPort(rest[i..j]) && IsPathTail(rest[j..])
  }

  predicate MatchesUrlPattern(u: string) {
    match SchemeLength(u)
    case None => false
    case Some(n) =>
      n <= |u| && var rest := u[n..]; exists i, j | 0 <= i <= j <= |rest| :: UrlSplit(rest, i, j)
  }

  /** `validate_url(url)` */
  predicate ValidateUrl(url: string) {
    url != "" && MatchesUrlPattern(Strip(url))
  }

  // ---------------------------------------------------------------------------
  // extract_domain
  // ---------------------------------------------------------------------------

  /** `re.sub(r'^https?://', '', url)`: case-sensitive, on the unstripped URL. */
  function DropScheme(url: string): string {
    if StartsWith(url, "https://") then url[8..]
    else if StartsWith(url, "http://") then url[7..]
    else url
  }

  /** `extract_domain(url)` as written. */
  function ExtractDomain(url: string): (r: Option<string>)
    ensures r.None? <==> !ValidateUrl(url)
    ensures r.Some? ==> '/' !in r.value && ':' !in r.value && Lower(r.value) == r.value
  {
    if !ValidateUrl(url) then None else Some(DomainPart(url))
  }

  /** What `extract_domain` returns for a URL that passed validation. */
  function DomainPart(url: string): (r: string)
    ensures '/' !in r && ':' !in r && Lower(r) == r
  {
    var beforeSlash := Split(DropScheme(url), '/')[0];
    var host := Split(beforeSlash, ':')[0];
    LowerKeepsAbsent(host);
    Lower(host)
  }

  lemma LowerKeepsAbsent(host: string)
    requires ':' !in host
    requires forall k :: 0 <= k < |host| ==> host[k] != '/'
    ensures '/' !in Lower(host) && ':' !in Lower(host) && Lower(Lower(host)) == Lower(host)
  {
    var r := Lower(host);
    assert forall k :: 0 <= k < |r| ==> r[k] != '/' && r[k] != ':';
    assert Lower(r) == r;
  }

  /** Every host the pattern accepts is a non-empty run of letters, digits, hyphens and dots. */
  lemma HostChars(h: string)
    requires IsHost(h)
    ensures h != [] && forall k :: 0 <= k < |h| ==> IsHostChar(h[k])
  {
    if Lower(h) == "localhost" {
      forall k | 0 <= k < |h| ensures IsHostChar(h[k]) {
        assert LowerChar(h[k]) == "localhost"[k];
      }
    } else if IsDottedQuad(h) {
      var i, j, k :| 0 < i < j < k < |h| && QuadAt(h, i, j, k);
      forall m | 0 <= m < |h| ensures IsHostChar(h[m]) {
        if m < i { assert h[..i][m] == h[m]; }
        else if i < m < j { assert h[i + 1..j][m - i - 1] == h[m]; }
        else if j < m < k { assert h[j + 1..k][m - j - 1] == h[m]; }
        else if k < m { assert h[k + 1..][m - k - 1] == h[m]; }
      }
    } else {
      DomainChars(h);
    }
  }

  lemma DomainChars(h: string)
    requires IsDomainName(h)
    ensures h != [] && forall k :: 0 <= k < |h| ==> IsHostChar(h[k])
  {
    var body := DomainBody(h);
    var d :| 0 < d < |body| && DomainAt(body, d);
    forall m | 0 <= m < |body| ensures IsHostChar(body[m]) {
      if m < d {
        assert body[..d][m] == body[m];
        assert IsHostChar(body[..d][m]);
      } else if m > d {
        assert body[d + 1..][m - d - 1] == body[m];
        assert IsLetter(body[d + 1..][m - d - 1]);
      }
    }
    forall m | 0 <= m < |h| ensures IsHostChar(h[m]) {
      if m < |body| { assert h[m] == body[m]; }
      else { assert h[|h| - 1] == '.'; }
    }
  }

  /** "ab.cd" is a domain name: one label and a two-letter top-level name. */
  lemma HostExample()
    ensures IsHost("ab.cd")
  {
    var h := "ab.cd";
    assert h[..2] == "ab" && h[3..] == "cd";
    assert IsLabels("ab");
    assert IsTld("cd");
    assert DomainBody(h) == h;
    assert DomainAt(h, 2);
  }

  lemma SchemeExample(u: string)
    requires |u| >= 7 && u[..7] == "http://"
    ensures SchemeLength(u) == Some(7)
  {
    assert Lower(u)[..7] == "http://";
    assert !StartsWith(Lower(u), "https://") by { assert Lower(u)[4] == ':'; }
  }

  /** A URL matches when its scheme is followed by a host, a port and a path tail. */
  lemma MatchesWith(u: string, n: nat, i: int, j: int)
    requires SchemeLength(u) == Some(n) && n <= |u|
    requires UrlSplit(u[n..], i, j)
    ensures MatchesUrlPattern(u)
  {
  }

  lemma StripUnchanged(u: string)
    requires u != [] && !IsSpace(u[0]) && !IsSpace(u[|u| - 1])
    ensures Strip(u) == u
  {
  }

  lemma HostEdge(host: string)
    requires IsHost(host)
    ensures host != [] && !IsSpace(host[|host| - 1])
  {
    HostChars(host);
  }

  lemma UrlSplitOf(host: string, tail: string)
    requires IsHost(host) && IsPathTail(tail)
    ensures UrlSplit(host + tail, |host|, |host|)
  {
    assert (host + tail)[..|host|] == host && (host + tail)[|host|..] == tail;
  }

  lemma HttpMatches(rest: string, i: int, j: int)
    requires UrlSplit(rest, i, j)
    ensures MatchesUrlPattern("http://" + rest)
  {
    var u := "http://" + rest;
    assert u[..7] == "http://";
    SchemeExample(u);
    assert u[7..] == rest;
    MatchesWith(u, 7, i, j);
  }

  lemma ValidOfMatches(u: string)
    requires u != [] && !IsSpace(u[0]) && !IsSpace(u[|u| - 1])
    requires MatchesUrlPattern(u)
    ensures ValidateUrl(u)
  {
    StripUnchanged(u);
  }

  /** `http://` followed by an accepted host and a path tail is a valid URL. */
  lemma HttpUrlValid(host: string, tail: string)
    requires IsHost(host) && IsPathTail(tail)
    requires tail == [] || !IsSpace(tail[|tail| - 1])
    ensures ValidateUrl("http://" + host + tail)
  {
    var rest := host + tail;
    HostEdge(host);
    UrlSplitOf(host, tail);
    HttpMatches(rest, |host|, |host|);
    UrlEdges(host, tail);
    ValidOfMatches("http://" + rest);
  }

  lemma UrlEdges(host: string, tail: string)
    requires host != [] && !IsSpace(host[|host| - 1])
    requires tail == [] || !IsSpace(tail[|tail| - 1])
    ensures var u := "http://" + (host + tail);
      && "http://" + host + tail == u && u != [] && !IsSpace(u[0]) && !IsSpace(u[|u| - 1])
  {
    var rest := host + tail;
    var u := "http://" + rest;
    assert u[|u| - 1] == rest[|rest| - 1];
    if tail == [] {
      assert rest[|rest| - 1] == host[|host| - 1];
    } else {
      assert rest[|rest| - 1] == tail[|tail| - 1];
    }
  }

  lemma LeadingSpaceStrip(u: string)
    requires u != [] && !IsSpace(u[0]) && !IsSpace(u[|u| - 1])
    ensures Strip([' '] + u) == u
  {
    assert ([' '] + u)[1..] == u;
  }

  /** Without the scheme at its very start, the text up to the first colon is taken for the domain. */
  lemma DomainPartLeadingSpace(rest: string)
    ensures DomainPart(" http:/" + rest) == " http"
  {
    var u := " http:/" + rest;
    NoSchemeAtSpace(u);
    assert u == " http" + ":/" + rest;
    DomainPartBeforeColon(" http", rest);
  }

  lemma NoSchemeAtSpace(u: string)
    requires u != [] && u[0] == ' '
    ensures DropScheme(u) == u
  {
    assert !StartsWith(u, "https://") && !StartsWith(u, "http://");
  }

  /** When no scheme is dropped, the domain is the lower-cased text before the first colon. */
  lemma DomainPartBeforeColon(b: string, rest: string)
    requires ':' !in b && '/' !in b
    requires forall i :: 0 <= i < |b| ==> !('A' <= b[i] <= 'Z')
    requires DropScheme(b + ":/" + rest) == b + ":/" + rest
    ensures DomainPart(b + ":/" + rest) == b
  {
    var a := b + [':'];
    assert '/' !in a;
    assert b + ":/" + rest == a + ['/'] + rest;
    SplitAt(a, rest, '/');
    assert a == b + [':'] + [];
    SplitAt(b, [], ':');
    LowerUnchanged(b);
  }

  lemma LowerUnchanged(b: string)
    requires forall i :: 0 <= i < |b| ==> !('A' <= b[i] <= 'Z')
    ensures Lower(b) == b
  {
  }

  lemma ExtractDomainOfValid(url: string)
    requires ValidateUrl(url)
    ensures ExtractDomain(url) == Some(DomainPart(url))
  {
  }

  /** One leading space does not change whether a stripped URL is valid. */
  lemma ValidWithLeadingSpace(u: string)
    requires ValidateUrl(u) && u != [] && !IsSpace(u[0]) && !IsSpace(u[|u| - 1])
    ensures ValidateUrl([' '] + u)
  {
    StripUnchanged(u);
    LeadingSpaceStrip(u);
  }

  lemma LeadingSpaceConcat(host: string)
    requires host != [] && !IsSpace(host[|host| - 1])
    ensures " http://" + host == [' '] + ("http://" + host)
    ensures " http://" + host == " http:/" + ("/" + host)
    ensures "http://" + host + [] == "http://" + host
    ensures var u := "http://" + host; !IsSpace(u[0]) && !IsSpace(u[|u| - 1])
  {
    var u := "http://" + host;
    assert u[|u| - 1] == host[|host| - 1];
  }

  /** `http://host` with one leading space is accepted. */
  lemma LeadingSpaceValid(host: string)
    requires IsHost(host)
    ensures ValidateUrl(" http://" + host)
  {
    HostEdge(host);
    LeadingSpaceConcat(host);
    HttpUrlValid(host, []);
    ValidWithLeadingSpace("http://" + host);
  }

  /** With leading whitespace the URL is still valid, but the scheme is not removed and the domain is what precedes its colon. */
  lemma ExtractDomainLeadingSpace(host: string)
    requires IsHost(host)
    ensures ValidateUrl(" http://" + host)
    ensures ExtractDomain(" http://" + host) == Some(" http")
  {
    LeadingSpaceValid(host);
    HostEdge(host);
    LeadingSpaceConcat(host);
    ExtractDomainOfValid(" http://" + host);
    DomainPartLeadingSpace("/" + host);
  }

  /** After an exact `http://`, a lower-case rest free of `/` and `:` is the domain whole. */
  lemma DomainPartOfPlain(rest: string)
    requires '/' !in rest && ':' !in rest && Lower(rest) == rest
    ensures DomainPart("http://" + rest) == rest
  {
    var u := "http://" + rest;
    assert StartsWith(u, "http://") && !StartsWith(u, "https://") by { assert u[4] == ':'; }
    assert u[7..] == rest;
  }

  /** `?` followed by host characters is a path tail. */
  lemma QueryTail(q: string)
    requires q != [] && forall k :: 0 <= k < |q| ==> IsHostChar(q[k])
    ensures IsPathTail("?" + q) && !IsSpace(("?" + q)[|q|])
  {
    assert ("?" + q)[1..] == q;
    assert ("?" + q)[|q|] == q[|q| - 1];
  }

  /** A lower-case host, `?` and host characters hold neither `/` nor `:` and stay as they are under lower-casing. */
  lemma QueryRestPlain(host: string, q: string)
    requires forall k :: 0 <= k < |host| ==> IsHostChar(host[k])
    requires Lower(host) == host && Lower(q) == q
    requires forall k :: 0 <= k < |q| ==> IsHostChar(q[k])
    ensures var rest := host + "?" + q; '/' !in rest && ':' !in rest && Lower(rest) == rest
  {
    var rest := host + "?" + q;
    assert forall k :: 0 <= k < |rest| ==> rest[k] == '?' || IsHostChar(rest[k]) by {
      forall k | 0 <= k < |rest| ensures rest[k] == '?' || IsHostChar(rest[k]) {
        if k < |host| { assert rest[k] == host[k]; }
        else if k > |host| { assert rest[k] == q[k - |host| - 1]; }
      }
    }
    assert Lower(rest) == rest by {
      forall k | 0 <= k < |rest| ensures LowerChar(rest[k]) == rest[k] {
        if k < |host| { assert rest[k] == host[k] && Lower(host)[k] == host[k]; }
        else if k > |host| { assert rest[k] == q[k - |host| - 1] && Lower(q)[k - |host| - 1] == q[k - |host| - 1]; }
      }
    }
  }

  lemma QueryConcat(host: string, q: string)
    ensures "http://" + host + "?" + q == "http://" + host + ("?" + q)
    ensures "http://" + host + "?" + q == "http://" + (host + "?" + q)
    ensures "http://" + host + ("?" + q) == "http://" + (host + ("?" + q))
    ensures host + "?" + q == host + ("?" + q)
  {
  }

  /** A query directly after the host stays in the domain. */
  lemma ExtractDomainKeepsQuery(host: string, q: string)
    requires IsHost(host) && Lower(host) == host && Lower(q) == q
    requires q != [] && forall k :: 0 <= k < |q| ==> IsHostChar(q[k])
    ensures ValidateUrl("http://" + host + "?" + q)
    ensures ExtractDomain("http://" + host + "?" + q) == Some(host + "?" + q)
  {
    QueryTail(q);
    QueryConcat(host, q);
    HttpUrlValid(host, "?" + q);
    HostChars(host);
    QueryRestPlain(host, q);
    ExtractDomainOfValid("http://" + host + "?" + q);
    DomainPartOfPlain(host + "?" + q);
  }

  /** The characters that end the host part of an accepted URL. */
  const HostEnd: set<char> := {'/', ':', '?'}

  /** The domain as intended: the host part of the accepted URL, lower-cased. */
  function ExtractDomainOfHost(url: string): (r: Option<string>)
    ensures r.None? <==> !ValidateUrl(url)
  {
    if !ValidateUrl(url) then None
    else
      var u := Strip(url);
      var n := SchemeLength(u).value;
      Some(Lower(TakeUntil(u[n..], HostEnd)))
  }

  /** What follows the host in an accepted URL starts with `:`, `/` or `?`. */
  lemma HostEndsAt(rest: string, i: int, j: int)
    requires 0 <= i <= j <= |rest| && IsPort(rest[i..j]) && IsPathTail(rest[j..])
    ensures i < |rest| ==> rest[i] in HostEnd
  {
    if i < j {
      assert rest[i..j][0] == rest[i];
    } else if i < |rest| {
      assert rest[j..][0] == rest[i];
    }
  }

  lemma {:induction false} TakeUntilOfPrefix(s: string, p: string, stops: set<char>)
    requires p <= s
    requires forall k :: 0 <= k < |p| ==> p[k] !in stops
    requires |p| < |s| ==> s[|p|] in stops
    ensures TakeUntil(s, stops) == p
    decreases |s|
  {
    if s != [] && s[0] !in stops {
      TakeUntilOfPrefix(s[1..], p[1..], stops);
    }
  }

  /** Reading up to the first host-ending character recovers the host the pattern matched. */
  lemma TakeHost(rest: string, i: int, j: int)
    requires UrlSplit(rest, i, j)
    ensures TakeUntil(rest, HostEnd) == rest[..i]
  {
    HostChars(rest[..i]);
    HostEndsAt(rest, i, j);
    TakeUntilOfPrefix(rest, rest[..i], HostEnd);
  }

  /** The intended domain is the host the URL pattern matched, whatever port and path follow. */
  lemma ExtractDomainOfHostIsHost(url: string, i: int, j: int)
    requires ValidateUrl(url)
    requires var u := Strip(url); UrlSplit(u[SchemeLength(u).value..], i, j)
    ensures var u := Strip(url); ExtractDomainOfHost(url) == Some(Lower(u[SchemeLength(u).value..][..i]))
  {
    var u := Strip(url);
    TakeHost(u[SchemeLength(u).value..], i, j);
  }

  /** The intended domain reads the host after the scheme of the stripped URL. */
  lemma ExtractDomainOfHostAt(url: string, u: string, n: nat, rest: string)
    requires ValidateUrl(url) && Strip(url) == u && SchemeLength(u) == Some(n) && n <= |u| && u[n..] == rest
    ensures ExtractDomainOfHost(url) == Some(Lower(TakeUntil(rest, HostEnd)))
  {
  }

  lemma HttpScheme(rest: string)
    ensures SchemeLength("http://" + rest) == Some(7) && ("http://" + rest)[7..] == rest
  {
    var u := "http://" + rest;
    assert u[..7] == "http://";
    SchemeExample(u);
  }

  /** On a URL with leading whitespace, the intended domain is still the host. */
  lemma ExtractDomainOfHostLeadingSpace(host: string)
    requires IsHost(host)
    ensures ExtractDomainOfHost(" http://" + host) == Some(Lower(host))
  {
    LeadingSpaceValid(host);
    HostEdge(host);
    LeadingSpaceConcat(host);
    LeadingSpaceStrip("http://" + host);
    HttpScheme(host);
    ExtractDomainOfHostAt(" http://" + host, "http://" + host, 7, host);
    UrlSplitOf(host, []);
    assert host + [] == host;
    TakeHost(host, |host|, |host|);
    assert host[..|host|] == host;
  }

  /** `http://host?q` is accepted and has nothing to strip. */
  lemma QueryUrlValid(host: string, q: string)
    requires IsHost(host)
    requires q != [] && forall k :: 0 <= k < |q| ==> IsHostChar(q[k])
    ensures var url := "http://" + host + ("?" + q); ValidateUrl(url) && Strip(url) == url
  {
    var tail := "?" + q;
    QueryTail(q);
    HttpUrlValid(host, tail);
    HostEdge(host);
    UrlEdges(host, tail);
    StripUnchanged("http://" + (host + tail));
  }

  /** On a URL with a query after the host, the intended domain stops at the `?`. */
  lemma ExtractDomainOfHostQuery(host: string, q: string)
    requires IsHost(host)
    requires q != [] && forall k :: 0 <= k < |q| ==> IsHostChar(q[k])
    ensures ExtractDomainOfHost("http://" + host + "?" + q) == Some(Lower(host))
  {
    QueryConcat(host, q);
    QueryUrlValid(host, q);
    QueryTail(q);
    var rest := host + ("?" + q);
    HttpScheme(rest);
    ExtractDomainOfHostAt("http://" + rest, "http://" + rest, 7, rest);
    UrlSplitOf(host, "?" + q);
    TakeHost(rest, |host|, |host|);
    assert rest[..|host|] == host;
  }

}
