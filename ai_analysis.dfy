/**
 * Post-processing of an AI provider's document analysis: the sanitizer for
 * name components, the unwrapping and normalisation of the provider's JSON
 * reply, the file name built from the analysis, and the guards around the
 * two provider calls. The call itself and `JSON.parse` are not modelled:
 * the reply and the parser are inputs.
 */
module AiAnalysis {
  import opened Text

  // ---------------------------------------------------------------------
  // sanitizeString

  /** A character `sanitizeString` does not delete. */
  predicate NotDeleted(c: char) { !IsIllegalNameChar(c) }

  /** A character that can survive `sanitizeString`. */
  predicate IsComponentChar(c: char) {
    !IsIllegalNameChar(c) && !IsSpace(c) && c != '/' && c != '\\'
  }

  const MaxComponentLength := 50

  predicate AllComponentChars(s: string) {
    forall i :: 0 <= i < |s| ==> IsComponentChar(s[i])
  }

  /** A string whose characters all come from `s` keeps the characters `s` has in common. */
  lemma ComponentCharsOfSubset(s: string, r: string)
    requires AllComponentChars(s)
    requires forall x :: x in r ==> x in s
    ensures AllComponentChars(r)
  {
    forall i | 0 <= i < |r|
      ensures IsComponentChar(r[i])
    {
      assert r[i] in r;
      var k :| 0 <= k < |s| && s[k] == r[i];
    }
  }

  /** `.trim()` then `.replace(/[<>:"|?*\x00-\x1F]/g, '')`. */
  function Deleted(str: string): (r: string)
    ensures forall i :: 0 <= i < |r| ==> NotDeleted(r[i])
  {
    Keep(Trim(str), NotDeleted)
  }

  /** `.replace(/\s+/g, '_')` then `.replace(/[\\\/]/g, '-')`. */
  function Dashed(s: string): (r: string)
    requires forall i :: 0 <= i < |s| ==> NotDeleted(s[i])
    ensures AllComponentChars(r)
  {
    var s2 := CollapseSpaces(s, '_');
    forall i | 0 <= i < |s2|
      ensures NotDeleted(s2[i])
    {
      assert s2[i] in s2;
      if s2[i] != '_' {
        var k :| 0 <= k < |s| && s[k] == s2[i];
      }
    }
    ReplaceChar(ReplaceChar(s2, '\\', '-'), '/', '-')
  }

  /** `.replace(/_+/g, '_')`. */
  function Squeezed(s: string): (r: string)
    requires AllComponentChars(s)
    ensures AllComponentChars(r) && NoDouble(r, '_')
  {
    var r := Squeeze(s, '_');
    ComponentCharsOfSubset(s, r);
    r
  }

  /** `.replace(/^_|_$/g, '')`: one '_' dropped at each end. */
  function EdgesDropped(s: string): (r: string)
    requires AllComponentChars(s) && NoDouble(s, '_')
    ensures AllComponentChars(r) && NoDouble(r, '_')
    ensures r == [] || r[0] != '_'
  {
    var r := DropEdges(s, '_');
    ComponentCharsOfSubset(s, r);
    r
  }

  /** `.substring(0, 50)`, which keeps what the earlier steps established. */
  function Cut(s: string): (r: string)
    requires AllComponentChars(s) && NoDouble(s, '_') && (s == [] || s[0] != '_')
    ensures |r| <= MaxComponentLength
    ensures AllComponentChars(r) && NoDouble(r, '_') && (r == [] || r[0] != '_')
    ensures |s| <= MaxComponentLength ==> r == s
    ensures |s| > MaxComponentLength ==> r == s[..MaxComponentLength]
  {
    var r := Prefix(s, MaxComponentLength);
    NoDoubleSlice(s, '_', 0, |r|);
    assert r == s[0..|r|];
    SliceChars(s, 0, |r|);
    ComponentCharsOfSubset(s, r);
    r
  }

  /** `sanitizeString(str)`: a string made fit to be one component of a file name. */
  function SanitizeString(str: string): (r: string)
    ensures |r| <= MaxComponentLength
    ensures AllComponentChars(r)
    ensures NoDouble(r, '_')
    ensures r == [] || r[0] != '_'
  {
    Cut(EdgesDropped(Squeezed(Dashed(Deleted(str)))))
  }

  /** A component that already has the sanitized form. */
  ghost predicate IsCleanComponent(s: string) {
    |s| <= MaxComponentLength && AllComponentChars(s) && NoDouble(s, '_') &&
    (s == [] || (s[0] != '_' && s[|s| - 1] != '_'))
  }

  /** `sanitizeString` leaves a component that already has the sanitized form unchanged. */
  lemma SanitizeKeepsCleanComponent(s: string)
    requires IsCleanComponent(s)
    ensures SanitizeString(s) == s
  {
    OnlyTheCutApplies(s);
  }

  /** On a string with the sanitized form at any length, only the 50-character cut has an effect. */
  lemma OnlyTheCutApplies(s: string)
    requires AllComponentChars(s) && NoDouble(s, '_')
    requires s == [] || (s[0] != '_' && s[|s| - 1] != '_')
    ensures SanitizeString(s) == Cut(s)
  {
    DeletedAndDashedKeepClean(s);
    SqueezedKeepsClean(s);
    EdgesKeepClean(s);
  }

  lemma DeletedAndDashedKeepClean(s: string)
    requires AllComponentChars(s)
    ensures Dashed(Deleted(s)) == s
  {
    DeletedKeepsClean(s);
    DashedKeepsClean(s);
  }

  lemma EdgesKeepClean(s: string)
    requires AllComponentChars(s) && NoDouble(s, '_')
    requires s == [] || (s[0] != '_' && s[|s| - 1] != '_')
    ensures EdgesDropped(s) == s
  {
  }

  lemma SqueezedKeepsClean(s: string)
    requires AllComponentChars(s) && NoDouble(s, '_')
    ensures Squeezed(s) == s
  {
    SqueezeWithoutDoubles(s, '_');
  }

  lemma DeletedKeepsClean(s: string)
    requires AllComponentChars(s)
    ensures Deleted(s) == s
  {
    assert s != [] ==> !IsSpace(s[0]) && !IsSpace(s[|s| - 1]);
    TrimOfTrimmed(s);
    assert forall i :: 0 <= i < |s| ==> NotDeleted(s[i]);
    KeepAll(s, NotDeleted);
  }

  lemma DashedKeepsClean(s: string)
    requires AllComponentChars(s)
    ensures forall i :: 0 <= i < |s| ==> NotDeleted(s[i])
    ensures Dashed(s) == s
  {
    CollapseWithoutSpaces(s, '_');
    assert ReplaceChar(s, '\\', '-') == s;
    assert ReplaceChar(s, '/', '-') == s;
  }

  /**
   * The 50-character cut comes after the edge '_' is dropped, so a
   * sanitized component can still end with '_'.
   */
  lemma SanitizedCanEndWithUnderscore()
    ensures var s := seq(49, _ => 'a') + "_b";
      var r := SanitizeString(s);
      |r| == 50 && r[49] == '_'
  {
    var s := seq(49, _ => 'a') + "_b";
    assert forall i :: 0 <= i < 49 ==> s[i] == 'a';
    assert forall i :: 0 <= i < |s| ==> s[i] == 'a' || s[i] == '_' || s[i] == 'b';
    assert NoDouble(s, '_') by {
      forall i, j | 0 <= i < j < |s| && j == i + 1
        ensures !(s[i] == '_' && s[j] == '_')
      {
        if i < 48 {
          assert s[i] == 'a';
        }
      }
    }
    CutAfterUnderscore(s);
  }

  lemma CutAfterUnderscore(s: string)
    requires |s| == 51 && AllComponentChars(s) && NoDouble(s, '_')
    requires s[0] != '_' && s[49] == '_' && s[50] != '_'
    ensures var r := SanitizeString(s); |r| == 50 && r[49] == '_'
  {
    OnlyTheCutApplies(s);
  }

  // ---------------------------------------------------------------------
  // parseAIResponse

  /** A value as `JSON.parse` returns it. */
  datatype Json =
    | JNull
    | JBool(b: bool)
    | JNum(n: real)
    | JStr(s: string)
    | JArr(items: seq<Json>)
    | JObj(fields: map<string, Json>)

  /** JavaScript truthiness of a property that may be `undefined` (`None`). */
  predicate Truthy(v: Option<Json>) {
    match v
    case None => false
    case Some(JNull) => false
    case Some(JBool(b)) => b
    case Some(JNum(n)) => n != 0.0
    case Some(JStr(s)) => s != ""
    case Some(JArr(_)) => true
    case Some(JObj(_)) => true
  }

  /** `parsed.key`: a property of an object; any other value has none. */
  function Field(p: Json, key: string): Option<Json> {
    if p.JObj? && key in p.fields then Some(p.fields[key]) else None
  }

  /**
   * The string `sanitizeString(v || fallback)` is given, or `None` when
   * that value is not a string and the call throws.
   */
  function TextOr(v: Option<Json>, fallback: string): (r: Option<string>)
    ensures !Truthy(v) ==> r == Some(fallback)
    ensures Truthy(v) ==> (r.Some? <==> v.value.JStr?)
    ensures r.Some? <==> TextField(v)
    ensures r.Some? && Truthy(v) ==> r.value == v.value.s
  {
    if !Truthy(v) then Some(fallback)
    else if v.value.JStr? then Some(v.value.s)
    else None
  }

  /** The strings of a JSON array, or `None` if one is not a string (`sanitizeString` throws on it). */
  function Strings(items: seq<Json>): (r: Option<seq<string>>)
    ensures r.Some? <==> forall i :: 0 <= i < |items| ==> items[i].JStr?
    ensures r.Some? ==> |r.value| == |items| && forall i :: 0 <= i < |items| ==> r.value[i] == items[i].s
  {
    if items == [] then Some([])
    else if !items[0].JStr? then None
    else
      match Strings(items[1..])
      case None => None
      case Some(rest) => Some([items[0].s] + rest)
  }

  /** `(parsed.keywords || [])` as the list `map` runs over, or `None` when `map` throws. */
  function KeywordsOf(v: Option<Json>): (r: Option<seq<string>>)
    ensures !Truthy(v) ==> r == Some([])
    ensures r.Some? <==> KeywordField(v)
    ensures Truthy(v) && r.Some? ==> |r.value| == |v.value.items| &&
                                     forall i :: 0 <= i < |r.value| ==> r.value[i] == v.value.items[i].s
  {
    if !Truthy(v) then Some([])
    else if v.value.JArr? then Strings(v.value.items)
    else None
  }

  /** `Math.max(0, Math.min(1, x))`. */
  function Clamp(x: real): (r: real)
    ensures 0.0 <= r <= 1.0
    ensures 0.0 <= x <= 1.0 ==> r == x
    ensures x < 0.0 ==> r == 0.0
    ensures x > 1.0 ==> r == 1.0
  {
    if x < 0.0 then 0.0 else if x > 1.0 then 1.0 else x
  }

  /**
   * `Math.max(0, Math.min(1, parsed.confidence || 0.5))`; `None` stands for
   * NaN, which a value other than a number or a boolean is taken to give.
   */
  function ConfidenceOf(v: Option<Json>): (r: Option<real>)
    ensures !Truthy(v) ==> r == Some(0.5)
    ensures r.Some? ==> 0.0 <= r.value <= 1.0
    ensures Truthy(v) && v.value.JNum? ==> r == Some(Clamp(v.value.n))
  {
    if !Truthy(v) then Some(0.5)
    else match v.value
      case JNum(n) => Some(Clamp(n))
      case JBool(_) => Some(1.0)
      case _ => None
  }

  /** A keyword the parse keeps: 2 to 20 characters. */
  predicate IsUsableKeyword(k: string) {
    2 <= |k| <= 20
  }

  /** `.filter(k => k.length >= 2 && k.length <= 20)`. */
  function UsableKeywords(ks: seq<string>): (r: seq<string>)
    ensures |r| <= |ks|
    ensures forall i :: 0 <= i < |r| ==> IsUsableKeyword(r[i])
    ensures forall k :: k in r <==> k in ks && IsUsableKeyword(k)
  {
    if ks == [] then []
    else
      var rest := UsableKeywords(ks[1..]);
      assert forall k :: k in ks <==> k == ks[0] || k in ks[1..];
      if IsUsableKeyword(ks[0]) then [ks[0]] + rest else rest
  }

  /** The filter keeps the order of the list: filtering a concatenation filters each part. */
  lemma {:induction false} UsableKeywordsDistribute(a: seq<string>, b: seq<string>)
    ensures UsableKeywords(a + b) == UsableKeywords(a) + UsableKeywords(b)
  {
    if a != [] {
      var head := if IsUsableKeyword(a[0]) then [a[0]] else [];
      assert (a + b)[0] == a[0] && (a + b)[1..] == a[1..] + b;
      assert UsableKeywords(a + b) == head + UsableKeywords(a[1..] + b);
      UsableKeywordsDistribute(a[1..], b);
      assert UsableKeywords(a) == head + UsableKeywords(a[1..]);
    } else {
      assert a + b == b;
    }
  }

  /** `.map(k => sanitizeString(k))`. */
  function SanitizedAll(ks: seq<string>): (r: seq<string>)
    ensures |r| == |ks| && forall i :: 0 <= i < |ks| ==> r[i] == SanitizeString(ks[i])
  {
    seq(|ks|, i requires 0 <= i < |ks| => SanitizeString(ks[i]))
  }

  const MaxKeywords := 5

  /** The keywords of the analysis: sanitized, filtered by length, the first five kept. */
  function NormalizedKeywords(raw: seq<string>): (r: seq<string>)
    ensures |r| <= MaxKeywords
    ensures forall i :: 0 <= i < |r| ==> IsUsableKeyword(r[i])
  {
    Prefix(UsableKeywords(SanitizedAll(raw)), MaxKeywords)
  }

  /** Every keyword kept is the sanitized form of a keyword of the reply. */
  lemma NormalizedKeywordsAreSanitized(raw: seq<string>)
    ensures var r := NormalizedKeywords(raw);
      forall i :: 0 <= i < |r| ==> exists j :: 0 <= j < |raw| && r[i] == SanitizeString(raw[j])
  {
    var u := UsableKeywords(SanitizedAll(raw));
    var r := NormalizedKeywords(raw);
    forall i | 0 <= i < |r|
      ensures exists j :: 0 <= j < |raw| && r[i] == SanitizeString(raw[j])
    {
      assert r[i] == u[i] && u[i] in u;
      var j :| 0 <= j < |raw| && SanitizedAll(raw)[j] == u[i];
    }
  }

  /** When every sanitized keyword is usable and there are at most five, all are kept, in order. */
  lemma {:induction false} FewUsableKeywordsAllKept(raw: seq<string>)
    requires |raw| <= MaxKeywords
    requires forall i :: 0 <= i < |raw| ==> IsUsableKeyword(SanitizeString(raw[i]))
    ensures NormalizedKeywords(raw) == SanitizedAll(raw)
  {
    AllUsable(SanitizedAll(raw));
  }

  lemma {:induction false} AllUsable(ks: seq<string>)
    requires forall i :: 0 <= i < |ks| ==> IsUsableKeyword(ks[i])
    ensures UsableKeywords(ks) == ks
  {
    if ks != [] {
      AllUsable(ks[1..]);
    }
  }

  /** A property `sanitizeString` accepts: left out (or falsy), or a string. */
  predicate TextField(v: Option<Json>) {
    !Truthy(v) || v.value.JStr?
  }

  /** A keyword list `map` and `sanitizeString` accept: left out (or falsy), or an array of strings. */
  predicate KeywordField(v: Option<Json>) {
    !Truthy(v) || (v.value.JArr? && forall i :: 0 <= i < |v.value.items| ==> v.value.items[i].JStr?)
  }

  /** A parsed reply the analysis object can be built from without an exception. */
  predicate Buildable(p: Json) {
    !p.JNull? &&
    TextField(Field(p, "category")) && TextField(Field(p, "company")) &&
    TextField(Field(p, "documentType")) && TextField(Field(p, "referenceNumber")) &&
    KeywordField(Field(p, "keywords"))
  }

  /** `sanitizeString(parsed.key || fallback)` for a property that is a string or left out. */
  function SanitizedOr(p: Json, key: string, fallback: string): string
    requires TextField(Field(p, key))
  {
    SanitizeString(TextOr(Field(p, key), fallback).value)
  }

  /** The result of the analysis, `AIDocumentAnalysis`; a confidence of `None` is NaN. */
  datatype Analysis = Analysis(
    category: string,
    company: string,
    documentType: string,
    keywords: seq<string>,
    referenceNumber: Option<string>,
    confidence: Option<real>,
    rawResponse: string)

  /** The minimum validation: a company, a document type or a keyword. */
  predicate HasData(a: Analysis) {
    a.company != "" || a.documentType != "" || |a.keywords| > 0
  }

  /** `parsed.referenceNumber ? sanitizeString(parsed.referenceNumber) : undefined`, `None` when it throws. */
  function ReferenceOf(v: Option<Json>): (r: Option<Option<string>>)
    ensures !Truthy(v) ==> r == Some(None)
    ensures r.Some? <==> TextField(v)
    ensures r.Some? && Truthy(v) ==> r.value == Some(SanitizeString(v.value.s))
    ensures r.Some? && r.value.Some? ==> |r.value.value| <= MaxComponentLength
  {
    if !Truthy(v) then Some(None)
    else if v.value.JStr? then Some(Some(SanitizeString(v.value.s)))
    else None
  }

  /**
   * The analysis object built from the parsed reply before the minimum
   * validation, or `None` when building it throws: the reply is `null`, or
   * a field other than `confidence` has a value of the wrong type.
   */
  function Normalized(p: Json, content: string): (r: Option<Analysis>)
    ensures r.Some? <==> Buildable(p)
    ensures r.Some? ==> |r.value.keywords| <= MaxKeywords &&
                        forall i :: 0 <= i < |r.value.keywords| ==> IsUsableKeyword(r.value.keywords[i])
    ensures r.Some? ==> r.value.confidence == ConfidenceOf(Field(p, "confidence"))
    ensures r.Some? ==> r.value.rawResponse == content
    ensures r.Some? ==> |r.value.company| <= MaxComponentLength && |r.value.documentType| <= MaxComponentLength
  {
    var category := CategoryOf(Field(p, "category"));
    var company := SanitizedText(Field(p, "company"));
    var docType := SanitizedText(Field(p, "documentType"));
    var keywords := KeywordsOf(Field(p, "keywords"));
    var reference := ReferenceOf(Field(p, "referenceNumber"));
    if p.JNull? || category.None? || company.None? || docType.None? || keywords.None? || reference.None? then None
    else
      var ks := NormalizedKeywords(keywords.value);
      assert |ks| <= MaxKeywords && forall i :: 0 <= i < |ks| ==> IsUsableKeyword(ks[i]);
      Some(Analysis(category.value, company.value, docType.value, ks, reference.value,
                    ConfidenceOf(Field(p, "confidence")), content))
  }

  /** A buildable reply gives each field as the sanitized property, or its default. */
  lemma NormalizedFields(p: Json, content: string)
    requires Buildable(p)
    ensures Normalized(p, content).Some?
    ensures var a := Normalized(p, content).value;
      a.category == SanitizedOr(p, "category", "Sonstiges") &&
      a.company == SanitizedOr(p, "company", "") &&
      a.documentType == SanitizedOr(p, "documentType", "") &&
      a.keywords == NormalizedKeywords(KeywordsOf(Field(p, "keywords")).value) &&
      a.referenceNumber == ReferenceOf(Field(p, "referenceNumber")).value
  {
  }

  /** A reply without a category is filed under "Sonstiges". */
  lemma MissingCategoryIsSonstiges(p: Json, content: string)
    requires Normalized(p, content).Some? && !Truthy(Field(p, "category"))
    ensures Normalized(p, content).value.category == "Sonstiges"
  {
    assert CategoryOf(Field(p, "category")) == Some("Sonstiges");
  }

  /** `sanitizeString(parsed.category || 'Sonstiges')`, `None` when it throws. */
  function CategoryOf(v: Option<Json>): (r: Option<string>)
    ensures !Truthy(v) ==> r == Some("Sonstiges")
    ensures r.Some? <==> TextField(v)
    ensures r.Some? && Truthy(v) ==> r.value == SanitizeString(v.value.s)
    ensures r.Some? ==> |r.value| <= MaxComponentLength
  {
    SonstigesIsClean();
    match TextOr(v, "Sonstiges")
    case None => None
    case Some(t) => Some(SanitizeString(t))
  }

  /** `sanitizeString(parsed.key || '')`, `None` when it throws. */
  function SanitizedText(v: Option<Json>): (r: Option<string>)
    ensures !Truthy(v) ==> r == Some("")
    ensures r.Some? <==> TextField(v)
    ensures r.Some? && Truthy(v) ==> r.value == SanitizeString(v.value.s)
    ensures r.Some? ==> |r.value| <= MaxComponentLength
  {
    SanitizeKeepsCleanComponent("");
    match TextOr(v, "")
    case None => None
    case Some(t) => Some(SanitizeString(t))
  }

  lemma SonstigesIsClean()
    ensures SanitizeString("Sonstiges") == "Sonstiges"
  {
    var s := "Sonstiges";
    assert forall i :: 0 <= i < |s| ==> IsAsciiLetter(s[i]);
    SanitizeKeepsCleanComponent(s);
  }

  // Unwrapping a reply fenced as a Markdown code block.

  /** The global replace of `tok` followed by `\s*` with nothing: every occurrence of `tok`, with the whitespace after it, removed. */
  function RemoveAll(s: string, tok: string): (r: string)
    requires |tok| > 0
    ensures |r| <= |s|
    ensures StartsWith(s, tok) ==> |r| <= |s| - |tok|
    ensures (forall i :: 0 <= i < |s| ==> !StartsWith(s[i..], tok)) ==> r == s
    decreases |s|
  {
    if s == [] then []
    else if StartsWith(s, tok) then
      assert s[0..] == s;
      RemoveAll(SkipSpaces(s[|tok|..]), tok)
    else
      assert forall i :: 0 <= i < |s| - 1 ==> s[1..][i..] == s[i + 1..];
      [s[0]] + RemoveAll(s[1..], tok)
  }

  /** The fence "```" closes `s` at `i`: only whitespace follows it. */
  predicate ClosesAt(s: string, i: int) {
    0 <= i && i + 3 <= |s| && s[i..i + 3] == "```" && AllSpace(s[i + 3..])
  }

  function FirstClosing(s: string, i: nat): (r: Option<nat>)
    ensures r.Some? ==> i <= r.value && ClosesAt(s, r.value)
    ensures r.Some? ==> forall j :: i <= j < r.value ==> !ClosesAt(s, j)
    ensures r.None? ==> forall j :: i <= j ==> !ClosesAt(s, j)
    decreases |s| - i
  {
    if i + 3 > |s| then None
    else if ClosesAt(s, i) then Some(i)
    else FirstClosing(s, i + 1)
  }

  /** `s.replace(/```\s*$/g, '')`: the closing fence at the end removed. */
  function DropClosing(s: string): (r: string)
    ensures |r| <= |s| && r == s[..|r|]
  {
    match FirstClosing(s, 0)
    case None => s
    case Some(i) => s[..i]
  }

  /** The text `JSON.parse` is given: the trimmed reply with a Markdown code fence removed. */
  function Unfenced(content: string): (r: string)
    ensures |r| <= |Trim(content)|
    ensures !StartsWith(Trim(content), "```") ==> r == Trim(content)
    ensures StartsWith(Trim(content), "```json") ==> r == DropClosing(RemoveAll(Trim(content), "```json"))
    ensures StartsWith(Trim(content), "```") && !StartsWith(Trim(content), "```json") ==>
      r == DropClosing(RemoveAll(Trim(content), "```"))
  {
    var t := Trim(content);
    assert StartsWith(t, "```json") ==> t[..3] == t[..7][..3] == "```";
    if StartsWith(t, "```json") then DropClosing(RemoveAll(t, "```json"))
    else if StartsWith(t, "```") then DropClosing(RemoveAll(t, "```"))
    else t
  }

  /** A reply fenced as "```json", whitespace, the JSON text and "```" is parsed as the JSON text alone. */
  lemma FencedReplyIsUnwrapped(ws: string, x: string)
    requires AllSpace(ws)
    requires x != [] && !IsSpace(x[0]) && '`' !in x
    ensures Unfenced("```json" + ws + x + "```") == x
  {
    FenceOpens(ws, x);
    OpeningFenceRemoved(ws, x);
    ClosingAfter(x);
  }

  /** Such a reply is already trimmed and starts with the "```json" fence. */
  lemma FenceOpens(ws: string, x: string)
    ensures var c := "```json" + ws + x + "```"; Trim(c) == c && StartsWith(c, "```json")
  {
    var c := "```json" + ws + x + "```";
    assert c[0] == '`' && c[|c| - 1] == '`';
    FencedIsTrimmed(c);
    assert c[..7] == "```json";
  }

  lemma FencedIsTrimmed(c: string)
    requires |c| >= 2 && c[0] == '`' && c[|c| - 1] == '`'
    ensures Trim(c) == c
  {
    TrimOfTrimmed(c);
  }

  lemma OpeningFenceRemoved(ws: string, x: string)
    requires AllSpace(ws)
    requires x != [] && !IsSpace(x[0]) && '`' !in x
    ensures RemoveAll("```json" + ws + x + "```", "```json") == x + "```"
  {
    var tok := "```json";
    var c := tok + ws + x + "```";
    var rest := x + "```";
    assert StartsWith(c, tok) by {
      assert c[..7] == tok;
    }
    assert c[7..] == ws + rest;
    SkipLeadingSpaces(ws, rest);
    assert RemoveAll(c, tok) == RemoveAll(rest, tok);
    forall i | 0 <= i < |rest| - 3
      ensures rest[i] != '`'
    {
      assert rest[i] == x[i] && x[i] in x;
    }
    NoOpening(rest, tok);
  }

  lemma SkipLeadingSpaces(ws: string, y: string)
    requires AllSpace(ws) && y != [] && !IsSpace(y[0])
    ensures SkipSpaces(ws + y) == y
  {
    var s := ws + y;
    var r := SkipSpaces(s);
    var n := |s| - |r|;
    assert forall k :: 0 <= k < |ws| ==> IsSpace(s[k]);
    assert !IsSpace(s[|ws|]);
    assert r == TrimStart(s);
  }

  /** Without a '`' before its last three characters, `s` has no "```json" to remove. */
  lemma {:induction false} NoOpening(s: string, tok: string)
    requires tok == "```json"
    requires |s| >= 3 && forall i :: 0 <= i < |s| - 3 ==> s[i] != '`'
    ensures RemoveAll(s, tok) == s
    decreases |s|
  {
    if |s| > 3 {
      assert !StartsWith(s, tok) by {
        assert s[0] != tok[0];
      }
      NoOpening(s[1..], tok);
      assert s == [s[0]] + s[1..];
    } else {
      assert !StartsWith(s, tok);
      NoOpeningShort(s, tok);
    }
  }

  lemma {:induction false} NoOpeningShort(s: string, tok: string)
    requires tok == "```json" && |s| <= 3
    ensures RemoveAll(s, tok) == s
    decreases |s|
  {
    if s != [] {
      assert !StartsWith(s, tok);
      NoOpeningShort(s[1..], tok);
      assert s == [s[0]] + s[1..];
    }
  }

  lemma ClosingAfter(x: string)
    requires '`' !in x
    ensures DropClosing(x + "```") == x
  {
    var s := x + "```";
    assert ClosesAt(s, |x|) by {
      assert s[|x|..|x| + 3] == "```";
      assert s[|x| + 3..] == [];
    }
    forall j | 0 <= j < |x|
      ensures !ClosesAt(s, j)
    {
      assert s[j] == x[j];
      assert x[j] in x;
      if j + 3 <= |s| {
        assert s[j..j + 3][0] == s[j];
      }
    }
    assert FirstClosing(s, 0) == Some(|x|);
  }

  /**
   * `parseAIResponse(content)`, with `JSON.parse` given as `parse`
   * (`None` when it throws): the analysis, or `None` when the reply
   * cannot be parsed or carries no usable data.
   */
  function ParseAIResponse(content: string, parse: string -> Option<Json>): (r: Option<Analysis>)
    ensures parse(Unfenced(content)).None? ==> r.None?
    ensures r.Some? ==> HasData(r.value) && r.value.rawResponse == content
    ensures r.Some? ==> Normalized(parse(Unfenced(content)).value, content) == r
    ensures parse(Unfenced(content)).Some? ==>
      var n := Normalized(parse(Unfenced(content)).value, content);
      (r.Some? <==> n.Some? && HasData(n.value))
  {
    match parse(Unfenced(content))
    case None => None
    case Some(p) =>
      var n := Normalized(p, content);
      if n.Some? && HasData(n.value) then n else None
  }

  /** A fenced reply is judged by the JSON text inside the fence. */
  lemma FencedReplyParsesInside(ws: string, x: string, parse: string -> Option<Json>)
    requires AllSpace(ws)
    requires x != [] && !IsSpace(x[0]) && '`' !in x
    ensures var c := "```json" + ws + x + "```";
      (parse(x).None? ==> ParseAIResponse(c, parse).None?) &&
      (parse(x).Some? && ParseAIResponse(c, parse).Some? ==>
         ParseAIResponse(c, parse) == Normalized(parse(x).value, c))
  {
    FencedReplyIsUnwrapped(ws, x);
  }

  /**
   * A reply that parses to a buildable object gives an analysis exactly
   * when its sanitized company, document type or keyword list is not
   * empty, and that analysis carries the sanitized fields.
   */
  lemma BuildableReplyIsAnalysed(content: string, parse: string -> Option<Json>)
    requires parse(Unfenced(content)).Some? && Buildable(parse(Unfenced(content)).value)
    ensures var p := parse(Unfenced(content)).value;
      var company := SanitizedOr(p, "company", "");
      var docType := SanitizedOr(p, "documentType", "");
      var keywords := NormalizedKeywords(KeywordsOf(Field(p, "keywords")).value);
      var r := ParseAIResponse(content, parse);
      (r.Some? <==> company != "" || docType != "" || keywords != []) &&
      (r.Some? ==> r.value.company == company && r.value.documentType == docType && r.value.keywords == keywords &&
                   r.value.category == SanitizedOr(p, "category", "Sonstiges"))
  {
    var u := Unfenced(content);
    var p := parse(u).value;
    NormalizedFields(p, content);
    var n := Normalized(p, content);
    assert ParseAIResponse(content, parse).Some? <==> HasData(n.value);
  }

  /** A reply whose company, document type and keywords all sanitize to nothing gives no analysis. */
  lemma EmptyFieldsGiveNothing(content: string, parse: string -> Option<Json>)
    requires parse(Unfenced(content)).Some?
    requires var p := parse(Unfenced(content)).value;
      !Truthy(Field(p, "company")) && !Truthy(Field(p, "documentType")) && !Truthy(Field(p, "keywords"))
    ensures ParseAIResponse(content, parse).None?
  {
  }

  // ---------------------------------------------------------------------
  // buildFilenameFromAI

  /** The company gate: a confidence of at least 0.5 (NaN never passes). */
  predicate ConfidentEnough(confidence: Option<real>) {
    confidence.Some? && confidence.value >= 0.5
  }

  /** The keywords that repeat neither the company nor the document type, in order. */
  function OtherKeywords(ks: seq<string>, company: string, docType: string): (r: seq<string>)
    ensures |r| <= |ks|
    ensures forall k :: k in r <==> k in ks && k != company && k != docType
  {
    if ks == [] then []
    else
      var rest := OtherKeywords(ks[1..], company, docType);
      assert forall k :: k in ks <==> k == ks[0] || k in ks[1..];
      if ks[0] != company && ks[0] != docType then [ks[0]] + rest else rest
  }

  const MaxExtraKeywords := 3
  const MaxReferenceLength := 30

  /** The keyword components: at most three of the keywords that repeat neither company nor type. */
  function ExtraKeywords(a: Analysis): (r: seq<string>)
    ensures |r| <= MaxExtraKeywords
    ensures forall k :: k in r ==> k in a.keywords && k != a.company && k != a.documentType
  {
    var others := OtherKeywords(a.keywords, a.company, a.documentType);
    var r := Prefix(others, MaxExtraKeywords);
    assert forall k :: k in r ==> k in others;
    r
  }

  /** The name components in the order the builder pushes them. */
  function Components(a: Analysis, timestamp: string): seq<string> {
    (if timestamp != "" then [timestamp] else []) +
    (if a.company != "" && ConfidentEnough(a.confidence) then [a.company] else []) +
    (if a.documentType != "" then [a.documentType] else []) +
    ExtraKeywords(a) +
    (if HasShortReference(a) then [a.referenceNumber.value] else [])
  }

  /** `analysis.referenceNumber && analysis.referenceNumber.length <= 30`. */
  predicate HasShortReference(a: Analysis) {
    a.referenceNumber.Some? && a.referenceNumber.value != "" && |a.referenceNumber.value| <= MaxReferenceLength
  }

  /** `.filter(c => c.length > 0)`. */
  function NonEmpty(parts: seq<string>): (r: seq<string>)
    ensures forall i :: 0 <= i < |r| ==> r[i] != ""
    ensures forall c :: c in r <==> c in parts && c != ""
  {
    if parts == [] then []
    else
      var rest := NonEmpty(parts[1..]);
      assert forall c :: c in parts <==> c == parts[0] || c in parts[1..];
      if parts[0] != "" then [parts[0]] + rest else rest
  }

  /** The file name the builder returns. */
  function FilenameFromAI(a: Analysis, timestamp: string, extension: string): string {
    Join(NonEmpty(Components(a, timestamp)), "_") + extension
  }

  /** `buildFilenameFromAI(analysis, timestamp, originalExtension)`. */
  method BuildFilenameFromAI(a: Analysis, timestamp: string, extension: string) returns (name: string)
    ensures name == FilenameFromAI(a, timestamp, extension)
    ensures EndsWith(name, extension)
  {
    var components: seq<string> := [];
    if timestamp != "" {
      components := components + [timestamp];
    }
    ghost var expected := if timestamp != "" then [timestamp] else [];
    assert components == expected;
    if a.company != "" && ConfidentEnough(a.confidence) {
      components := components + [a.company];
    }
    expected := expected + if a.company != "" && ConfidentEnough(a.confidence) then [a.company] else [];
    assert components == expected;
    if a.documentType != "" {
      components := components + [a.documentType];
    }
    expected := expected + if a.documentType != "" then [a.documentType] else [];
    assert components == expected;
    components := components + ExtraKeywords(a);
    expected := expected + ExtraKeywords(a);
    if a.referenceNumber.Some? && a.referenceNumber.value != "" &&
       |a.referenceNumber.value| <= MaxReferenceLength {
      components := components + [a.referenceNumber.value];
    }
    expected := expected + if HasShortReference(a) then [a.referenceNumber.value] else [];
    assert components == expected == Components(a, timestamp);
    name := Join(NonEmpty(components), "_") + extension;
  }

  /** The components come in the fixed order, each under its own condition. */
  lemma ComponentOrder(a: Analysis, timestamp: string)
    ensures var c := Components(a, timestamp);
      var t := if timestamp != "" then 1 else 0;
      var co := if a.company != "" && ConfidentEnough(a.confidence) then 1 else 0;
      var d := if a.documentType != "" then 1 else 0;
      var k := |ExtraKeywords(a)|;
      var rf := if HasShortReference(a) then 1 else 0;
      |c| == t + co + d + k + rf && |c| <= 7 &&
      (timestamp != "" ==> c[0] == timestamp) &&
      (co == 1 ==> c[t] == a.company) &&
      (d == 1 ==> c[t + co] == a.documentType) &&
      c[t + co + d..t + co + d + k] == ExtraKeywords(a) &&
      (rf == 1 ==> c[|c| - 1] == a.referenceNumber.value)
  {
    var c := Components(a, timestamp);
    var front := (if timestamp != "" then [timestamp] else []) +
      (if a.company != "" && ConfidentEnough(a.confidence) then [a.company] else []) +
      (if a.documentType != "" then [a.documentType] else []);
    var back := if HasShortReference(a) then [a.referenceNumber.value] else [];
    assert c == front + ExtraKeywords(a) + back;
    assert c[|front|..|front| + |ExtraKeywords(a)|] == ExtraKeywords(a);
  }

  /** A company is never a component below the gate, not even through the keywords. */
  lemma UnconfidentCompanyLeftOut(a: Analysis, timestamp: string)
    requires !ConfidentEnough(a.confidence)
    requires a.company != timestamp && a.company != a.documentType
    requires a.referenceNumber != Some(a.company)
    ensures a.company !in Components(a, timestamp)
  {
  }

  /** Every name from the builder ends with the original extension; with no components it is that extension. */
  lemma FilenameShape(a: Analysis, timestamp: string, extension: string)
    ensures EndsWith(FilenameFromAI(a, timestamp, extension), extension)
    ensures NonEmpty(Components(a, timestamp)) == [] ==> FilenameFromAI(a, timestamp, extension) == extension
    ensures forall c :: c in FilenameFromAI(a, timestamp, extension) ==>
      c == '_' || c in extension || exists k :: 0 <= k < |Components(a, timestamp)| && c in Components(a, timestamp)[k]
  {
    var parts := NonEmpty(Components(a, timestamp));
    var base := Join(parts, "_");
    forall c | c in FilenameFromAI(a, timestamp, extension)
      ensures c == '_' || c in extension || exists k :: 0 <= k < |Components(a, timestamp)| && c in Components(a, timestamp)[k]
    {
      if c !in extension && c != '_' {
        assert c in base + extension;
        assert c in base;
        JoinChars(parts, "_", c);
        var k :| 0 <= k < |parts| && c in parts[k];
        assert parts[k] in Components(a, timestamp);
        var m :| 0 <= m < |Components(a, timestamp)| && Components(a, timestamp)[m] == parts[k];
      }
    }
  }

  // ---------------------------------------------------------------------
  // The guards around the provider calls

  datatype Provider = Perplexity | Claude

  /** `AIConfig`; an absent key or token limit is `None`. */
  datatype AIConfig = AIConfig(provider: Provider, apiKey: Option<string>, maxTokens: Option<nat>)

  const MinKeyLength := 10

  /** The key check both provider calls start with. */
  predicate HasUsableKey(c: AIConfig) {
    c.apiKey.Some? && |c.apiKey.value| >= MinKeyLength
  }

  /** `isAIEnabled(config)`. */
  function IsAIEnabled(config: Option<AIConfig>): (r: bool)
    ensures r <==> config.Some? && config.value.apiKey.Some? && |config.value.apiKey.value| >= MinKeyLength
  {
    config.Some? && HasUsableKey(config.value)
  }

  /** What is sent to the provider for an analysis: the document excerpt and the token limit. */
  datatype Request = Request(document: string, maxTokens: nat)

  const AnalysisExcerptLength := 2000
  const DefaultMaxTokens := 500

  /** The request `analyzeDocumentWithAI` sends, or `None` when it returns before calling a provider. */
  function AnalysisRequest(text: string, c: AIConfig): (r: Option<Request>)
    ensures r.None? <==> !IsAIEnabled(Some(c))
    ensures r.Some? ==> |r.value.document| <= AnalysisExcerptLength && StartsWith(text, r.value.document)
    ensures r.Some? && |text| <= AnalysisExcerptLength ==> r.value.document == text
    ensures r.Some? ==> r.value.maxTokens > 0
    ensures r.Some? && c.maxTokens.Some? && c.maxTokens.value > 0 ==> r.value.maxTokens == c.maxTokens.value
    ensures r.Some? && (c.maxTokens.None? || c.maxTokens.value == 0) ==> r.value.maxTokens == DefaultMaxTokens
    ensures r.Some? ==> r.value.document == if |text| <= AnalysisExcerptLength then text else text[..AnalysisExcerptLength]
  {
    if !HasUsableKey(c) then None
    else
      var tokens := if c.maxTokens.Some? && c.maxTokens.value != 0 then c.maxTokens.value else DefaultMaxTokens;
      Some(Request(Prefix(text, AnalysisExcerptLength), tokens))
  }

  /**
   * `analyzeDocumentWithAI(text, config)`, where `reply` is the provider's
   * answer to `AnalysisRequest(text, config)` (`None` when the call fails).
   */
  function AnalyzeDocumentWithAI(text: string, c: AIConfig, reply: Option<string>,
                                 parse: string -> Option<Json>): (r: Option<Analysis>)
    ensures !IsAIEnabled(Some(c)) ==> r.None?
    ensures reply.None? || reply == Some("") ==> r.None?
    ensures r.Some? ==> r == ParseAIResponse(reply.value, parse) && HasData(r.value)
    ensures IsAIEnabled(Some(c)) && reply.Some? && reply.value != "" ==> r == ParseAIResponse(reply.value, parse)
  {
    if AnalysisRequest(text, c).None? then None
    else if reply.None? || reply.value == "" then None
    else ParseAIResponse(reply.value, parse)
  }

  /** Analysis can run exactly when the AI is reported enabled. */
  lemma EnabledIffRequestSent(text: string, c: AIConfig)
    ensures IsAIEnabled(Some(c)) <==> AnalysisRequest(text, c).Some?
    ensures !IsAIEnabled(None)
  {
  }

  const DateExcerptLength := 1500

  /** `DD.MM.YYYY`, the date format the provider is asked for; '#' is a digit. */
  const DateTemplate := "##.##.####"

  /**
   * The document excerpt `selectDocumentDateWithAI` sends, or `None` when
   * it answers without a provider call.
   */
  function DateRequest(text: string, dates: seq<string>, c: AIConfig): (r: Option<string>)
    ensures r.Some? <==> HasUsableKey(c) && |dates| >= 2
    ensures r.Some? ==> |r.value| <= DateExcerptLength && StartsWith(text, r.value)
    ensures r.Some? ==> r.value == if |text| <= DateExcerptLength then text else text[..DateExcerptLength]
  {
    if !HasUsableKey(c) || |dates| <= 1 then None
    else Some(Prefix(text, DateExcerptLength))
  }

  /** `content.trim().match(/(\d{2}\.\d{2}\.\d{4})/)`: the first date in the reply. */
  function DateInReply(content: string): (r: Option<string>)
    ensures r.Some? ==> |r.value| == |DateTemplate| && MatchesAt(r.value, 0, DateTemplate)
    ensures r.Some? ==> exists i :: MatchesAt(Trim(content), i, DateTemplate) &&
                                    r.value == Trim(content)[i..i + |DateTemplate|] &&
                                    forall j :: 0 <= j < i ==> !MatchesAt(Trim(content), j, DateTemplate)
    ensures r.None? <==> forall i :: !MatchesAt(Trim(content), i, DateTemplate)
  {
    TemplateMatch(Trim(content), DateTemplate)
  }

  /**
   * `selectDocumentDateWithAI(text, dates, config)`, where `reply` is the
   * provider's answer to `DateRequest(text, dates, config)`.
   */
  function SelectDocumentDateWithAI(text: string, dates: seq<string>, c: AIConfig,
                                    reply: Option<string>): (r: Option<string>)
    ensures !HasUsableKey(c) || dates == [] ==> r.None?
    ensures HasUsableKey(c) && |dates| == 1 ==> r == Some(dates[0])
    ensures r.Some? ==> r.value in dates
    ensures r.Some? && |dates| >= 2 ==> MatchesAt(r.value, 0, DateTemplate)
    ensures HasUsableKey(c) && |dates| >= 2 ==>
      r == (if reply.Some? && DateInReply(reply.value).Some? && DateInReply(reply.value).value in dates
            then DateInReply(reply.value) else None)
  {
    if !HasUsableKey(c) then None
    else if |dates| == 0 then None
    else if |dates| == 1 then Some(dates[0])
    else if DateRequest(text, dates, c).None? || reply.None? || reply.value == "" then None
    else
      match DateInReply(reply.value)
      case None => None
      case Some(d) => if d in dates then Some(d) else None
  }
}
