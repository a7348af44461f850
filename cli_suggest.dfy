/**
 * The CLI's name suggestion, `generateSmartFilename`: an ordered,
 * first-match-wins evaluation of fixed rules over the extracted text and
 * the original file name. It collects the date slot, the sender, the
 * document type, the letterhead date and a reference number, then joins
 * them with '_' behind the CLI sanitizer and puts the old extension back.
 *
 * The file's creation time (`fs.statSync(filePath).birthtime`, already in
 * local calendar fields) and the configured custom companies are
 * parameters; a failing `statSync` is `birthtime == None`.
 */
module CliSuggest {
  import opened Text
  import Paths
  import CliNames

  /** The local calendar date of the file's creation time. */
  datatype Date = Date(year: nat, month: nat, day: nat)

  /** `\d{4}-\d{2}-\d{2}_\d{2}-\d{2}-\d{2}`, a scanner's time stamp in the file name. */
  const ScannerStamp := "####-##-##_##-##-##"
  /** `\d{2}\.\d{2}\.\d{4}`, a German letter date. */
  const GermanDate := "##.##.####"
  /** `\d{4}-\d{2}-\d{2}`, an ISO date. */
  const IsoDate := "####-##-##"
  /** Only the first characters of the text count as the letterhead. */
  const LetterheadLength := 1000
  /** A reference capture shorter than this is passed over. */
  const MinReferenceLength := 3

  /** The built-in sender lexicon, in the order it is searched. */
  const BuiltInCompanies: seq<string> := [
    "Vodafone", "Telekom", "O2", "Telefónica",
    "Allianz", "AXA", "Generali", "HUK-Coburg", "ERGO", "Gothaer", "R+V Versicherung",
    "VHV", "Debeka", "Signal Iduna", "Württembergische", "LVM", "Provinzial",
    "Techniker Krankenkasse", "TK", "AOK", "Barmer", "DAK", "IKK", "KKH",
    "Amazon", "DHL", "Deutsche Post", "Hermes", "UPS", "FedEx",
    "Sparkasse", "Volksbank", "Postbank", "Commerzbank", "Deutsche Bank",
    "PayPal", "N26", "ING", "DKB",
    "Lufthansa", "Deutsche Bahn", "ADAC", "eBay", "Otto"]

  /** The document-type map: the word searched for and the label it gives, in insertion order. */
  const DocTypes: seq<(string, string)> := [
    ("Rechnung", "Rechnung"), ("Invoice", "Rechnung"),
    ("Vertrag", "Vertrag"), ("Contract", "Vertrag"),
    ("Bescheid", "Bescheid"), ("Mahnung", "Mahnung"),
    ("Kündigung", "Kuendigung"), ("Bestellung", "Bestellung"),
    ("Lieferschein", "Lieferschein"), ("Angebot", "Angebot"),
    ("Kontoauszug", "Kontoauszug"), ("Rezept", "Rezept")]

  /** The lexicon searched: the built-in senders, then the custom ones. */
  function Companies(custom: seq<string>): (cs: seq<string>)
    ensures |cs| == |BuiltInCompanies| + |custom|
    ensures cs[..|BuiltInCompanies|] == BuiltInCompanies && cs[|BuiltInCompanies|..] == custom
  {
    BuiltInCompanies + custom
  }

  function DocTypeKeys(): (keys: seq<string>)
    ensures |keys| == |DocTypes|
    ensures forall k :: 0 <= k < |keys| ==> keys[k] == DocTypes[k].0
  {
    seq(|DocTypes|, k requires 0 <= k < |DocTypes| => DocTypes[k].0)
  }

  // ---------------------------------------------------------------------
  // Fixed digit templates

  /** `${year}-${month}-${day}` with month and day padded to two digits. */
  function BirthDate(d: Date): (r: string)
    ensures |r| >= 1 + 1 + 2 + 1 + 2
    ensures d.month < 100 && d.day < 100 ==>
      && r[|r| - 6] == '-' && r[|r| - 3] == '-'
      && (forall i :: 0 <= i < |r| && i != |r| - 6 && i != |r| - 3 ==> IsDigit(r[i]))
    ensures d.month < 100 && d.day < 100 ==>
      && DigitsValue(r[..|r| - 6]) == d.year
      && DigitsValue(r[|r| - 5..|r| - 3]) == d.month
      && DigitsValue(r[|r| - 2..]) == d.day
  {
    NatToStringRoundTrip(d.year);
    var y, m, dd := NatToString(d.year), PadTwo(d.month), PadTwo(d.day);
    var r := y + "-" + m + "-" + dd;
    assert d.month < 100 && d.day < 100 ==>
      r[..|r| - 6] == y && r[|r| - 5..|r| - 3] == m && r[|r| - 2..] == dd;
    r
  }

  /** A matched `DD.MM.YYYY` rewritten as `YYYY-MM-DD`, through `split('.')`. */
  function GermanToIso(m: string): (r: string)
    requires MatchesAt(m, 0, GermanDate) && |m| == |GermanDate|
    ensures MatchesAt(r, 0, IsoDate) && |r| == |IsoDate|
    ensures r[..4] == m[6..] && r[5..7] == m[3..5] && r[8..] == m[..2]
  {
    var r := m[6..10] + "-" + m[3..5] + "-" + m[0..2];
    GermanDigits(m);
    assert forall k :: 0 <= k < 4 ==> r[k] == m[6 + k];
    assert r[4] == '-' && r[7] == '-';
    assert r[5] == m[3] && r[6] == m[4] && r[8] == m[0] && r[9] == m[1];
    assert forall k :: 0 <= k < |IsoDate| ==> SlotMatches(IsoDate[k], r[k]);
    r
  }

  lemma GermanDigits(m: string)
    requires MatchesAt(m, 0, GermanDate)
    ensures IsDigit(m[0]) && IsDigit(m[1]) && IsDigit(m[3]) && IsDigit(m[4])
    ensures IsDigit(m[6]) && IsDigit(m[7]) && IsDigit(m[8]) && IsDigit(m[9])
  {
    assert SlotMatches(GermanDate[0], m[0]) && SlotMatches(GermanDate[1], m[1]);
    assert SlotMatches(GermanDate[3], m[3]) && SlotMatches(GermanDate[4], m[4]);
    assert SlotMatches(GermanDate[6], m[6]) && SlotMatches(GermanDate[7], m[7]);
    assert SlotMatches(GermanDate[8], m[8]) && SlotMatches(GermanDate[9], m[9]);
  }

  // ---------------------------------------------------------------------
  // First match in a list

  /** The index of the first `true` at or after `from`: a `for` loop that stops at its first hit. */
  function FirstTrue(flags: seq<bool>, from: nat): (r: Option<nat>)
    requires from <= |flags|
    ensures r.Some? ==> from <= r.value < |flags| && flags[r.value]
    ensures r.Some? ==> forall j :: from <= j < r.value ==> !flags[j]
    ensures r.None? ==> forall j :: from <= j < |flags| ==> !flags[j]
    decreases |flags| - from
  {
    if from == |flags| then None
    else if flags[from] then Some(from)
    else FirstTrue(flags, from + 1)
  }

  /** The first hit is the one index that is set with none set before it. */
  lemma FirstTrueIs(flags: seq<bool>, i: nat)
    requires i < |flags| && flags[i]
    requires forall j :: 0 <= j < i ==> !flags[j]
    ensures FirstTrue(flags, 0) == Some(i)
  {
  }

  /** For each key, whether the text contains it (`text.includes(key)`). */
  function ContainsFlags(text: string, keys: seq<string>): (flags: seq<bool>)
    ensures |flags| == |keys|
    ensures forall k :: 0 <= k < |keys| ==> flags[k] == Contains(text, keys[k])
  {
    seq(|keys|, k requires 0 <= k < |keys| => Contains(text, keys[k]))
  }

  /** The sender slot: the first company of the lexicon found in the text, its whitespace runs turned into '_'. */
  function CompanySlot(text: string, custom: seq<string>): (r: seq<string>)
    ensures |r| <= 1
    ensures r == [] <==> forall k :: 0 <= k < |Companies(custom)| ==> !Contains(text, Companies(custom)[k])
    ensures r != [] ==>
      exists k :: 0 <= k < |Companies(custom)| && Contains(text, Companies(custom)[k]) &&
        (forall j :: 0 <= j < k ==> !Contains(text, Companies(custom)[j])) &&
        r[0] == CollapseSpaces(Companies(custom)[k], '_')
  {
    var cs := Companies(custom);
    match FirstTrue(ContainsFlags(text, cs), 0)
    case None => []
    case Some(k) => [CollapseSpaces(cs[k], '_')]
  }

  /** The document-type slot: the label of the first key of the map found in the text. */
  function DocTypeSlot(text: string): (r: seq<string>)
    ensures |r| <= 1
    ensures r == [] <==> forall k :: 0 <= k < |DocTypes| ==> !Contains(text, DocTypes[k].0)
    ensures r != [] ==>
      exists k :: 0 <= k < |DocTypes| && Contains(text, DocTypes[k].0) &&
        (forall j :: 0 <= j < k ==> !Contains(text, DocTypes[j].0)) &&
        r[0] == DocTypes[k].1
  {
    match FirstTrue(ContainsFlags(text, DocTypeKeys()), 0)
    case None => []
    case Some(k) => [DocTypes[k].1]
  }

  // ---------------------------------------------------------------------
  // Date slot and letterhead date

  /** The scanner time stamp in the original name, whole, else the creation date, else nothing. */
  function DateSlot(originalName: string, birthtime: Option<Date>): (r: seq<string>)
    ensures |r| <= 1
    ensures TemplateMatch(originalName, ScannerStamp).Some? ==> r == [TemplateMatch(originalName, ScannerStamp).value]
    ensures TemplateMatch(originalName, ScannerStamp).None? && birthtime.Some? ==> r == [BirthDate(birthtime.value)]
    ensures TemplateMatch(originalName, ScannerStamp).None? && birthtime.None? ==> r == []
  {
    match TemplateMatch(originalName, ScannerStamp)
    case Some(stamp) => [stamp]
    case None =>
      match birthtime
      case Some(d) => [BirthDate(d)]
      case None => []
  }

  /** The date found in the first `LetterheadLength` characters: a German date first, else an ISO date. */
  function LetterheadDate(text: string): (r: Option<string>)
    ensures r.Some? ==> MatchesAt(r.value, 0, IsoDate) && |r.value| == |IsoDate|
    ensures r.None? <==> forall i :: !MatchesAt(Prefix(text, LetterheadLength), i, GermanDate) &&
                                     !MatchesAt(Prefix(text, LetterheadLength), i, IsoDate)
    ensures TemplateMatch(Prefix(text, LetterheadLength), GermanDate).Some? ==>
      r == Some(GermanToIso(TemplateMatch(Prefix(text, LetterheadLength), GermanDate).value))
    ensures TemplateMatch(Prefix(text, LetterheadLength), GermanDate).None? ==>
      r == TemplateMatch(Prefix(text, LetterheadLength), IsoDate)
  {
    var head := Prefix(text, LetterheadLength);
    match TemplateMatch(head, GermanDate)
    case Some(m) => Some(GermanToIso(m))
    case None => TemplateMatch(head, IsoDate)
  }

  /** The letterhead date replaces the first suggestion, whatever it is, or becomes the only one. */
  function WithLetterheadDate(suggestions: seq<string>, text: string): (r: seq<string>)
    ensures LetterheadDate(text).None? ==> r == suggestions
    ensures LetterheadDate(text).Some? ==>
      |r| == (if suggestions == [] then 1 else |suggestions|) &&
      r[0] == LetterheadDate(text).value && r[1..] == (if suggestions == [] then [] else suggestions[1..])
  {
    match LetterheadDate(text)
    case None => suggestions
    case Some(d) => if |suggestions| > 0 then suggestions[0 := d] else [d]
  }

  // ---------------------------------------------------------------------
  // Reference numbers

  /** `[:\s]`, what may stand between a label and its number. */
  predicate IsSeparator(c: char) {
    c == ':' || IsSpace(c)
  }

  /** `[A-Z0-9\-\/]` under the `i` flag. */
  predicate IsTokenChar(c: char) {
    IsAsciiLetter(c) || IsDigit(c) || c == '-' || c == '/'
  }

  /** The length of the longest run of characters satisfying `p` that starts at `i`. */
  function Run(s: string, i: nat, p: char -> bool): (n: nat)
    requires i <= |s|
    ensures i + n <= |s|
    ensures forall k :: i <= k < i + n ==> p(s[k])
    ensures i + n == |s| || !p(s[i + n])
    decreases |s| - i
  {
    if i == |s| || !p(s[i]) then 0 else 1 + Run(s, i + 1, p)
  }

  /** The label `word` matches at `i` when it is there up to ASCII case. */
  predicate LabelAt(s: string, i: nat, word: string) {
    i + |word| <= |s| && forall k :: 0 <= k < |word| ==> UpperAscii(s[i + k]) == UpperAscii(word[k])
  }

  /**
   * `label[:\s]+([A-Z0-9\-\/]+)` tried at position `i`. The separators are
   * no token characters, so the greedy separator run cannot give way to the
   * token, and the capture is the longest token run after it.
   */
  function CaptureAt(s: string, i: nat, word: string): (r: Option<string>)
    requires i <= |s|
    ensures r.Some? ==> r.value != [] && forall k :: 0 <= k < |r.value| ==> IsTokenChar(r.value[k])
  {
    if !LabelAt(s, i, word) then None
    else
      var j := i + |word|;
      var sep := Run(s, j, IsSeparator);
      if sep == 0 then None
      else
        var n := Run(s, j + sep, IsTokenChar);
        if n == 0 then None else Some(s[j + sep..j + sep + n])
  }

  /** The alternatives of one pattern tried at `i` in the engine's backtracking order; the first that matches wins. */
  function CaptureAtAny(s: string, i: nat, words: seq<string>): (r: Option<string>)
    requires i <= |s|
    ensures r.Some? ==> r.value != [] && forall k :: 0 <= k < |r.value| ==> IsTokenChar(r.value[k])
  {
    if words == [] then None
    else
      match CaptureAt(s, i, words[0])
      case Some(c) => Some(c)
      case None => CaptureAtAny(s, i, words[1..])
  }

  /** The alternative that wins at `i` is the first one that matches there. */
  lemma {:induction false} CaptureAtAnyIsFirst(s: string, i: nat, words: seq<string>)
    requires i <= |s|
    ensures CaptureAtAny(s, i, words).Some? ==>
      exists k :: 0 <= k < |words| && CaptureAt(s, i, words[k]) == CaptureAtAny(s, i, words) &&
        forall j :: 0 <= j < k ==> CaptureAt(s, i, words[j]).None?
    ensures CaptureAtAny(s, i, words).None? ==> forall k :: 0 <= k < |words| ==> CaptureAt(s, i, words[k]).None?
  {
    if words != [] && CaptureAt(s, i, words[0]).None? {
      CaptureAtAnyIsFirst(s, i, words[1..]);
      assert forall k :: 1 <= k < |words| ==> words[k] == words[1..][k - 1];
      if CaptureAtAny(s, i, words).Some? {
        var k :| 0 <= k < |words[1..]| && CaptureAt(s, i, words[1..][k]) == CaptureAtAny(s, i, words[1..]) &&
          forall j :: 0 <= j < k ==> CaptureAt(s, i, words[1..][j]).None?;
        assert CaptureAt(s, i, words[k + 1]) == CaptureAtAny(s, i, words);
      }
    }
  }

  /** The leftmost position, from `from` on, where some alternative of the pattern matches. */
  function MatchPosition(s: string, words: seq<string>, from: nat): (r: Option<nat>)
    requires from <= |s|
    ensures r.Some? ==> from <= r.value <= |s|
    decreases |s| - from
  {
    if CaptureAtAny(s, from, words).Some? then Some(from)
    else if from == |s| then None
    else MatchPosition(s, words, from + 1)
  }

  /** The position found is a match, and there is none before it. */
  lemma {:induction false} MatchPositionIsLeftmost(s: string, words: seq<string>, from: nat)
    requires from <= |s|
    ensures MatchPosition(s, words, from).Some? ==>
      CaptureAtAny(s, MatchPosition(s, words, from).value, words).Some?
    ensures forall i :: from <= i <= |s| && (MatchPosition(s, words, from).None? || i < MatchPosition(s, words, from).value) ==>
      CaptureAtAny(s, i, words).None?
    decreases |s| - from
  {
    if CaptureAtAny(s, from, words).None? && from < |s| {
      MatchPositionIsLeftmost(s, words, from + 1);
    }
  }

  /** `s.match(pattern)?.[1]`: the capture at the leftmost position where the pattern matches. */
  function PatternMatch(s: string, words: seq<string>): (r: Option<string>)
    ensures r.Some? ==> r.value != [] && forall k :: 0 <= k < |r.value| ==> IsTokenChar(r.value[k])
  {
    match MatchPosition(s, words, 0)
    case None => None
    case Some(i) => CaptureAtAny(s, i, words)
  }

  /** The label is matched up to case, the separator run is skipped, and the capture keeps its '/'. */
  lemma CaptureExample()
    ensures CaptureAt("az: 1/2", 0, "AZ") == Some("1/2")
  {
    var s := "az: 1/2";
    assert LabelAt(s, 0, "AZ") by {
      assert UpperAscii(s[0]) == 'A' && UpperAscii(s[1]) == 'Z';
    }
    ExampleRuns();
    assert s[4..7] == "1/2";
  }

  lemma ExampleRuns()
    ensures Run("az: 1/2", 2, IsSeparator) == 2
    ensures Run("az: 1/2", 4, IsTokenChar) == 3
  {
    var s := "az: 1/2";
    assert Run(s, 4, IsSeparator) == 0;
    assert Run(s, 3, IsSeparator) == 1;
    assert Run(s, 7, IsTokenChar) == 0;
    assert Run(s, 6, IsTokenChar) == 1;
    assert Run(s, 5, IsTokenChar) == 2;
  }

  /** "Rechnung Nr." is none of the spellings of the first pattern. */
  lemma InvoiceLabelNeedsS()
    ensures CaptureAtAny("Rechnung Nr. 123", 0, ReferencePatterns[0]).None?
  {
    var s := "Rechnung Nr. 123";
    var ws := ReferencePatterns[0];
    assert s[8] == ' ';
    forall k | 0 <= k < |ws|
      ensures !LabelAt(s, 0, ws[k])
    {
      assert UpperAscii(s[8]) != UpperAscii(ws[k][8]);
    }
    CaptureAtAnyIsFirst(s, 0, ws);
  }

  /**
   * The reference table, each pattern as its label alternatives in the
   * order the engine tries them: `-?` and `\.?` first with, then without
   * their character, `[- ]?` with '-' or ' ' before without.
   */
  const ReferencePatterns: seq<seq<string>> := [
    ["Rechnungs-Nr.", "Rechnungs-Nr", "RechnungsNr.", "RechnungsNr", "Rechnungsnummer"],
    ["Invoice-No.", "Invoice-Number", "Invoice-#", "Invoice No.", "Invoice Number", "Invoice #",
     "InvoiceNo.", "InvoiceNumber", "Invoice#"],
    ["Kunden-Nr.", "Kunden-Nr", "KundenNr.", "KundenNr", "Kundennummer"],
    ["Vertrags-Nr.", "Vertrags-Nr", "VertragsNr.", "VertragsNr", "Vertragsnummer"],
    ["Policen-Nr.", "Policen-Nr", "PolicenNr.", "PolicenNr",
     "Versicherungs-Nr.", "Versicherungs-Nr", "VersicherungsNr.", "VersicherungsNr"],
    ["Order-No.", "Order-#", "Order No.", "Order #", "OrderNo.", "Order#"],
    ["Aktenzeichen", "AZ"]]

  /** The pattern matches the text with a capture of at least `MinReferenceLength` characters. */
  predicate IsLongMatch(text: string, words: seq<string>) {
    var m := PatternMatch(text, words);
    m.Some? && |m.value| >= MinReferenceLength
  }

  /** For each pattern of the table, whether it gives a long enough capture. */
  function LongMatchFlags(text: string, patterns: seq<seq<string>>): (flags: seq<bool>)
    ensures |flags| == |patterns|
    ensures forall j :: 0 <= j < |patterns| ==> flags[j] == IsLongMatch(text, patterns[j])
  {
    seq(|patterns|, j requires 0 <= j < |patterns| => IsLongMatch(text, patterns[j]))
  }

  /** The capture of the first of `patterns` whose capture is long enough, if any. */
  function FirstLongCapture(text: string, patterns: seq<seq<string>>): (r: seq<string>)
    ensures |r| <= 1
    ensures r != [] ==> |r[0]| >= MinReferenceLength && forall k :: 0 <= k < |r[0]| ==> IsTokenChar(r[0][k])
    ensures r == [] <==> forall p :: 0 <= p < |patterns| ==> !IsLongMatch(text, patterns[p])
    ensures r != [] ==>
      exists p :: 0 <= p < |patterns| && IsLongMatch(text, patterns[p]) &&
        (forall j :: 0 <= j < p ==> !IsLongMatch(text, patterns[j])) &&
        Some(r[0]) == PatternMatch(text, patterns[p])
  {
    match FirstTrue(LongMatchFlags(text, patterns), 0)
    case None => []
    case Some(p) => [PatternMatch(text, patterns[p]).value]
  }

  /** The reference slot: the capture of the first pattern of the table whose capture is long enough. */
  function ReferenceSlot(text: string): (r: seq<string>)
    ensures |r| <= 1
    ensures r != [] ==> |r[0]| >= MinReferenceLength && forall k :: 0 <= k < |r[0]| ==> IsTokenChar(r[0][k])
  {
    FirstLongCapture(text, ReferencePatterns)
  }

  // ---------------------------------------------------------------------
  // The whole rule evaluation

  /** The suggestions in the order they are collected, after the letterhead date has had its say. */
  function Suggestions(text: string, originalName: string, birthtime: Option<Date>, custom: seq<string>): (r: seq<string>)
    ensures |r| <= 4
  {
    var collected := DateSlot(originalName, birthtime) + CompanySlot(text, custom) + DocTypeSlot(text);
    WithLetterheadDate(collected, text) + ReferenceSlot(text)
  }

  /** The name `generateSmartFilename` suggests. */
  function SmartFilename(text: string, originalName: string, birthtime: Option<Date>, custom: seq<string>): (name: string)
    ensures Suggestions(text, originalName, birthtime, custom) == [] ==> name == originalName
    ensures Suggestions(text, originalName, birthtime, custom) != [] ==>
      EndsWith(name, Paths.Extname(originalName)) &&
      CliNames.NoBadChar(name[..|name| - |Paths.Extname(originalName)|])
  {
    var s := Suggestions(text, originalName, birthtime, custom);
    if s == [] then originalName
    else
      var base := CliNames.SanitizeFilename(Join(s, "_"));
      var ext := Paths.Extname(originalName);
      assert (base + ext)[..|base|] == base;
      base + ext
  }

  /**
   * The first suggestion is the letterhead date when there is one, else the
   * scanner time stamp of the name, else the creation date.
   */
  lemma FirstSuggestionIsADate(text: string, originalName: string, birthtime: Option<Date>, custom: seq<string>)
    ensures LetterheadDate(text).Some? ==>
      Suggestions(text, originalName, birthtime, custom)[0] == LetterheadDate(text).value
    ensures LetterheadDate(text).None? && TemplateMatch(originalName, ScannerStamp).Some? ==>
      Suggestions(text, originalName, birthtime, custom)[0] == TemplateMatch(originalName, ScannerStamp).value
    ensures LetterheadDate(text).None? && TemplateMatch(originalName, ScannerStamp).None? && birthtime.Some? ==>
      Suggestions(text, originalName, birthtime, custom)[0] == BirthDate(birthtime.value)
  {
    var collected := DateSlot(originalName, birthtime) + CompanySlot(text, custom) + DocTypeSlot(text);
    var dated := WithLetterheadDate(collected, text);
    assert Suggestions(text, originalName, birthtime, custom) == dated + ReferenceSlot(text);
    if LetterheadDate(text).None? {
      assert dated == collected;
    }
  }

  /**
   * With no date slot, a letterhead date takes the place of the sender
   * found in the text: the sender disappears from the suggestions.
   */
  lemma LetterheadDateReplacesCompany(text: string, originalName: string, custom: seq<string>)
    requires TemplateMatch(originalName, ScannerStamp).None?
    requires CompanySlot(text, custom) != [] && LetterheadDate(text).Some?
    ensures Suggestions(text, originalName, None, custom) ==
      [LetterheadDate(text).value] + DocTypeSlot(text) + ReferenceSlot(text)
  {
    assert DateSlot(originalName, None) == [];
    OverwritesOnlySuggestion(CompanySlot(text, custom), DocTypeSlot(text), text);
  }

  /** A letterhead date overwrites a single first suggestion and keeps the rest. */
  lemma OverwritesOnlySuggestion(first: seq<string>, rest: seq<string>, text: string)
    requires |first| == 1 && LetterheadDate(text).Some?
    ensures WithLetterheadDate([] + first + rest, text) == [LetterheadDate(text).value] + rest
  {
    var r := WithLetterheadDate([] + first + rest, text);
    assert r[1..] == rest;
  }

  /** Only the first `LetterheadLength` characters are searched for a date. */
  lemma DatesAfterLetterheadIgnored(head: string, rest: string)
    requires |head| == LetterheadLength
    ensures LetterheadDate(head + rest) == LetterheadDate(head)
  {
    assert Prefix(head + rest, LetterheadLength) == head;
    assert Prefix(head, LetterheadLength) == head;
  }

  /** A '/' in the reference number is still there in the suggested name. */
  lemma SlashInReferenceSurvives(text: string, originalName: string, birthtime: Option<Date>, custom: seq<string>)
    requires ReferenceSlot(text) != [] && '/' in ReferenceSlot(text)[0]
    ensures '/' in SmartFilename(text, originalName, birthtime, custom)
  {
    var collected := DateSlot(originalName, birthtime) + CompanySlot(text, custom) + DocTypeSlot(text);
    var dated := WithLetterheadDate(collected, text);
    var sug := Suggestions(text, originalName, birthtime, custom);
    assert sug == dated + ReferenceSlot(text);
    assert sug[|sug| - 1] == ReferenceSlot(text)[0];
    JoinKeepsParts(sug, "_", |sug| - 1, '/');
    var base := CliNames.SanitizeFilename(Join(sug, "_"));
    CliNames.SlashIsKept(Join(sug, "_"));
    var name := SmartFilename(text, originalName, birthtime, custom);
    assert name == base + Paths.Extname(originalName);
    assert '/' in base;
  }

  /** The `for` loop with `break` shared by rules 2 and 3: the index of the first key the text contains. */
  method FindFirstContained(text: string, keys: seq<string>) returns (r: Option<nat>)
    ensures r == FirstTrue(ContainsFlags(text, keys), 0)
  {
    var i := 0;
    while i < |keys|
      invariant 0 <= i <= |keys|
      invariant forall j :: 0 <= j < i ==> !Contains(text, keys[j])
    {
      if Contains(text, keys[i]) {
        FirstContainedIs(text, keys, i);
        return Some(i);
      }
      i := i + 1;
    }
    NoneContained(text, keys);
    return None;
  }

  /** A contained key with no contained key before it is the first hit. */
  lemma FirstContainedIs(text: string, keys: seq<string>, i: nat)
    requires i < |keys| && Contains(text, keys[i])
    requires forall j :: 0 <= j < i ==> !Contains(text, keys[j])
    ensures FirstTrue(ContainsFlags(text, keys), 0) == Some(i)
  {
    FirstTrueIs(ContainsFlags(text, keys), i);
  }

  /** Without a contained key there is no hit. */
  lemma NoneContained(text: string, keys: seq<string>)
    requires forall j :: 0 <= j < |keys| ==> !Contains(text, keys[j])
    ensures FirstTrue(ContainsFlags(text, keys), 0) == None
  {
    var flags := ContainsFlags(text, keys);
    assert forall j :: 0 <= j < |flags| ==> !flags[j];
  }

  /** Rule 2, the sender loop: push the first company of the lexicon the text contains, then stop. */
  method PushCompany(suggestions: seq<string>, text: string, custom: seq<string>) returns (out: seq<string>)
    ensures out == suggestions + CompanySlot(text, custom)
  {
    var companies := Companies(custom);
    var k := FindFirstContained(text, companies);
    if k.Some? {
      out := suggestions + [CollapseSpaces(companies[k.value], '_')];
    } else {
      out := suggestions;
    }
  }

  /** Rule 3, the document-type loop: push the label of the first key the text contains, then stop. */
  method PushDocType(suggestions: seq<string>, text: string) returns (out: seq<string>)
    ensures out == suggestions + DocTypeSlot(text)
  {
    var k := FindFirstContained(text, DocTypeKeys());
    if k.Some? {
      out := suggestions + [DocTypes[k.value].1];
    } else {
      out := suggestions;
    }
  }

  /** Rule 4: a German letterhead date overwrites the first suggestion or is put in front; an ISO date only when there is none. */
  method PutLetterheadDate(suggestions: seq<string>, text: string) returns (out: seq<string>)
    ensures out == WithLetterheadDate(suggestions, text)
  {
    out := suggestions;
    var head := Prefix(text, LetterheadLength);
    var german := TemplateMatch(head, GermanDate);
    if german.Some? && |out| > 0 {
      out := out[0 := GermanToIso(german.value)];
    } else if german.Some? {
      out := [GermanToIso(german.value)] + out;
    }
    if german.None? {
      var iso := TemplateMatch(head, IsoDate);
      if iso.Some? && |out| > 0 {
        out := out[0 := iso.value];
      } else if iso.Some? {
        out := [iso.value] + out;
      }
    }
  }

  /** Rule 5, the reference loop: push the capture of the first pattern whose capture is long enough, then stop. */
  method PushReference(suggestions: seq<string>, text: string, patterns: seq<seq<string>>) returns (out: seq<string>)
    ensures out == suggestions + FirstLongCapture(text, patterns)
  {
    out := suggestions;
    var p := 0;
    while p < |patterns|
      invariant 0 <= p <= |patterns|
      invariant forall j :: 0 <= j < p ==> !IsLongMatch(text, patterns[j])
      invariant out == suggestions
    {
      var m := PatternMatch(text, patterns[p]);
      if m.Some? && |m.value| >= MinReferenceLength {
        FirstLongCaptureIs(text, patterns, p);
        out := out + [m.value];
        return;
      }
      assert !IsLongMatch(text, patterns[p]);
      p := p + 1;
    }
    NoLongCapture(text, patterns);
  }

  /** The capture of a long match with no long match before it is the reference. */
  lemma FirstLongCaptureIs(text: string, patterns: seq<seq<string>>, p: nat)
    requires p < |patterns| && IsLongMatch(text, patterns[p])
    requires forall j :: 0 <= j < p ==> !IsLongMatch(text, patterns[j])
    ensures FirstLongCapture(text, patterns) == [PatternMatch(text, patterns[p]).value]
  {
    FirstTrueIs(LongMatchFlags(text, patterns), p);
  }

  /** Without a long match there is no reference. */
  lemma NoLongCapture(text: string, patterns: seq<seq<string>>)
    requires forall j :: 0 <= j < |patterns| ==> !IsLongMatch(text, patterns[j])
    ensures FirstLongCapture(text, patterns) == []
  {
    var flags := LongMatchFlags(text, patterns);
    assert forall j :: 0 <= j < |flags| ==> !flags[j];
  }

  /**
   * `generateSmartFilename(text, originalName, filePath)`: the rules run
   * one after another on the growing list of suggestions.
   */
  method GenerateSmartFilename(text: string, originalName: string, birthtime: Option<Date>, custom: seq<string>)
    returns (name: string)
    ensures name == SmartFilename(text, originalName, birthtime, custom)
  {
    var suggestions: seq<string> := [];

    // Rule 1: the scanner time stamp, else the creation date.
    var stamp := TemplateMatch(originalName, ScannerStamp);
    if stamp.Some? {
      suggestions := suggestions + [stamp.value];
    }
    if stamp.None? && birthtime.Some? {
      suggestions := suggestions + [BirthDate(birthtime.value)];
    }
    assert suggestions == DateSlot(originalName, birthtime);

    suggestions := PushCompany(suggestions, text, custom);
    suggestions := PushDocType(suggestions, text);
    suggestions := PutLetterheadDate(suggestions, text);
    suggestions := PushReference(suggestions, text, ReferencePatterns);

    if |suggestions| == 0 {
      return originalName;
    }
    var ext := Paths.Extname(originalName);
    name := CliNames.SanitizeFilename(Join(suggestions, "_")) + ext;
  }
}
