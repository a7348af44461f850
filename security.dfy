/**
 * The scanner's input checks: the file-name sanitizer, the API-key format
 * check and its masking for logs, the text-length limit, and the decision
 * on the config file's permission bits.
 */
module Security {
  import opened Text
  import Paths

  const MaxFilenameLength: nat := 255
  const MaxTextLength: nat := 10 * 1024 * 1024
  const ApiKeyMinLength: nat := 10
  const ApiKeyMaxLength: nat := 200

  /** The regex class `[\x00-\x1f\x7f]`. */
  predicate IsControlOrDelete(c: char) {
    IsControl(c) || c as int == 0x7F
  }

  /** The regex class `[<>:"|?*]`. */
  const WindowsIllegal: set<char> := {'<', '>', ':', '"', '|', '?', '*'}

  predicate NotControl(c: char) { !IsControlOrDelete(c) }

  predicate NotIllegal(c: char) { c !in WindowsIllegal }

  /** The characters that may appear in a sanitized name. */
  predicate IsSafeNameChar(c: char) {
    !IsControlOrDelete(c) && c !in WindowsIllegal && c != '/' && c != '\\' && !IsSpace(c)
  }

  /** Windows device names. */
  const ReservedNames: seq<string> := [
    "CON", "PRN", "AUX", "NUL", "COM1", "COM2", "COM3", "COM4",
    "COM5", "COM6", "COM7", "COM8", "COM9", "LPT1", "LPT2", "LPT3",
    "LPT4", "LPT5", "LPT6", "LPT7", "LPT8", "LPT9"]

  /**
   * The stem, upper-cased, is a device name. ASCII upper-casing decides this
   * as `toUpperCase` does: no other character upper-cases to letters of these
   * names alone.
   */
  predicate IsReserved(stem: string) {
    UpperAsciiString(stem) in ReservedNames
  }

  /** Every device name starts with one of C, P, A, N and L, so no other initial makes one. */
  lemma InitialNotReserved(stem: string)
    requires stem != [] && UpperAscii(stem[0]) !in {'C', 'P', 'A', 'N', 'L'}
    ensures !IsReserved(stem)
  {
    assert UpperAsciiString(stem)[0] == UpperAscii(stem[0]);
  }

  /** The characters the replacements remove or turn into '_', whitespace aside. */
  predicate IsReplacedChar(c: char) {
    IsControlOrDelete(c) || c in WindowsIllegal || c == '/' || c == '\\'
  }

  /** The first four replacements: control and illegal characters go, separators become '_'. */
  function Replaced(name: string): (s: string)
    ensures |s| <= |name|
    ensures forall i :: 0 <= i < |s| ==> !IsReplacedChar(s[i])
    ensures forall c :: c in s ==> !IsReplacedChar(c)
  {
    var s1 := Keep(name, NotControl);
    var s2 := Keep(s1, NotIllegal);
    var s3 := ReplaceChar(ReplaceChar(s2, '/', '_'), '\\', '_');
    forall i | 0 <= i < |s3|
      ensures !IsReplacedChar(s3[i])
    {
      var j := ReplaceChar(s2, '/', '_')[i];
      assert j == s2[i] || j == '_';
      assert s2[i] in s1;
    }
    s3
  }

  /** What the first four replacements make of one character: nothing, '_', or the character itself. */
  function ReplacedChar(c: char): string {
    if IsControlOrDelete(c) || c in WindowsIllegal then []
    else if c == '/' || c == '\\' then "_"
    else [c]
  }

  /** `ReplacedChar` applied to each character of `name`, the pieces joined in order. */
  function ReplacedEach(name: string): string {
    if name == [] then [] else ReplacedChar(name[0]) + ReplacedEach(name[1..])
  }

  /** The replacements work character by character, keeping the order of the name. */
  lemma {:induction false} ReplacedIsCharByChar(name: string)
    ensures Replaced(name) == ReplacedEach(name)
  {
    if name != [] {
      assert name == [name[0]] + name[1..];
      ReplacedSplits([name[0]], name[1..]);
      ReplacedOne(name[0]);
      ReplacedIsCharByChar(name[1..]);
    }
  }

  lemma ReplacedSplits(a: string, b: string)
    ensures Replaced(a + b) == Replaced(a) + Replaced(b)
  {
    KeepSplits(a, b, NotControl);
    var a1, b1 := Keep(a, NotControl), Keep(b, NotControl);
    KeepSplits(a1, b1, NotIllegal);
    var a2, b2 := Keep(a1, NotIllegal), Keep(b1, NotIllegal);
    ReplaceCharSplits(a2, b2, '/', '_');
    ReplaceCharSplits(ReplaceChar(a2, '/', '_'), ReplaceChar(b2, '/', '_'), '\\', '_');
  }

  lemma ReplacedOne(c: char)
    ensures Replaced([c]) == ReplacedChar(c)
  {
    var s1 := Keep([c], NotControl);
    assert s1 == if NotControl(c) then [c] else [] by {
      assert [c][1..] == [];
    }
    var s2 := Keep(s1, NotIllegal);
    assert s2 == if NotControl(c) && NotIllegal(c) then [c] else [] by {
      if s1 != [] {
        assert s1[1..] == [];
      }
    }
  }

  /** Whitespace runs become '_' and runs of '.' a single '.'. */
  function Collapsed(s: string): (r: string)
    requires forall c :: c in s ==> !IsReplacedChar(c)
    ensures |r| <= |s|
    ensures forall i :: 0 <= i < |r| ==> IsSafeNameChar(r[i])
    ensures NoDouble(r, '.')
  {
    var s4 := CollapseSpaces(s, '_');
    var s5 := Squeeze(s4, '.');
    forall i | 0 <= i < |s5|
      ensures IsSafeNameChar(s5[i])
    {
      var x := s5[i];
      assert x in s4;
      var k :| 0 <= k < |s4| && s4[k] == x;
      assert !IsSpace(x);
      if x != '_' {
        assert x in s;
        var m :| 0 <= m < |s| && s[m] == x;
        assert !IsReplacedChar(x);
      }
    }
    s5
  }

  /**
   * `Collapsed` works run by run: cut anywhere but inside a whitespace run
   * or a run of '.', the two parts are collapsed separately.
   */
  lemma CollapsedSplits(a: string, b: string)
    requires forall c :: c in a ==> !IsReplacedChar(c)
    requires forall c :: c in b ==> !IsReplacedChar(c)
    requires a == [] || b == [] || !IsSpace(a[|a| - 1]) || !IsSpace(b[0])
    requires a == [] || b == [] || a[|a| - 1] != '.' || b[0] != '.'
    ensures Collapsed(a + b) == Collapsed(a) + Collapsed(b)
  {
    CollapseSpacesSplits(a, b, '_');
    var x, y := CollapseSpaces(a, '_'), CollapseSpaces(b, '_');
    assert x != [] && x[|x| - 1] == '.' ==> a[|a| - 1] == '.';
    assert y != [] && y[0] == '.' ==> b[0] == '.';
    SqueezeSplits(x, y, '.');
  }

  /** A whitespace run becomes a single '_'. */
  lemma CollapsedSpaceRun(ws: string)
    requires ws != [] && AllSpace(ws) && forall c :: c in ws ==> !IsReplacedChar(c)
    ensures Collapsed(ws) == "_"
  {
    CollapseSpaceRun(ws, '_');
  }

  /** A run of '.' becomes a single '.'. */
  lemma CollapsedDotRun(d: string)
    requires d != [] && forall i :: 0 <= i < |d| ==> d[i] == '.'
    ensures forall c :: c in d ==> !IsReplacedChar(c)
    ensures Collapsed(d) == "."
  {
    CollapseWithoutSpaces(d, '_');
    SqueezeRun(d, '.');
  }

  /** Any other character is kept. */
  lemma CollapsedKeepsChar(c: char)
    requires !IsReplacedChar(c) && !IsSpace(c) && c != '.'
    ensures Collapsed([c]) == [c]
  {
    CollapseWithoutSpaces([c], '_');
  }

  /** `s.replace(/^[._]+|[._]+$/g, '')`: the runs of '.' and '_' at both ends removed. */
  function Stripped(s: string): (r: string)
    ensures |r| <= |s|
    ensures r == [] || (r[0] !in {'.', '_'} && r[|r| - 1] !in {'.', '_'})
  {
    StripEnd(StripStart(s, {'.', '_'}), {'.', '_'})
  }

  /** What `Stripped` keeps of a safe name without doubled dots is still both. */
  lemma StrippedKeepsSafe(s: string)
    requires forall i :: 0 <= i < |s| ==> IsSafeNameChar(s[i])
    requires NoDouble(s, '.')
    ensures forall i :: 0 <= i < |Stripped(s)| ==> IsSafeNameChar(Stripped(s)[i])
    ensures NoDouble(Stripped(s), '.')
  {
    var s6 := StripStart(s, {'.', '_'});
    var r := StripEnd(s6, {'.', '_'});
    assert r == Stripped(s);
    var k := |s| - |s6|;
    assert s[k..|s|] == s6;
    CleanSlice(s, k, |s|);
    assert s6[0..|r|] == r;
    CleanSlice(s6, 0, |r|);
  }

  lemma CleanSlice(s: string, a: nat, b: nat)
    requires a <= b <= |s|
    requires forall i :: 0 <= i < |s| ==> IsSafeNameChar(s[i])
    requires NoDouble(s, '.')
    ensures forall i :: 0 <= i < b - a ==> IsSafeNameChar(s[a..b][i])
    ensures NoDouble(s[a..b], '.')
  {
    NoDoubleSlice(s, '.', a, b);
    SafeSlice(s, a, b);
  }

  /** The chain of replacements, `trim`, and the stripping of '.' and '_' from both ends. */
  function Cleaned(name: string): (s: string)
    ensures |s| <= |name|
    ensures forall i :: 0 <= i < |s| ==> IsSafeNameChar(s[i])
    ensures s == [] || (s[0] !in {'.', '_'} && s[|s| - 1] !in {'.', '_'})
    ensures NoDouble(s, '.')
  {
    var s5 := Collapsed(Replaced(name));
    TrimmedThenStrippedKeepsSafe(s5);
    TrimmedThenStripped(s5)
  }

  lemma TrimmedThenStrippedKeepsSafe(s: string)
    requires forall i :: 0 <= i < |s| ==> IsSafeNameChar(s[i])
    requires NoDouble(s, '.')
    ensures var r := TrimmedThenStripped(s);
      && |r| <= |s|
      && (forall i :: 0 <= i < |r| ==> IsSafeNameChar(r[i]))
      && (r == [] || (r[0] !in {'.', '_'} && r[|r| - 1] !in {'.', '_'}))
      && NoDouble(r, '.')
  {
    var r := TrimmedThenStripped(s);
    assert r == Stripped(s);
    StrippedKeepsSafe(s);
  }

  /** `.trim()` and the stripping; on safe characters the trim has nothing to remove. */
  function TrimmedThenStripped(s: string): (r: string)
    requires forall i :: 0 <= i < |s| ==> IsSafeNameChar(s[i])
    ensures r == Stripped(s)
  {
    SafeIsTrimmed(s);
    Stripped(Trim(s))
  }

  /** A name of safe characters has no whitespace to trim. */
  lemma SafeIsTrimmed(s: string)
    requires forall i :: 0 <= i < |s| ==> IsSafeNameChar(s[i])
    ensures Trim(s) == s
  {
    assert s != [] ==> IsSafeNameChar(s[0]) && IsSafeNameChar(s[|s| - 1]);
    TrimOfTrimmed(s);
  }

  lemma SafeSlice(s: string, a: nat, b: nat)
    requires a <= b <= |s|
    requires forall i :: 0 <= i < |s| ==> IsSafeNameChar(s[i])
    ensures forall i :: 0 <= i < b - a ==> IsSafeNameChar(s[a..b][i])
  {
    forall i | 0 <= i < b - a
      ensures IsSafeNameChar(s[a..b][i])
    {
      assert s[a..b][i] == s[a + i];
    }
  }

  /** `s.substring(0, n)`: JavaScript clamps `n` into `[0, |s|]`. */
  function Substring(s: string, n: int): (r: string)
    ensures r == s[..if n < 0 then 0 else if n > |s| then |s| else n]
  {
    s[..if n < 0 then 0 else if n > |s| then |s| else n]
  }

  /**
   * The length check: an over-long name keeps its extension and as much of
   * its beginning as fits in front of it.
   */
  function Truncated(s: string): (t: string)
    ensures |s| <= MaxFilenameLength ==> t == s
    ensures Paths.NoSlash(s) && |s| > MaxFilenameLength ==>
      var e := |Paths.Extname(s)|;
      t == s[..if e <= MaxFilenameLength then MaxFilenameLength - e else 0] + s[|s| - e..]
    ensures Paths.NoSlash(s) && |s| > MaxFilenameLength && |Paths.Extname(s)| <= MaxFilenameLength ==>
      |t| == MaxFilenameLength
  {
    if |s| > MaxFilenameLength then
      var ext := Paths.Extname(s);
      var base := Paths.Stem(s);
      if Paths.NoSlash(s) then
        Paths.SplitExtension(s);
        assert base == s[..|s| - |ext|] && ext == s[|s| - |ext|..];
        Substring(base, MaxFilenameLength - |ext|) + ext
      else
        Substring(base, MaxFilenameLength - |ext|) + ext
    else s
  }

  /** Safe characters exclude '/', so a sanitized name has no directory part. */
  lemma SafeHasNoSlash(s: string)
    requires forall i :: 0 <= i < |s| ==> IsSafeNameChar(s[i])
    ensures Paths.NoSlash(s)
  {
    forall i | 0 <= i < |s|
      ensures s[i] != '/'
    {
      assert IsSafeNameChar(s[i]);
    }
  }

  lemma SafeConcat(a: string, b: string)
    requires forall i :: 0 <= i < |a| ==> IsSafeNameChar(a[i])
    requires forall i :: 0 <= i < |b| ==> IsSafeNameChar(b[i])
    ensures forall i :: 0 <= i < |a + b| ==> IsSafeNameChar((a + b)[i])
  {
    forall i | 0 <= i < |a + b|
      ensures IsSafeNameChar((a + b)[i])
    {
      if i < |a| {
        assert (a + b)[i] == a[i];
      } else {
        assert (a + b)[i] == b[i - |a|];
      }
    }
  }

  /** When the extension fits, the truncated name fits. */
  lemma TruncatedFits(s: string)
    requires Paths.NoSlash(s)
    ensures |Paths.Extname(s)| <= MaxFilenameLength ==> |Truncated(s)| <= MaxFilenameLength
  {
  }

  /** Truncation keeps only characters of its input. */
  lemma TruncatedKeepsSafe(s: string)
    requires forall i :: 0 <= i < |s| ==> IsSafeNameChar(s[i])
    ensures forall i :: 0 <= i < |Truncated(s)| ==> IsSafeNameChar(Truncated(s)[i])
  {
    if |s| > MaxFilenameLength {
      SafeHasNoSlash(s);
      var e := |Paths.Extname(s)|;
      var k := if e <= MaxFilenameLength then MaxFilenameLength - e else 0;
      SafeSlice(s, 0, k);
      SafeSlice(s, |s| - e, |s|);
      assert s[..k] == s[0..k] && s[|s| - e..] == s[|s| - e..|s|];
      SafeConcat(s[..k], s[|s| - e..]);
    }
  }

  /** The stem of a non-empty bare name starts with the name's first character. */
  lemma StemStartsName(p: string)
    requires Paths.NoSlash(p) && p != ""
    ensures Paths.Stem(p) != "" && Paths.Stem(p)[0] == p[0]
  {
    Paths.SplitExtension(p);
    assert p[0] == (Paths.Stem(p) + Paths.Extname(p))[0];
  }

  /** A safe name with '_' in front is safe and its stem is no device name. */
  lemma UnderscorePrefixed(u: string)
    requires forall i :: 0 <= i < |u| ==> IsSafeNameChar(u[i])
    ensures forall i :: 0 <= i < |"_" + u| ==> IsSafeNameChar(("_" + u)[i])
    ensures !IsReserved(Paths.Stem("_" + u))
  {
    assert IsSafeNameChar('_');
    SafeConcat("_", u);
    var r := "_" + u;
    SafeHasNoSlash(r);
    StemStartsName(r);
    InitialNotReserved(Paths.Stem(r));
  }

  /** "unnamed" is a safe name. */
  lemma UnnamedIsSafe()
    ensures forall i :: 0 <= i < |"unnamed"| ==> IsSafeNameChar("unnamed"[i])
  {
  }

  /** "unnamed" is no device name. */
  lemma UnnamedNotReserved(u: string)
    requires u == "unnamed"
    ensures !IsReserved(Paths.Stem(u))
  {
    assert u[0] == 'u';
    assert Paths.NoSlash(u);
    StemStartsName(u);
    InitialNotReserved(Paths.Stem(u));
  }

  /** The final steps: an empty name becomes "unnamed", and a device-name stem gets a '_' in front. */
  function Unreserved(t: string): (r: string)
    requires forall i :: 0 <= i < |t| ==> IsSafeNameChar(t[i])
    ensures r != ""
    ensures forall i :: 0 <= i < |r| ==> IsSafeNameChar(r[i])
    ensures !IsReserved(Paths.Stem(r))
    ensures |r| <= (if t == "" then |"unnamed"| else |t|) + 1
    ensures t == "" ==> r == "unnamed"
    ensures t != "" && IsReserved(Paths.Stem(t)) ==> r == "_" + t
    ensures t != "" && !IsReserved(Paths.Stem(t)) ==> r == t
  {
    UnnamedIsSafe();
    UnnamedNotReserved("unnamed");
    var u := if t == "" then "unnamed" else t;
    if IsReserved(Paths.Stem(u)) then
      UnderscorePrefixed(u);
      "_" + u
    else u
  }

  /** `sanitizeFilename(filename)` from the security module. */
  function SanitizeFilename(name: string): (r: string)
    ensures r != ""
    ensures name == "" ==> r == "unnamed"
    ensures forall i :: 0 <= i < |r| ==> IsSafeNameChar(r[i])
    ensures !IsReserved(Paths.Stem(r))
    ensures name != "" && |Paths.Extname(Cleaned(name))| <= MaxFilenameLength ==> |r| <= MaxFilenameLength + 1
    ensures name != "" && Cleaned(name) == "" ==> r == "unnamed"
    ensures name != "" && Cleaned(name) != "" && |Cleaned(name)| <= MaxFilenameLength ==>
      r == (if IsReserved(Paths.Stem(Cleaned(name))) then "_" + Cleaned(name) else Cleaned(name))
  {
    if name == "" then
      UnnamedIsSafe();
      UnnamedNotReserved("unnamed");
      "unnamed"
    else
      Finalized(Cleaned(name))
  }

  /** The steps after the replacements: the length check, then the empty and device-name checks. */
  function Finalized(s: string): (r: string)
    requires forall i :: 0 <= i < |s| ==> IsSafeNameChar(s[i])
    ensures r != ""
    ensures forall i :: 0 <= i < |r| ==> IsSafeNameChar(r[i])
    ensures !IsReserved(Paths.Stem(r))
    ensures |Paths.Extname(s)| <= MaxFilenameLength ==> |r| <= MaxFilenameLength + 1
    ensures s == "" ==> r == "unnamed"
    ensures s != "" && |s| <= MaxFilenameLength ==>
      r == (if IsReserved(Paths.Stem(s)) then "_" + s else s)
  {
    SafeHasNoSlash(s);
    TruncatedKeepsSafe(s);
    TruncatedFits(s);
    Unreserved(Truncated(s))
  }

  /**
   * The length limit does not survive the device-name check: "CONX." followed
   * by 251 'a' is cut to the 255 characters "CON." + 251 'a', whose stem is
   * the device name CON, and the '_' in front makes 256.
   */
  lemma SanitizedNameCanExceedLimit()
    ensures |SanitizeFilename("CONX." + seq(251, _ => 'a'))| == MaxFilenameLength + 1
  {
    ExceedsWith(seq(251, _ => 'a'));
  }

  lemma ExceedsWith(tail: string)
    requires |tail| == 251 && forall i :: 0 <= i < |tail| ==> tail[i] == 'a'
    ensures |SanitizeFilename("CONX." + tail)| == MaxFilenameLength + 1
  {
    var name := "CONX." + tail;
    ExampleIsPlain(tail);
    PlainIsSafe(name);
    CleanedKeepsSafeName(name);
    FinalizedExample(tail);
  }

  lemma FinalizedExample(tail: string)
    requires |tail| == 251 && forall i :: 0 <= i < |tail| ==> tail[i] == 'a'
    ensures forall i :: 0 <= i < |"CONX." + tail| ==> IsSafeNameChar(("CONX." + tail)[i])
    ensures |Finalized("CONX." + tail)| == MaxFilenameLength + 1
  {
    var name := "CONX." + tail;
    ExampleIsPlain(tail);
    PlainIsSafe(name);
    TruncatedExample(tail);
    ReservedExample(tail);
    FinalizedPrefixes(name);
  }

  /** When the truncated name's stem is a device name, finalizing adds exactly the '_'. */
  lemma FinalizedPrefixes(s: string)
    requires forall i :: 0 <= i < |s| ==> IsSafeNameChar(s[i])
    requires Truncated(s) != "" && IsReserved(Paths.Stem(Truncated(s)))
    ensures Finalized(s) == "_" + Truncated(s)
  {
  }

  lemma ExampleIsPlain(tail: string)
    requires |tail| == 251 && forall i :: 0 <= i < |tail| ==> tail[i] == 'a'
    ensures var name := "CONX." + tail;
      (forall i :: 0 <= i < |name| ==> IsAsciiLetter(name[i]) || name[i] == '.') &&
      NoDouble(name, '.') && IsAsciiLetter(name[0]) && IsAsciiLetter(name[|name| - 1])
  {
    var name := "CONX." + tail;
    assert forall i :: 5 <= i < |name| ==> name[i] == tail[i - 5];
    assert forall i :: 0 <= i < |name| && i != 4 ==> name[i] != '.';
  }

  lemma TruncatedExample(tail: string)
    requires |tail| == 251 && forall i :: 0 <= i < |tail| ==> tail[i] == 'a'
    ensures Truncated("CONX." + tail) == "CON." + tail
  {
    var name := "CONX." + tail;
    ExtnameOfOneDot(name, 4);
    assert name[..3] + name[4..] == "CON." + tail;
  }

  lemma ReservedExample(tail: string)
    requires |tail| == 251 && forall i :: 0 <= i < |tail| ==> tail[i] == 'a'
    ensures IsReserved(Paths.Stem("CON." + tail))
  {
    StemOfExample(tail);
    ConIsReserved();
  }

  lemma StemOfExample(tail: string)
    requires |tail| == 251 && forall i :: 0 <= i < |tail| ==> tail[i] == 'a'
    ensures Paths.Stem("CON." + tail) == "CON"
  {
    var p := "CON." + tail;
    assert forall i :: 4 <= i < |p| ==> p[i] == tail[i - 4];
    ExtnameOfOneDot(p, 3);
    assert p[..3] == "CON";
  }

  lemma ConIsReserved()
    ensures IsReserved("CON")
  {
    assert UpperAsciiString("CON") == "CON";
  }

  /** In a bare name with a single '.', at index `d > 0`, the extension starts at `d`. */
  lemma ExtnameOfOneDot(p: string, d: nat)
    requires 0 < d < |p| && p[d] == '.'
    requires forall i :: 0 <= i < |p| && i != d ==> p[i] != '.' && p[i] != '/'
    ensures Paths.NoSlash(p)
    ensures Paths.Extname(p) == p[d..] && Paths.Stem(p) == p[..d]
  {
    assert Paths.Basename(p) == p;
    LastIndexOfIs(p, '.', d);
    assert p[0] != '.';
    assert Paths.Extname(p) == p[d..];
    var stem := Paths.Stem(p);
    assert stem + p[d..] == p;
    assert stem == (stem + p[d..])[..d];
  }

  /**
   * A name that is already clean comes through the replacements unchanged:
   * safe characters, no doubled '.', and no '.' or '_' at either end.
   */
  lemma CleanedKeepsSafeName(name: string)
    requires forall i :: 0 <= i < |name| ==> IsSafeNameChar(name[i])
    requires NoDouble(name, '.')
    requires name == [] || (name[0] !in {'.', '_'} && name[|name| - 1] !in {'.', '_'})
    ensures Cleaned(name) == name
  {
    ReplacedKeepsSafe(name);
    CollapsedKeepsSafe(name);
    StrippedKeepsClean(name);
    assert TrimmedThenStripped(name) == name;
  }

  lemma StrippedKeepsClean(name: string)
    requires name == [] || (name[0] !in {'.', '_'} && name[|name| - 1] !in {'.', '_'})
    ensures Stripped(name) == name
  {
    StripStartOfClean(name, {'.', '_'});
    StripEndOfClean(name, {'.', '_'});
  }

  lemma PlainIsSafe(name: string)
    requires forall i :: 0 <= i < |name| ==> IsAsciiLetter(name[i]) || name[i] == '.'
    ensures forall i :: 0 <= i < |name| ==> IsSafeNameChar(name[i])
  {
  }

  lemma ReplacedKeepsSafe(name: string)
    requires forall i :: 0 <= i < |name| ==> IsSafeNameChar(name[i])
    ensures Replaced(name) == name
  {
    assert forall i :: 0 <= i < |name| ==> NotControl(name[i]) && NotIllegal(name[i]);
    KeepAll(name, NotControl);
    KeepAll(name, NotIllegal);
    assert ReplaceChar(name, '/', '_') == name;
    assert ReplaceChar(name, '\\', '_') == name;
  }

  lemma CollapsedKeepsSafe(name: string)
    requires forall i :: 0 <= i < |name| ==> IsSafeNameChar(name[i])
    requires NoDouble(name, '.')
    ensures forall c :: c in name ==> !IsReplacedChar(c)
    ensures Collapsed(name) == name
  {
    CollapseWithoutSpaces(name, '_');
    SqueezeWithoutDoubles(name, '.');
  }

  /** A name that is already clean, short enough and no device name is returned as it is. */
  lemma SanitizeFilenameKeepsCleanName(name: string)
    requires name != "" && |name| <= MaxFilenameLength
    requires forall i :: 0 <= i < |name| ==> IsSafeNameChar(name[i])
    requires NoDouble(name, '.')
    requires name[0] !in {'.', '_'} && name[|name| - 1] !in {'.', '_'}
    requires !IsReserved(Paths.Stem(name))
    ensures SanitizeFilename(name) == name
  {
    CleanedKeepsSafeName(name);
  }

  /** `t` with the last character of its stem replaced by a leading '_'. */
  function Shortened(t: string): (r: string)
    requires t != "" && forall i :: 0 <= i < |t| ==> IsSafeNameChar(t[i])
    ensures |r| == |t|
    ensures forall i :: 0 <= i < |r| ==> IsSafeNameChar(r[i])
    ensures !IsReserved(Paths.Stem(r))
  {
    SafeHasNoSlash(t);
    Paths.SplitExtension(t);
    var k := |Paths.Stem(t)|;
    SafeSlice(t, 0, k - 1);
    SafeSlice(t, k, |t|);
    assert t[..k - 1] == t[0..k - 1] && t[k..] == t[k..|t|];
    SafeConcat(t[..k - 1], t[k..]);
    var u := t[..k - 1] + t[k..];
    UnderscorePrefixed(u);
    "_" + u
  }

  /**
   * The same sanitizer with the limit kept: when the '_' would push the name
   * past 255 characters, the last character of the stem gives way to it.
   */
  function SanitizeFilenameWithinLimit(name: string): (r: string)
    ensures r != ""
    ensures name == "" ==> r == "unnamed"
    ensures forall i :: 0 <= i < |r| ==> IsSafeNameChar(r[i])
    ensures !IsReserved(Paths.Stem(r))
    ensures name != "" && |Paths.Extname(Cleaned(name))| <= MaxFilenameLength ==> |r| <= MaxFilenameLength
    ensures name != "" && Cleaned(name) == "" ==> r == "unnamed"
    ensures name != "" && Cleaned(name) != "" && |Cleaned(name)| < MaxFilenameLength ==>
      r == (if IsReserved(Paths.Stem(Cleaned(name))) then "_" + Cleaned(name) else Cleaned(name))
  {
    if name == "" then
      UnnamedIsSafe();
      UnnamedNotReserved("unnamed");
      "unnamed"
    else
      FinalizedWithinLimit(Cleaned(name))
  }

  function FinalizedWithinLimit(s: string): (r: string)
    requires forall i :: 0 <= i < |s| ==> IsSafeNameChar(s[i])
    ensures r != ""
    ensures forall i :: 0 <= i < |r| ==> IsSafeNameChar(r[i])
    ensures !IsReserved(Paths.Stem(r))
    ensures |Paths.Extname(s)| <= MaxFilenameLength ==> |r| <= MaxFilenameLength
    ensures s == "" ==> r == "unnamed"
    ensures s != "" && |s| < MaxFilenameLength ==>
      r == (if IsReserved(Paths.Stem(s)) then "_" + s else s)
    ensures s != "" && |s| == MaxFilenameLength ==>
      r == (if IsReserved(Paths.Stem(s)) then Shortened(s) else s)
  {
    SafeHasNoSlash(s);
    TruncatedKeepsSafe(s);
    TruncatedFits(s);
    UnnamedIsSafe();
    UnnamedNotReserved("unnamed");
    var t := Truncated(s);
    var u := if t == "" then "unnamed" else t;
    if IsReserved(Paths.Stem(u)) then
      if |u| < MaxFilenameLength then
        UnderscorePrefixed(u);
        "_" + u
      else
        Shortened(u)
    else u
  }

  datatype ApiKeyError = KeyMissing | KeyTooShort | KeyTooLong | KeyBadCharacters

  /** The regex class `[a-zA-Z0-9_-]`. */
  predicate IsKeyChar(c: char) {
    IsAsciiLetter(c) || IsDigit(c) || c == '_' || c == '-'
  }

  /** `validateApiKey(apiKey)`: `None` when the key is well-formed, else the first failed check. */
  function ValidateApiKey(key: Option<string>): (e: Option<ApiKeyError>)
    ensures e.None? <==> key.Some? && ApiKeyMinLength <= |key.value| <= ApiKeyMaxLength &&
                         forall i :: 0 <= i < |key.value| ==> IsKeyChar(key.value[i])
    ensures e == Some(KeyMissing) <==> key.None? || key.value == ""
    ensures e == Some(KeyTooShort) <==> key.Some? && 0 < |key.value| < ApiKeyMinLength
    ensures e == Some(KeyTooLong) <==> key.Some? && |key.value| > ApiKeyMaxLength
  {
    if key.None? || key.value == "" then Some(KeyMissing)
    else if |key.value| < ApiKeyMinLength then Some(KeyTooShort)
    else if |key.value| > ApiKeyMaxLength then Some(KeyTooLong)
    else if exists i :: 0 <= i < |key.value| && !IsKeyChar(key.value[i]) then Some(KeyBadCharacters)
    else None
  }

  /** `maskApiKey(apiKey)`: the first eight and last four characters around "...". */
  function MaskApiKey(key: string): (m: string)
    ensures |key| < 12 ==> m == "***"
    ensures |key| >= 12 ==> |m| == 15 && m[..8] == key[..8] && m[8..11] == "..." && m[11..] == key[|key| - 4..]
  {
    if |key| < 12 then "***" else key[..8] + "..." + key[|key| - 4..]
  }

  /** The mask shows nothing of a key beyond its first eight and last four characters. */
  lemma MaskHidesTheMiddle(k1: string, k2: string)
    requires |k1| >= 12 && |k2| >= 12
    requires k1[..8] == k2[..8] && k1[|k1| - 4..] == k2[|k2| - 4..]
    ensures MaskApiKey(k1) == MaskApiKey(k2)
  {
  }

  /** `validateTextLength(text)`: true when the text is within the limit. */
  function ValidateTextLength(text: string): (ok: bool)
    ensures ok <==> |text| <= MaxTextLength
  {
    |text| <= MaxTextLength
  }

  datatype Permission = Secure | WorldReadable | GroupReadable

  /**
   * The decision in `checkConfigPermissions`: `mode` is the file's `st_mode`,
   * or `None` when `stat` throws; Windows is never checked.
   */
  function CheckConfigPermissions(isWindows: bool, mode: Option<bv32>): (p: Permission)
    ensures p == WorldReadable <==> !isWindows && mode.Some? && mode.value & 0x4 != 0
    ensures p == GroupReadable <==> !isWindows && mode.Some? && mode.value & 0x4 == 0 && mode.value & 0x20 != 0
  {
    if isWindows then Secure
    else match mode
      case None => Secure
      case Some(m) =>
        var bits := m & 0x1FF;
        if bits & 0x4 != 0 then WorldReadable
        else if bits & 0x20 != 0 then GroupReadable
        else Secure
  }

  /** Modes 600 and 400 pass; 644 is world-readable and 640 group-readable. */
  lemma PermissionExamples()
    ensures CheckConfigPermissions(false, Some(0x180)) == Secure
    ensures CheckConfigPermissions(false, Some(0x100)) == Secure
    ensures CheckConfigPermissions(false, Some(0x1A4)) == WorldReadable
    ensures CheckConfigPermissions(false, Some(0x1A0)) == GroupReadable
  {
  }
}
