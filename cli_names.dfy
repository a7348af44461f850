/**
 * The command-line tool's own file-name sanitizer and validator, which
 * vet the names it suggests before renaming. They are separate from the
 * stricter sanitizer of the security module.
 */
module CliNames {
  import opened Text

  // ---------------------------------------------------------------------
  // sanitizeFilename

  /** `[<>:"|?*\x00-\x1F]` becomes '_' and '\' becomes '-', character by character. */
  function Replaced(s: string): (r: string)
    ensures |r| == |s|
    ensures forall i :: 0 <= i < |r| ==> !IsIllegalNameChar(r[i]) && r[i] != '\\'
    ensures forall i :: 0 <= i < |s| && !IsIllegalNameChar(s[i]) && s[i] != '\\' ==> r[i] == s[i]
  {
    seq(|s|, i requires 0 <= i < |s| =>
      if IsIllegalNameChar(s[i]) then '_' else if s[i] == '\\' then '-' else s[i])
  }

  predicate NoBadChar(s: string) {
    forall i :: 0 <= i < |s| ==> !IsIllegalNameChar(s[i]) && s[i] != '\\'
  }

  /** A string whose characters all come from `s` has no bad character if `s` has none. */
  lemma NoBadCharOfSubset(s: string, r: string)
    requires NoBadChar(s)
    requires forall x :: x in r ==> x in s
    ensures NoBadChar(r)
  {
    forall i | 0 <= i < |r|
      ensures !IsIllegalNameChar(r[i]) && r[i] != '\\'
    {
      assert r[i] in r;
      var k :| 0 <= k < |s| && s[k] == r[i];
    }
  }

  /** `.trim()`, which keeps the absence of bad characters. */
  function Trimmed(s: string): (r: string)
    requires NoBadChar(s)
    ensures NoBadChar(r)
  {
    var r := Trim(s);
    NoBadCharOfSubset(s, r);
    r
  }

  /** `.replace(/_+/g, '_').replace(/^_|_$/g, '')`. */
  function Squeezed(s: string): (r: string)
    requires NoBadChar(s)
    ensures NoBadChar(r) && NoDouble(r, '_')
    ensures r == [] || (r[0] != '_' && r[|r| - 1] != '_')
  {
    var t := Squeeze(s, '_');
    var r := DropEdges(t, '_');
    NoBadCharOfSubset(s, t);
    NoBadCharOfSubset(t, r);
    r
  }

  /**
   * `sanitizeFilename(filename)` of the CLI: illegal characters become '_',
   * '\' becomes '-', then the name is trimmed, runs of '_' are squeezed and
   * one '_' is dropped at each end. Unicode normalisation is the identity
   * here, and '/' is kept.
   */
  function SanitizeFilename(name: string): (r: string)
    ensures NoBadChar(r)
    ensures NoDouble(r, '_')
    ensures r == [] || (r[0] != '_' && r[|r| - 1] != '_')
  {
    Squeezed(Trimmed(Replaced(name)))
  }

  /** A name already of the sanitized form: edges neither whitespace nor '_', no bad character, no "__". */
  ghost predicate IsCleanName(s: string) {
    NoBadChar(s) && NoDouble(s, '_') &&
    (s == [] || (!IsSpace(s[0]) && !IsSpace(s[|s| - 1]) && s[0] != '_' && s[|s| - 1] != '_'))
  }

  /** The sanitizer leaves a name of the sanitized form unchanged. */
  lemma SanitizeKeepsCleanName(s: string)
    requires IsCleanName(s)
    ensures SanitizeFilename(s) == s
  {
    assert Replaced(s) == s;
    TrimOfTrimmed(s);
    assert Trimmed(s) == s;
    SqueezeWithoutDoubles(s, '_');
    assert Squeezed(s) == s;
  }

  /** '/' is not among the characters the sanitizer replaces or drops. */
  lemma SlashIsKept(s: string)
    requires '/' in s
    ensures '/' in SanitizeFilename(s)
  {
    var k :| 0 <= k < |s| && s[k] == '/';
    var r := Replaced(s);
    assert r[k] == '/';
    TrimKeepsNonSpace(r, k);
    var t := Trimmed(r);
    var q := Squeeze(t, '_');
    assert '/' in q;
    DropEdgesKeeps(q, '_', '/');
  }

  /** The sanitizer is not idempotent: trimming comes before the '_' at the front is dropped. */
  lemma SanitizeIsNotIdempotent()
    ensures SanitizeFilename("_ a") == " a"
    ensures SanitizeFilename(SanitizeFilename("_ a")) == "a"
  {
    UnderscoreSpaceExample();
    SpaceExample();
  }

  lemma UnderscoreSpaceExample()
    ensures SanitizeFilename("_ a") == " a"
  {
    ReplacedUnderscoreSpaceA();
    TrimmedUnderscoreSpaceA();
    SqueezedUnderscoreSpaceA();
  }

  lemma ReplacedUnderscoreSpaceA()
    ensures Replaced("_ a") == "_ a"
  {
  }

  lemma NoBadCharUnderscoreSpaceA()
    ensures NoBadChar("_ a")
  {
    ReplacedUnderscoreSpaceA();
  }

  lemma TrimmedUnderscoreSpaceA()
    ensures NoBadChar("_ a") && Trimmed("_ a") == "_ a"
  {
    NoBadCharUnderscoreSpaceA();
    assert !IsSpace("_ a"[0]) && !IsSpace("_ a"[2]);
    TrimOfTrimmed("_ a");
  }

  lemma SqueezedUnderscoreSpaceA()
    ensures NoBadChar("_ a") && Squeezed("_ a") == " a"
  {
    NoBadCharUnderscoreSpaceA();
    SqueezeExample();
    assert "_ a"[1..] == " a";
  }

  lemma SqueezeExample()
    ensures Squeeze("_ a", '_') == "_ a"
  {
    assert Squeeze("a", '_') == "a";
    assert Squeeze(" a", '_') == " a";
  }

  lemma SpaceExample()
    ensures SanitizeFilename(" a") == "a"
  {
    ReplacedSpaceA();
    TrimOfSpaceA();
    SqueezedA();
  }

  lemma ReplacedSpaceA()
    ensures Replaced(" a") == " a"
  {
  }

  lemma SqueezedA()
    ensures Squeezed("a") == "a"
  {
    assert Squeeze("a", '_') == "a";
  }

  lemma TrimOfSpaceA()
    ensures Trim(" a") == "a"
  {
    TrimStartOfA();
    TrimStartOfSpaceA();
    TrimEndOfA();
  }

  lemma TrimStartOfA()
    ensures TrimStart("a") == "a"
  {
  }

  lemma TrimStartOfSpaceA()
    ensures TrimStart(" a") == "a"
  {
    assert IsSpace(" a"[0]);
    assert " a"[1..] == "a";
    TrimStartOfA();
  }

  lemma TrimEndOfA()
    ensures TrimEnd("a") == "a"
  {
  }

  // ---------------------------------------------------------------------
  // validateFilename

  /** The reasons `validateFilename` gives, in the order it checks them. */
  datatype NameError =
    | Empty
    | TooLong(length: nat)
    | IllegalChars
    | Reserved
    | TrailingDotOrSpace

  datatype Validation = Validation(valid: bool, errors: seq<NameError>)

  const MaxNameLength := 255

  /** The name is missing or all whitespace. */
  predicate IsBlank(name: string) {
    AllSpace(name)
  }

  /** `!filename || filename.trim().length === 0`, which is blankness. */
  function TrimsToNothing(name: string): (b: bool)
    ensures b <==> IsBlank(name)
  {
    TrimEmptyIffAllSpace(name);
    name == "" || |Trim(name)| == 0
  }

  predicate HasIllegalChar(name: string) {
    exists i :: 0 <= i < |name| && IsIllegalNameChar(name[i])
  }

  /** `name.replace(/\.[^.]+$/, '')`: the last '.' and what follows it, when something does, removed. */
  function StripLastExtension(name: string): (b: string)
    ensures |b| <= |name| && b == name[..|b|]
    ensures forall j :: |b| < j < |name| ==> name[j] != '.'
    ensures b == name || (|b| < |name| - 1 && name[|b|] == '.')
    ensures b == name <==> (forall j :: 0 <= j < |name| ==> name[j] != '.') || name[|name| - 1] == '.'
  {
    match LastIndexOf(name, '.')
    case None => name
    case Some(d) => if d < |name| - 1 then name[..d] else name
  }

  /** An upper-cased word in `CON|PRN|AUX|NUL|COM[1-9]|LPT[1-9]`. */
  predicate IsDeviceWord(u: string) {
    u == "CON" || u == "PRN" || u == "AUX" || u == "NUL" ||
    (|u| == 4 && (u[..3] == "COM" || u[..3] == "LPT") && '1' <= u[3] <= '9')
  }

  /** The characters the regex `.` does not match. */
  predicate IsLineTerminator(c: char) {
    c == '\n' || c == '\r' || c == '\U{2028}' || c == '\U{2029}'
  }

  predicate NoLineTerminator(s: string) {
    forall i :: 0 <= i < |s| ==> !IsLineTerminator(s[i])
  }

  /**
   * `/^(CON|PRN|AUX|NUL|COM[1-9]|LPT[1-9])(\..*)?$/i` on the base name: a
   * device word, alone or followed by '.' and one line of anything.
   * Without the `u` flag the case folding maps no other character to an
   * ASCII letter, so upper-casing ASCII letters is the whole of it.
   */
  predicate IsReservedBase(b: string) {
    var u := UpperAsciiString(b);
    IsDeviceWord(u) ||
    (|u| > 3 && IsDeviceWord(u[..3]) && u[3] == '.' && NoLineTerminator(u[4..])) ||
    (|u| > 4 && IsDeviceWord(u[..4]) && u[4] == '.' && NoLineTerminator(u[5..]))
  }

  /** `/[.\s]$/` on the base name. */
  predicate EndsWithDotOrSpace(b: string) {
    b != [] && (b[|b| - 1] == '.' || IsSpace(b[|b| - 1]))
  }

  /** The errors `validateFilename` reports, in its order. */
  function NameErrors(name: string): (errors: seq<NameError>)
    ensures IsBlank(name) ==> errors == [Empty]
    ensures !IsBlank(name) ==> |errors| <= 4
  {
    if IsBlank(name) then [Empty]
    else
      var b := StripLastExtension(name);
      Flag(|name| > MaxNameLength, TooLong(|name|)) +
      Flag(HasIllegalChar(name), IllegalChars) +
      Flag(IsReservedBase(b), Reserved) +
      Flag(EndsWithDotOrSpace(b), TrailingDotOrSpace)
  }

  /** The one error `e` when `failed`, else nothing. */
  function Flag(failed: bool, e: NameError): (r: seq<NameError>)
    ensures |r| <= 1
    ensures forall x :: x in r <==> failed && x == e
  {
    if failed then [e] else []
  }

  /** Each check reports its error exactly when it fails, and a name that is not blank is never called empty. */
  lemma NameErrorsReportEachCheck(name: string)
    requires !IsBlank(name)
    ensures Empty !in NameErrors(name)
    ensures TooLong(|name|) in NameErrors(name) <==> |name| > MaxNameLength
    ensures IllegalChars in NameErrors(name) <==> HasIllegalChar(name)
    ensures Reserved in NameErrors(name) <==> IsReservedBase(StripLastExtension(name))
    ensures TrailingDotOrSpace in NameErrors(name) <==> EndsWithDotOrSpace(StripLastExtension(name))
    ensures forall e :: e in NameErrors(name) && e.TooLong? ==> e.length == |name|
  {
    var b := StripLastExtension(name);
    FlagsReportEach(|name| > MaxNameLength, HasIllegalChar(name), IsReservedBase(b), EndsWithDotOrSpace(b), |name|);
  }

  /** The four flags report their errors independently of one another. */
  lemma FlagsReportEach(long: bool, illegal: bool, reserved: bool, trailing: bool, n: nat)
    ensures var errors := Flag(long, TooLong(n)) + Flag(illegal, IllegalChars) +
                          Flag(reserved, Reserved) + Flag(trailing, TrailingDotOrSpace);
      Empty !in errors &&
      (TooLong(n) in errors <==> long) &&
      (IllegalChars in errors <==> illegal) &&
      (Reserved in errors <==> reserved) &&
      (TrailingDotOrSpace in errors <==> trailing) &&
      (forall e :: e in errors && e.TooLong? ==> e.length == n)
  {
    var f1 := Flag(long, TooLong(n));
    var f2 := Flag(illegal, IllegalChars);
    var f3 := Flag(reserved, Reserved);
    var f4 := Flag(trailing, TrailingDotOrSpace);
    forall x
      ensures x in f1 + f2 + f3 + f4 <==> x in f1 || x in f2 || x in f3 || x in f4
    {
    }
  }

  /** `validateFilename(filename)`: the checks run one after another, each adding its own error. */
  method ValidateFilename(name: string) returns (v: Validation)
    ensures v.errors == NameErrors(name)
    ensures v.valid <==> v.errors == []
  {
    // The blank test of the source, through `TrimsToNothing`'s contract.
    if TrimsToNothing(name) {
      return Validation(false, [Empty]);
    }
    var b := StripLastExtension(name);
    var errors := PushFailed(|name| > MaxNameLength, HasIllegalChar(name), IsReservedBase(b), EndsWithDotOrSpace(b), |name|);
    v := Validation(|errors| == 0, errors);
  }

  /** The four `if (…) errors.push(…)` steps, in the order of the source. */
  method PushFailed(long: bool, illegal: bool, reserved: bool, trailing: bool, n: nat) returns (errors: seq<NameError>)
    ensures errors == Flag(long, TooLong(n)) + Flag(illegal, IllegalChars) +
                      Flag(reserved, Reserved) + Flag(trailing, TrailingDotOrSpace)
  {
    errors := [];
    if long {
      errors := errors + [TooLong(n)];
    }
    if illegal {
      errors := errors + [IllegalChars];
    }
    if reserved {
      errors := errors + [Reserved];
    }
    if trailing {
      errors := errors + [TrailingDotOrSpace];
    }
  }

  /** A blank name gets the one error for emptiness and no other check. */
  lemma BlankNameHasOneError(name: string)
    requires IsBlank(name)
    ensures NameErrors(name) == [Empty]
    ensures |NameErrors(name)| == 1
  {
  }

  /** A hidden-file name, '.' followed by a name without another '.', is no reason to refuse it. */
  lemma LeadingDotIsAccepted(x: string)
    requires x != "" && |x| < MaxNameLength
    requires forall i :: 0 <= i < |x| ==> x[i] != '.' && !IsIllegalNameChar(x[i])
    ensures NameErrors("." + x) == []
  {
    var name := "." + x;
    assert !IsSpace(name[0]);
    assert LastIndexOf(name, '.') == Some(0) by {
      LastIndexOfIs(name, '.', 0);
    }
    assert StripLastExtension(name) == "";
    assert !HasIllegalChar(name) by {
      forall i | 0 <= i < |name|
        ensures !IsIllegalNameChar(name[i])
      {
        if i > 0 {
          assert name[i] == x[i - 1];
        }
      }
    }
    assert UpperAsciiString("") == "";
  }

  /** The device names are refused whatever their case and extension; a longer word is not. */
  lemma ReservedExamples()
    ensures Reserved in NameErrors("con.txt")
    ensures Reserved in NameErrors("Lpt3.tar.gz")
    ensures Reserved !in NameErrors("CONSOLE.txt")
  {
    ConIsReserved();
    LptIsReserved();
    ConsoleIsNotReserved();
  }

  lemma ConIsReserved()
    ensures Reserved in NameErrors("con.txt")
  {
    var name := "con.txt";
    assert !IsSpace(name[0]);
    LastIndexOfIs(name, '.', 3);
    assert StripLastExtension(name) == "con";
    assert UpperAsciiString("con") == "CON";
    NameErrorsReportEachCheck(name);
  }

  lemma LptIsReserved()
    ensures Reserved in NameErrors("Lpt3.tar.gz")
  {
    var name := "Lpt3.tar.gz";
    assert !IsSpace(name[0]);
    LptBase();
    NameErrorsReportEachCheck(name);
  }

  lemma LptBase()
    ensures StripLastExtension("Lpt3.tar.gz") == "Lpt3.tar"
    ensures IsReservedBase("Lpt3.tar")
  {
    LastIndexOfIs("Lpt3.tar.gz", '.', 8);
    var u := UpperAsciiString("Lpt3.tar");
    assert u == "LPT3.TAR";
    assert u[..4] == "LPT3" && u[4] == '.';
  }

  lemma ConsoleIsNotReserved()
    ensures Reserved !in NameErrors("CONSOLE.txt")
  {
    var name := "CONSOLE.txt";
    assert !IsSpace(name[0]);
    ConsoleBase();
    NameErrorsReportEachCheck(name);
  }

  lemma ConsoleBase()
    ensures StripLastExtension("CONSOLE.txt") == "CONSOLE"
    ensures !IsReservedBase("CONSOLE")
  {
    LastIndexOfIs("CONSOLE.txt", '.', 7);
    var u := UpperAsciiString("CONSOLE");
    assert u == "CONSOLE";
    assert u[..3] == "CON" && u[3] != '.';
    assert u[..4] == "CONS" && u[4] != '.';
  }
}
