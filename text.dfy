/**
 * String primitives shared by the model: the JavaScript notions of
 * whitespace, trimming, `includes`, `join`, and the fixed digit templates
 * the source matches with regular expressions (`\d{4}-\d{2}-\d{2}` and
 * the like). Strings are sequences of characters.
 */
module Text {

  datatype Option<T> = None | Some(value: T)

  /** JavaScript's `\s` class, which is also the set `String.prototype.trim` removes. */
  predicate IsSpace(c: char) {
    var n := c as int;
    (9 <= n <= 13) || n == 0x20 || n == 0xA0 || n == 0x1680 || (0x2000 <= n <= 0x200A)
    || n == 0x2028 || n == 0x2029 || n == 0x202F || n == 0x205F || n == 0x3000 || n == 0xFEFF
  }

  /** The regex range `\x00-\x1F`. */
  predicate IsControl(c: char) {
    c as int < 0x20
  }

  /** The class `[<>:"|?*\x00-\x1F]` both file-name sanitizers of the CLI side use. */
  predicate IsIllegalNameChar(c: char) {
    c in {'<', '>', ':', '"', '|', '?', '*'} || IsControl(c)
  }

  predicate IsDigit(c: char) {
    '0' <= c <= '9'
  }

  predicate IsAsciiLetter(c: char) {
    'A' <= c <= 'Z' || 'a' <= c <= 'z'
  }

  /** ASCII upper-casing; other characters are left alone. */
  function UpperAscii(c: char): (u: char)
    ensures 'a' <= c <= 'z' ==> u as int == c as int - 32
    ensures !('a' <= c <= 'z') ==> u == c
  {
    if 'a' <= c <= 'z' then (c as int - 32) as char else c
  }

  function UpperAsciiString(s: string): (r: string)
    ensures |r| == |s| && forall i :: 0 <= i < |s| ==> r[i] == UpperAscii(s[i])
  {
    seq(|s|, i requires 0 <= i < |s| => UpperAscii(s[i]))
  }

  /** ASCII lower-casing; other characters are left alone. */
  function LowerAsciiString(s: string): (r: string)
    ensures |r| == |s|
    ensures forall i :: 0 <= i < |s| && 'A' <= s[i] <= 'Z' ==> r[i] as int == s[i] as int + 32
    ensures forall i :: 0 <= i < |s| && !('A' <= s[i] <= 'Z') ==> r[i] == s[i]
  {
    seq(|s|, i requires 0 <= i < |s| => if 'A' <= s[i] <= 'Z' then (s[i] as int + 32) as char else s[i])
  }

  predicate AllSpace(s: string) {
    forall i :: 0 <= i < |s| ==> IsSpace(s[i])
  }

  /** The end of the whitespace run that starts at index `i`. */
  function SpaceRunEnd(s: string, i: nat): (j: nat)
    requires i <= |s|
    ensures i <= j <= |s|
    ensures forall k :: i <= k < j ==> IsSpace(s[k])
    ensures j == |s| || !IsSpace(s[j])
    decreases |s| - i
  {
    if i < |s| && IsSpace(s[i]) then SpaceRunEnd(s, i + 1) else i
  }

  /** The start of the whitespace run that ends just before index `j`. */
  function SpaceRunStart(s: string, j: nat): (i: nat)
    requires j <= |s|
    ensures i <= j
    ensures forall k :: i <= k < j ==> IsSpace(s[k])
    ensures i == 0 || !IsSpace(s[i - 1])
  {
    if j > 0 && IsSpace(s[j - 1]) then SpaceRunStart(s, j - 1) else j
  }

  /** `s.trimStart()`: drop the leading whitespace run. */
  function TrimStart(s: string): (r: string)
    ensures |r| <= |s| && r == s[|s| - |r|..]
    ensures AllSpace(s[..|s| - |r|])
    ensures r == [] || !IsSpace(r[0])
  {
    s[SpaceRunEnd(s, 0)..]
  }

  /** `s.trimEnd()`: drop the trailing whitespace run. */
  function TrimEnd(s: string): (r: string)
    ensures |r| <= |s| && r == s[..|r|]
    ensures AllSpace(s[|r|..])
    ensures r == [] || !IsSpace(r[|r| - 1])
  {
    s[..SpaceRunStart(s, |s|)]
  }

  /** `s.trim()`. */
  function Trim(s: string): (r: string)
    ensures r == [] || (!IsSpace(r[0]) && !IsSpace(r[|r| - 1]))
    ensures |r| <= |s|
    ensures exists a :: OccursAt(s, r, a)
    ensures forall x :: x in r ==> x in s
  {
    var r := TrimEnd(TrimStart(s));
    var a := |s| - |TrimStart(s)|;
    TrimmedSlice(s);
    SliceChars(s, a, a + |r|);
    r
  }

  /** Trimming both ends leaves the slice that starts where the leading whitespace ends. */
  lemma TrimmedSlice(s: string)
    ensures OccursAt(s, TrimEnd(TrimStart(s)), |s| - |TrimStart(s)|)
  {
    var t := TrimStart(s);
    var r := TrimEnd(t);
    var a := |s| - |t|;
    calc {
      s[a..a + |r|];
      s[a..][..|r|];
      t[..|r|];
      r;
    }
  }

  /** Trimming keeps every character that is not whitespace. */
  lemma TrimKeepsNonSpace(s: string, i: nat)
    requires i < |s| && !IsSpace(s[i])
    ensures s[i] in Trim(s)
  {
    var t := TrimStart(s);
    var a := |s| - |t|;
    assert t[i - a] == s[i];
    var r := TrimEnd(t);
    assert r[i - a] == s[i];
  }

  /** A suffix of `s` has only characters of `s`. */
  lemma SuffixChars(s: string, r: string)
    requires |r| <= |s| && r == s[|s| - |r|..]
    ensures forall x :: x in r ==> x in s
  {
    SliceChars(s, |s| - |r|, |s|);
    assert s[|s| - |r|..] == s[|s| - |r|..|s|];
  }

  lemma SliceChars(s: string, a: nat, b: nat)
    requires a <= b <= |s|
    ensures forall x :: x in s[a..b] ==> x in s
  {
    forall x | x in s[a..b]
      ensures x in s
    {
      var i :| 0 <= i < b - a && s[a..b][i] == x;
      assert s[a + i] == x;
    }
  }

  /** Trimming leaves nothing exactly when the string is all whitespace. */
  lemma TrimEmptyIffAllSpace(s: string)
    ensures Trim(s) == [] <==> AllSpace(s)
  {
    var t := TrimStart(s);
    if Trim(s) == [] {
      assert TrimEnd(t) == [];
      assert AllSpace(t[0..]);
      assert s == s[..|s| - |t|] + t;
    }
  }

  /** `sub` occurs in `s` starting at index `i`. */
  predicate OccursAt(s: string, sub: string, i: int) {
    0 <= i && i + |sub| <= |s| && s[i..i + |sub|] == sub
  }

  /** `s.includes(sub)`. */
  predicate Contains(s: string, sub: string) {
    exists i | 0 <= i <= |s| - |sub| :: OccursAt(s, sub, i)
  }

  lemma ContainsEmpty(s: string)
    ensures Contains(s, "")
  {
    assert OccursAt(s, "", 0);
  }

  predicate StartsWith(s: string, prefix: string) {
    |prefix| <= |s| && s[..|prefix|] == prefix
  }

  predicate EndsWith(s: string, suffix: string) {
    |suffix| <= |s| && s[|s| - |suffix|..] == suffix
  }

  /** The index of the last `c` in `s`. */
  function LastIndexOf(s: string, c: char): (r: Option<nat>)
    ensures r.Some? ==> r.value < |s| && s[r.value] == c
    ensures r.Some? ==> forall j :: r.value < j < |s| ==> s[j] != c
    ensures r.None? ==> forall j :: 0 <= j < |s| ==> s[j] != c
  {
    if s == [] then None
    else if s[|s| - 1] == c then Some(|s| - 1)
    else LastIndexOf(s[..|s| - 1], c)
  }

  /** `LastIndexOf` finds the one occurrence that has no other after it. */
  lemma LastIndexOfIs(s: string, c: char, k: nat)
    requires k < |s| && s[k] == c
    requires forall j :: k < j < |s| ==> s[j] != c
    ensures LastIndexOf(s, c) == Some(k)
  {
  }

  /** `substring(0, n)` (and `slice(0, n)`) for a non-negative `n`. */
  function Prefix<T>(s: seq<T>, n: nat): (r: seq<T>)
    ensures |r| <= n && |r| <= |s| && r == s[..|r|]
    ensures |s| <= n ==> r == s
    ensures |s| > n ==> |r| == n
  {
    if |s| <= n then s else s[..n]
  }

  /** `parts.join(sep)`. */
  function Join(parts: seq<string>, sep: string): (r: string)
    ensures |parts| == 1 ==> r == parts[0]
    ensures |parts| > 0 ==> StartsWith(r, parts[0])
  {
    if |parts| == 0 then ""
    else if |parts| == 1 then parts[0]
    else parts[0] + sep + Join(parts[1..], sep)
  }

  /** Every character of `Join(parts, sep)` comes from a part or from the separator. */
  lemma {:induction false} JoinChars(parts: seq<string>, sep: string, c: char)
    requires c in Join(parts, sep)
    ensures c in sep || exists k :: 0 <= k < |parts| && c in parts[k]
  {
    if |parts| > 1 {
      var rest := Join(parts[1..], sep);
      assert Join(parts, sep) == parts[0] + sep + rest;
      if c in rest {
        JoinChars(parts[1..], sep, c);
        if !(c in sep) {
          var k :| 0 <= k < |parts[1..]| && c in parts[1..][k];
          assert c in parts[k + 1];
        }
      } else if c !in sep {
        assert c in parts[0];
      }
    }
  }

  /** Every character of every part appears in the join. */
  lemma {:induction false} JoinKeepsParts(parts: seq<string>, sep: string, k: nat, c: char)
    requires k < |parts| && c in parts[k]
    ensures c in Join(parts, sep)
  {
    if |parts| > 1 {
      assert Join(parts, sep) == parts[0] + sep + Join(parts[1..], sep);
      if k > 0 {
        assert parts[1..][k - 1] == parts[k];
        JoinKeepsParts(parts[1..], sep, k - 1, c);
      }
    }
  }

  /** Join of non-empty parts has at least the length of the parts and the separators together. */
  lemma {:induction false} JoinLength(parts: seq<string>, sep: string)
    ensures |Join(parts, sep)| == SumLengths(parts) + (if |parts| == 0 then 0 else (|parts| - 1) * |sep|)
  {
    if |parts| > 1 {
      JoinLength(parts[1..], sep);
      assert SumLengths(parts) == |parts[0]| + SumLengths(parts[1..]);
    }
    else if |parts| == 1 {
      assert SumLengths(parts) == |parts[0]| + SumLengths(parts[1..]);
    }
  }

  function SumLengths(parts: seq<string>): nat {
    if parts == [] then 0 else |parts[0]| + SumLengths(parts[1..])
  }

  /** No two neighbouring characters are both `c`. */
  ghost predicate NoDouble(s: string, c: char) {
    forall i, j :: 0 <= i < j < |s| && j == i + 1 ==> !(s[i] == c && s[j] == c)
  }

  /** A slice of a string without doubled `c` has none either. */
  lemma NoDoubleSlice(s: string, c: char, a: nat, b: nat)
    requires a <= b <= |s| && NoDouble(s, c)
    ensures NoDouble(s[a..b], c)
  {
    forall i, j | 0 <= i && j == i + 1 && j < b - a
      ensures !(s[a..b][i] == c && s[a..b][j] == c)
    {
      assert s[a..b][i] == s[a + i] && s[a..b][j] == s[a + j];
    }
  }

  /** `s.replace(/c+/g, c)`: every run of `c` becomes a single `c`. */
  function Squeeze(s: string, c: char): (r: string)
    ensures |r| <= |s|
    ensures NoDouble(r, c)
    ensures forall x :: x in r <==> x in s
    ensures (|r| > 0 && r[0] == c) <==> (|s| > 0 && s[0] == c)
    ensures (|r| > 0 && r[|r| - 1] == c) <==> (|s| > 0 && s[|s| - 1] == c)
    ensures |r| > 0 ==> r[|r| - 1] == s[|s| - 1]
  {
    if |s| < 2 then s
    else if s[0] == c && s[1] == c then Squeeze(s[1..], c)
    else
      var t := Squeeze(s[1..], c);
      assert forall x :: x in s <==> x == s[0] || x in s[1..];
      [s[0]] + t
  }

  /** `s.replace(/\s+/g, rep)`: every whitespace run becomes the single character `rep`. */
  function CollapseSpaces(s: string, rep: char): (r: string)
    requires !IsSpace(rep)
    ensures |r| <= |s|
    ensures forall i :: 0 <= i < |r| ==> !IsSpace(r[i])
    ensures forall x :: x in r ==> x in s || x == rep
    ensures r == [] <==> s == []
    ensures r != [] && r[0] != rep ==> r[0] == s[0]
    ensures r != [] && r[|r| - 1] != rep ==> r[|r| - 1] == s[|s| - 1]
    decreases |s|
  {
    if s == [] then []
    else if IsSpace(s[0]) then
      var rest := SkipSpaces(s[1..]);
      var t := CollapseSpaces(rest, rep);
      SuffixChars(s[1..], rest);
      SuffixChars(s, s[1..]);
      [rep] + t
    else
      var t := CollapseSpaces(s[1..], rep);
      SuffixChars(s, s[1..]);
      [s[0]] + t
  }

  /** The whitespace run at the front of `s` removed (the rest of a `\s+` match). */
  function SkipSpaces(s: string): (r: string)
    ensures |r| <= |s| && r == s[|s| - |r|..]
    ensures AllSpace(s[..|s| - |r|])
    ensures r == [] || !IsSpace(r[0])
  {
    TrimStart(s)
  }

  /** No character of `s` is in `bad`. */
  predicate HasNone(s: string, bad: set<char>) {
    forall i :: 0 <= i < |s| ==> s[i] !in bad
  }

  /** `s.replace(/[...]/g, '')`: the characters of `s` that pass `keep`, in order. */
  function Keep(s: string, keep: char -> bool): (r: string)
    ensures |r| <= |s|
    ensures forall i :: 0 <= i < |r| ==> keep(r[i])
    ensures forall x :: x in r <==> x in s && keep(x)
  {
    if s == [] then []
    else
      var t := Keep(s[1..], keep);
      assert forall x :: x in s <==> x == s[0] || x in s[1..];
      (if keep(s[0]) then [s[0]] else []) + t
  }

  /** Keeping characters works part by part. */
  lemma {:induction false} KeepSplits(a: string, b: string, keep: char -> bool)
    ensures Keep(a + b, keep) == Keep(a, keep) + Keep(b, keep)
  {
    if a == [] {
      assert a + b == b;
    } else {
      assert (a + b)[0] == a[0] && (a + b)[1..] == a[1..] + b;
      KeepSplits(a[1..], b, keep);
    }
  }

  /** Removing nothing leaves the string as it is. */
  lemma {:induction false} KeepAll(s: string, keep: char -> bool)
    requires forall i :: 0 <= i < |s| ==> keep(s[i])
    ensures Keep(s, keep) == s
  {
    if s != [] {
      KeepAll(s[1..], keep);
      assert s == [s[0]] + s[1..];
    }
  }

  /** `s.replace(/a/g, b)` for a single character `a`. */
  function ReplaceChar(s: string, a: char, b: char): (r: string)
    ensures |r| == |s|
    ensures forall i :: 0 <= i < |s| ==> r[i] == (if s[i] == a then b else s[i])
  {
    seq(|s|, i requires 0 <= i < |s| => if s[i] == a then b else s[i])
  }

  /** Replacing a character works part by part. */
  lemma ReplaceCharSplits(a: string, b: string, x: char, y: char)
    ensures ReplaceChar(a + b, x, y) == ReplaceChar(a, x, y) + ReplaceChar(b, x, y)
  {
    var l := ReplaceChar(a + b, x, y);
    var r := ReplaceChar(a, x, y) + ReplaceChar(b, x, y);
    forall i | 0 <= i < |l|
      ensures l[i] == r[i]
    {
      if i < |a| {
        assert (a + b)[i] == a[i];
      } else {
        assert (a + b)[i] == b[i - |a|];
      }
    }
  }

  /** `s.replace(/^[...]+/, '')`: the leading run of characters in `bad` removed. */
  function StripStart(s: string, bad: set<char>): (r: string)
    ensures |r| <= |s| && r == s[|s| - |r|..]
    ensures forall i :: 0 <= i < |s| - |r| ==> s[i] in bad
    ensures r == [] || r[0] !in bad
  {
    if s != [] && s[0] in bad then
      var r := StripStart(s[1..], bad);
      assert forall i :: 1 <= i < |s| - |r| ==> s[1..][i - 1] == s[i];
      r
    else s
  }

  /** `s.replace(/[...]+$/, '')`: the trailing run of characters in `bad` removed. */
  function StripEnd(s: string, bad: set<char>): (r: string)
    ensures |r| <= |s| && r == s[..|r|]
    ensures forall i :: |r| <= i < |s| ==> s[i] in bad
    ensures r == [] || r[|r| - 1] !in bad
  {
    if s != [] && s[|s| - 1] in bad then
      var r := StripEnd(s[..|s| - 1], bad);
      assert forall i :: |r| <= i < |s| - 1 ==> s[..|s| - 1][i] == s[i];
      r
    else s
  }

  lemma StripStartOfClean(s: string, bad: set<char>)
    requires s == [] || s[0] !in bad
    ensures StripStart(s, bad) == s
  {
  }

  lemma StripEndOfClean(s: string, bad: set<char>)
    requires s == [] || s[|s| - 1] !in bad
    ensures StripEnd(s, bad) == s
  {
  }

  /** The whitespace run skipped is the one that ends at `k`. */
  lemma SkipSpacesAt(s: string, k: nat)
    requires k <= |s| && AllSpace(s[..k]) && (k == |s| || !IsSpace(s[k]))
    ensures SkipSpaces(s) == s[k..]
  {
    var r := SkipSpaces(s);
    var m := |s| - |r|;
  }

  /** A whitespace run on its own collapses to the one replacement character. */
  lemma CollapseSpaceRun(ws: string, rep: char)
    requires !IsSpace(rep) && ws != [] && AllSpace(ws)
    ensures CollapseSpaces(ws, rep) == [rep]
  {
    SkipSpacesAt(ws[1..], |ws| - 1);
  }

  /**
   * Collapsing works run by run: cut anywhere but inside a whitespace run,
   * the two parts collapse separately.
   */
  lemma {:induction false} CollapseSpacesSplits(a: string, b: string, rep: char)
    requires !IsSpace(rep)
    requires a == [] || b == [] || !IsSpace(a[|a| - 1]) || !IsSpace(b[0])
    ensures CollapseSpaces(a + b, rep) == CollapseSpaces(a, rep) + CollapseSpaces(b, rep)
    decreases |a|
  {
    if a == [] {
      assert a + b == b;
    } else if !IsSpace(a[0]) {
      CollapseSpacesSplits(a[1..], b, rep);
      CollapseStepAtChar(a, b, rep);
    } else if AllSpace(a[1..]) {
      CollapseStepAtLastRun(a, b, rep);
    } else {
      var k := SpaceRunEnd(a[1..], 0);
      var a2 := a[1..][k..];
      assert a2[|a2| - 1] == a[|a| - 1];
      CollapseSpacesSplits(a2, b, rep);
      CollapseStepAtRun(a, b, rep, k);
    }
  }

  lemma {:induction false} CollapseStepAtChar(a: string, b: string, rep: char)
    requires !IsSpace(rep) && a != [] && !IsSpace(a[0])
    requires CollapseSpaces(a[1..] + b, rep) == CollapseSpaces(a[1..], rep) + CollapseSpaces(b, rep)
    ensures CollapseSpaces(a + b, rep) == CollapseSpaces(a, rep) + CollapseSpaces(b, rep)
  {
    var s := a + b;
    assert s[0] == a[0] && s[1..] == a[1..] + b;
    CollapseAtChar(s, rep);
    CollapseAtChar(a, rep);
    AppendAssoc([a[0]], CollapseSpaces(a[1..], rep), CollapseSpaces(b, rep));
  }

  lemma {:induction false} CollapseStepAtLastRun(a: string, b: string, rep: char)
    requires !IsSpace(rep) && a != [] && IsSpace(a[0]) && AllSpace(a[1..])
    requires b == [] || !IsSpace(b[0])
    ensures CollapseSpaces(a + b, rep) == CollapseSpaces(a, rep) + CollapseSpaces(b, rep)
  {
    var s := a + b;
    var a1 := a[1..];
    assert s[0] == a[0] && s[1..] == a1 + b;
    assert (a1 + b)[..|a1|] == a1 && (a1 + b)[|a1|..] == b;
    SkipSpacesAt(a1 + b, |a1|);
    SkipSpacesAt(a1, |a1|);
    CollapseAtSpace(s, rep);
    CollapseAtSpace(a, rep);
  }

  lemma {:induction false} CollapseStepAtRun(a: string, b: string, rep: char, k: nat)
    requires !IsSpace(rep) && a != [] && IsSpace(a[0])
    requires k == SpaceRunEnd(a[1..], 0) && k < |a| - 1
    requires CollapseSpaces(a[1..][k..] + b, rep) == CollapseSpaces(a[1..][k..], rep) + CollapseSpaces(b, rep)
    ensures CollapseSpaces(a + b, rep) == CollapseSpaces(a, rep) + CollapseSpaces(b, rep)
  {
    var s := a + b;
    assert s[0] == a[0];
    SkipInsideFirstPart(a, b, k);
    CollapseAtSpace(s, rep);
    CollapseAtSpace(a, rep);
    AppendAssoc([rep], CollapseSpaces(a[1..][k..], rep), CollapseSpaces(b, rep));
  }

  /** A whitespace run that ends inside `a` is skipped the same with or without `b` after it. */
  lemma SkipInsideFirstPart(a: string, b: string, k: nat)
    requires a != [] && k == SpaceRunEnd(a[1..], 0) && k < |a| - 1
    ensures SkipSpaces((a + b)[1..]) == a[1..][k..] + b
    ensures SkipSpaces(a[1..]) == a[1..][k..]
  {
    var a1 := a[1..];
    assert (a + b)[1..] == a1 + b;
    assert a1[..k] == (a1 + b)[..k];
    SkipSpacesAt(a1 + b, k);
    assert (a1 + b)[k..] == a1[k..] + b;
    SkipSpacesAt(a1, k);
  }

  lemma {:induction false} CollapseAtChar(s: string, rep: char)
    requires !IsSpace(rep) && s != [] && !IsSpace(s[0])
    ensures CollapseSpaces(s, rep) == [s[0]] + CollapseSpaces(s[1..], rep)
  {
  }

  lemma {:induction false} CollapseAtSpace(s: string, rep: char)
    requires !IsSpace(rep) && s != [] && IsSpace(s[0])
    ensures CollapseSpaces(s, rep) == [rep] + CollapseSpaces(SkipSpaces(s[1..]), rep)
  {
  }

  lemma {:induction false} AppendAssoc<T>(x: seq<T>, y: seq<T>, z: seq<T>)
    ensures x + (y + z) == (x + y) + z
  {
  }

  /** Without whitespace, collapsing whitespace runs changes nothing. */
  lemma {:induction false} CollapseWithoutSpaces(s: string, rep: char)
    requires !IsSpace(rep)
    requires forall i :: 0 <= i < |s| ==> !IsSpace(s[i])
    ensures CollapseSpaces(s, rep) == s
    decreases |s|
  {
    if s != [] {
      CollapseWithoutSpaces(s[1..], rep);
      assert s == [s[0]] + s[1..];
    }
  }

  /** Without doubled `c`, squeezing runs of `c` changes nothing. */
  lemma {:induction false} SqueezeWithoutDoubles(s: string, c: char)
    requires NoDouble(s, c)
    ensures Squeeze(s, c) == s
  {
    if |s| >= 2 {
      assert !(s[0] == c && s[1] == c);
      assert NoDouble(s[1..], c) by {
        forall i, j | 0 <= i && j == i + 1 && j < |s| - 1
          ensures !(s[1..][i] == c && s[1..][j] == c)
        {
          assert s[1..][i] == s[i + 1] && s[1..][j] == s[j + 1];
        }
      }
      SqueezeWithoutDoubles(s[1..], c);
      assert s == [s[0]] + s[1..];
    }
  }

  /** A run of `c` on its own squeezes to a single `c`. */
  lemma {:induction false} SqueezeRun(d: string, c: char)
    requires d != [] && forall i :: 0 <= i < |d| ==> d[i] == c
    ensures Squeeze(d, c) == [c]
  {
    if |d| >= 2 {
      SqueezeRun(d[1..], c);
    }
  }

  /** Squeezing works run by run: cut anywhere but inside a run of `c`, the parts squeeze separately. */
  lemma {:induction false} SqueezeSplits(a: string, b: string, c: char)
    requires a == [] || b == [] || a[|a| - 1] != c || b[0] != c
    ensures Squeeze(a + b, c) == Squeeze(a, c) + Squeeze(b, c)
    decreases |a|
  {
    var s := a + b;
    if a == [] {
      assert s == b;
    } else if b == [] {
      assert s == a;
    } else if |a| == 1 {
      assert s[0] == a[0] && s[1] == b[0] && s[1..] == b;
    } else {
      assert s[0] == a[0] && s[1] == a[1] && s[1..] == a[1..] + b;
      SqueezeSplits(a[1..], b, c);
    }
  }

  /** `s.replace(/^c|c$/g, '')`: one `c` dropped at each end. */
  function DropEdges(s: string, c: char): (r: string)
    requires NoDouble(s, c)
    ensures |r| <= |s|
    ensures forall x :: x in r ==> x in s
    ensures NoDouble(r, c)
    ensures r == [] || (r[0] != c && r[|r| - 1] != c)
    ensures (s == [] || (s[0] != c && s[|s| - 1] != c)) ==> r == s
  {
    var a := if |s| > 0 && s[0] == c then s[1..] else s;
    NoDoubleSlice(s, c, |s| - |a|, |s|);
    assert a == s[|s| - |a|..|s|];
    assert |a| > 0 && s[0] == c ==> a[0] == s[1];
    var b := if |a| > 0 && a[|a| - 1] == c then a[..|a| - 1] else a;
    NoDoubleSlice(a, c, 0, |b|);
    assert b == a[0..|b|];
    assert |b| > 0 && |b| < |a| ==> b[|b| - 1] == a[|a| - 2];
    SliceChars(s, |s| - |a|, |s|);
    SliceChars(a, 0, |b|);
    b
  }

  /** Dropping the edge characters keeps every other character. */
  lemma DropEdgesKeeps(s: string, c: char, x: char)
    requires NoDouble(s, c) && x in s && x != c
    ensures x in DropEdges(s, c)
  {
    var k :| 0 <= k < |s| && s[k] == x;
    var a := if |s| > 0 && s[0] == c then s[1..] else s;
    var b := if |a| > 0 && a[|a| - 1] == c then a[..|a| - 1] else a;
    assert DropEdges(s, c) == b;
    var ka := if |s| > 0 && s[0] == c then k - 1 else k;
    assert a[ka] == x;
    assert b[ka] == x;
  }

  /** A string that neither starts nor ends with whitespace is its own trim. */
  lemma TrimOfTrimmed(s: string)
    requires s == [] || (!IsSpace(s[0]) && !IsSpace(s[|s| - 1]))
    ensures Trim(s) == s
  {
    assert TrimStart(s) == s;
    assert TrimEnd(s) == s;
  }

  /** The digit characters '0'..'9'. */
  function DigitChar(d: nat): (c: char)
    requires d < 10
    ensures IsDigit(c) && c as int - '0' as int == d
  {
    (d + '0' as int) as char
  }

  /** `String(n)` for a natural number: its decimal digits, without leading zeros. */
  function NatToString(n: nat): (s: string)
    ensures |s| >= 1
    ensures forall i :: 0 <= i < |s| ==> IsDigit(s[i])
    ensures n >= 10 ==> s[0] != '0'
  {
    if n < 10 then [DigitChar(n)] else NatToString(n / 10) + [DigitChar(n % 10)]
  }

  /** The number a string of decimal digits denotes. */
  function DigitsValue(s: string): nat
    requires forall i :: 0 <= i < |s| ==> IsDigit(s[i])
  {
    if s == [] then 0
    else
      assert IsDigit(s[|s| - 1]);
      10 * DigitsValue(s[..|s| - 1]) + (s[|s| - 1] as int - '0' as int)
  }

  /** Reading the decimal digits back gives the number. */
  lemma {:induction false} NatToStringRoundTrip(n: nat)
    ensures DigitsValue(NatToString(n)) == n
  {
    if n >= 10 {
      NatToStringRoundTrip(n / 10);
      var s := NatToString(n);
      assert s[..|s| - 1] == NatToString(n / 10);
    }
  }

  /** `String(n).padStart(2, '0')`. */
  function PadTwo(n: nat): (s: string)
    ensures |s| >= 2
    ensures forall i :: 0 <= i < |s| ==> IsDigit(s[i])
    ensures n < 100 ==> |s| == 2 && DigitsValue(s) == n
  {
    if n < 10 then
      var s := "0" + [DigitChar(n)];
      DigitsValueOfTwo(s);
      s
    else
      var s := NatToString(n);
      if n < 100 then
        assert n / 10 < 10;
        assert NatToString(n / 10) == [DigitChar(n / 10)];
        assert s == [DigitChar(n / 10), DigitChar(n % 10)];
        DigitsValueOfTwo(s);
        s
      else s
  }

  lemma DigitsValueOfTwo(s: string)
    requires |s| == 2 && IsDigit(s[0]) && IsDigit(s[1])
    ensures DigitsValue(s) == 10 * (s[0] as int - '0' as int) + (s[1] as int - '0' as int)
  {
    var p := s[..1];
    assert p[..0] == [];
    assert DigitsValue(p) == 10 * DigitsValue(p[..0]) + (p[0] as int - '0' as int);
    assert DigitsValue(s) == 10 * DigitsValue(p) + (s[1] as int - '0' as int);
  }

  // Fixed digit templates. In a template, '#' stands for the regex `\d`
  // and every other character for itself.

  predicate SlotMatches(t: char, c: char) {
    if t == '#' then IsDigit(c) else c == t
  }

  predicate MatchesAt(s: string, i: int, tmpl: string) {
    0 <= i && i + |tmpl| <= |s| && forall k :: 0 <= k < |tmpl| ==> SlotMatches(tmpl[k], s[i + k])
  }

  /**
   * `s.match(/(template)/)`: the leftmost position at or after `from`
   * where the template matches.
   */
  function FindTemplate(s: string, tmpl: string, from: nat): (r: Option<nat>)
    requires |tmpl| > 0
    ensures r.Some? ==> from <= r.value && MatchesAt(s, r.value, tmpl)
    ensures r.Some? ==> forall j :: from <= j < r.value ==> !MatchesAt(s, j, tmpl)
    ensures r.None? ==> forall j :: from <= j ==> !MatchesAt(s, j, tmpl)
    decreases |s| - from
  {
    if from + |tmpl| > |s| then None
    else if MatchesAt(s, from, tmpl) then Some(from)
    else FindTemplate(s, tmpl, from + 1)
  }

  /** `s.match(/(template)/)?.[1]`: the leftmost occurrence of the template, if any. */
  function TemplateMatch(s: string, tmpl: string): (r: Option<string>)
    requires |tmpl| > 0
    ensures r.Some? ==> |r.value| == |tmpl| && MatchesAt(r.value, 0, tmpl)
    ensures r.Some? ==> exists i :: MatchesAt(s, i, tmpl) && r.value == s[i..i + |tmpl|] &&
                                    forall j :: 0 <= j < i ==> !MatchesAt(s, j, tmpl)
    ensures r.None? <==> forall i :: !MatchesAt(s, i, tmpl)
  {
    match FindTemplate(s, tmpl, 0)
    case None => None
    case Some(i) =>
      var m := s[i..i + |tmpl|];
      assert MatchesAt(m, 0, tmpl) by {
        forall k | 0 <= k < |tmpl|
          ensures SlotMatches(tmpl[k], m[k])
        {
          assert m[k] == s[i + k];
        }
      }
      Some(m)
  }

  /** A match of a template inside a prefix of `s` is also a match in `s`. */
  lemma MatchInPrefix(s: string, n: nat, i: int, tmpl: string)
    requires n <= |s|
    requires MatchesAt(s[..n], i, tmpl)
    ensures MatchesAt(s, i, tmpl)
  {
    forall k | 0 <= k < |tmpl|
      ensures SlotMatches(tmpl[k], s[i + k])
    {
      assert s[..n][i + k] == s[i + k];
    }
  }
}
