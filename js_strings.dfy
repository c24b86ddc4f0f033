/**
 * The JavaScript string operations the components rely on, over `string` (`seq<char>`):
 * `startsWith`, `endsWith`, `includes`, `toLowerCase`, `trim`, `split('.').pop()`,
 * `replace(/\s+/g, ...)`, `slice(0, n)` and `Number.prototype.toString` on integers.
 */
module JsStrings {

  /** `s.startsWith(prefix)`. */
  predicate StartsWith(s: string, prefix: string) {
    |prefix| <= |s| && s[..|prefix|] == prefix
  }

  /** A string whose first character differs from the prefix's does not start with it. */
  lemma FirstCharRefutesPrefix(s: string, prefix: string)
    requires prefix != [] && (s == [] || s[0] != prefix[0])
    ensures !StartsWith(s, prefix)
  {
    if |prefix| <= |s| {
      assert s[..|prefix|][0] == s[0];
    }
  }

  /** `s.endsWith(suffix)`. */
  predicate EndsWith(s: string, suffix: string) {
    |suffix| <= |s| && s[|s| - |suffix|..] == suffix
  }

  /** `needle` occurs in `haystack` starting at index `i`. */
  predicate OccursAt(haystack: string, needle: string, i: int) {
    0 <= i && i + |needle| <= |haystack| && haystack[i..i + |needle|] == needle
  }

  /** `haystack.includes(needle)`, scanning left to right. */
  predicate Includes(haystack: string, needle: string)
    decreases |haystack|
  {
    StartsWith(haystack, needle) || (haystack != [] && Includes(haystack[1..], needle))
  }

  /** The scan finds `needle` exactly when it occurs at some index. */
  lemma {:induction false} IncludesIffOccurs(haystack: string, needle: string)
    ensures Includes(haystack, needle) <==> exists i :: OccursAt(haystack, needle, i)
    decreases |haystack|
  {
    if StartsWith(haystack, needle) {
      assert OccursAt(haystack, needle, 0);
    } else if haystack != [] {
      var tail := haystack[1..];
      IncludesIffOccurs(tail, needle);
      if Includes(tail, needle) {
        var j :| OccursAt(tail, needle, j);
        assert tail[j..j + |needle|] == haystack[j + 1..j + 1 + |needle|];
        assert OccursAt(haystack, needle, j + 1);
      }
      forall i | OccursAt(haystack, needle, i) && i != 0 ensures Includes(tail, needle) {
        assert tail[i - 1..i - 1 + |needle|] == haystack[i..i + |needle|];
        assert OccursAt(tail, needle, i - 1);
      }
    }
  }

  /** The letters `toLowerCase` maps to another character, as far as this model goes:
      ASCII, Latin-1 and the Romanian letters with breve, comma and cedilla. */
  predicate IsUpper(c: char) {
    ('A' <= c <= 'Z')
    || ('\U{C0}' <= c <= '\U{DE}' && c != '\U{D7}')
    || c == '\U{102}' || c == '\U{15E}' || c == '\U{162}' || c == '\U{218}' || c == '\U{21A}'
  }

  /** `toLowerCase` on one character. */
  function LowerChar(c: char): (r: char)
    ensures !IsUpper(r)
    ensures !IsUpper(c) ==> r == c
  {
    if 'A' <= c <= 'Z' || ('\U{C0}' <= c <= '\U{DE}' && c != '\U{D7}') then (c as int + 32) as char
    else if IsUpper(c) then (c as int + 1) as char
    else c
  }

  /** `s.toLowerCase()`: character by character. */
  function ToLower(s: string): (r: string)
    ensures |r| == |s|
  {
    seq(|s|, i requires 0 <= i < |s| => LowerChar(s[i]))
  }

  /** Lowercasing leaves no upper-case letter, and lowercasing twice is lowercasing once. */
  lemma ToLowerIdempotent(s: string)
    ensures forall i :: 0 <= i < |s| ==> !IsUpper(ToLower(s)[i])
    ensures ToLower(ToLower(s)) == ToLower(s)
  {
    var once := ToLower(s);
    forall i | 0 <= i < |once| ensures ToLower(once)[i] == once[i] {
      assert !IsUpper(once[i]);
    }
  }

  /** A string with no upper-case letter is its own lower case. */
  lemma ToLowerUnchanged(s: string)
    requires forall i :: 0 <= i < |s| ==> !IsUpper(s[i])
    ensures ToLower(s) == s
  {
  }

  /** The white space that `trim` removes and that the regular expression `\s` matches. */
  predicate IsSpace(c: char) {
    c == '\t' || c == '\n' || c == '\U{B}' || c == '\U{C}' || c == '\r' || c == ' '
    || c == '\U{A0}' || c == '\U{1680}' || ('\U{2000}' <= c <= '\U{200A}')
    || c == '\U{2028}' || c == '\U{2029}' || c == '\U{202F}' || c == '\U{205F}'
    || c == '\U{3000}' || c == '\U{FEFF}'
  }

  /** Every character of `s` is white space. */
  predicate IsBlank(s: string) {
    forall i :: 0 <= i < |s| ==> IsSpace(s[i])
  }

  /** `s.trimStart()`: the longest suffix that does not start with white space. */
  function TrimStart(s: string): (r: string)
    ensures |r| <= |s| && r == s[|s| - |r|..]
    ensures r == [] || !IsSpace(r[0])
    ensures IsBlank(s[..|s| - |r|])
  {
    if s != [] && IsSpace(s[0]) then
      var r := TrimStart(s[1..]);
      assert s[1..][..|s| - 1 - |r|] == s[1..|s| - |r|];
      r
    else s
  }

  /** `s.trimEnd()`: the longest prefix that does not end with white space. */
  function TrimEnd(s: string): (r: string)
    ensures |r| <= |s| && r == s[..|r|]
    ensures r == [] || !IsSpace(r[|r| - 1])
    ensures IsBlank(s[|r|..])
  {
    if s != [] && IsSpace(s[|s| - 1]) then
      var r := TrimEnd(s[..|s| - 1]);
      assert s[..|s| - 1][|r|..] == s[|r|..|s| - 1];
      r
    else s
  }

  /** `s.trim()`. */
  function Trim(s: string): (r: string)
    ensures |r| <= |s|
    ensures r == [] || (!IsSpace(r[0]) && !IsSpace(r[|r| - 1]))
  {
    TrimEnd(TrimStart(s))
  }

  /** `!s.trim()` holds exactly for the strings made only of white space (the empty one included). */
  lemma TrimEmptyIffBlank(s: string)
    ensures Trim(s) == [] <==> IsBlank(s)
  {
    var t := TrimStart(s);
    var n := |s| - |t|;
    if Trim(s) == [] {
      assert t[|TrimEnd(t)|..] == t;
      assert IsBlank(t);
      assert s[..n] == s;
    }
    assert t != [] ==> t[0] == s[n];
    assert IsBlank(s) ==> t == [];
  }

  /** `s.replace(/\s+/g, sep)`: every maximal run of white space becomes one `sep`. */
  function ReplaceSpaceRuns(s: string, sep: char): (r: string)
    requires !IsSpace(sep)
    ensures forall i :: 0 <= i < |r| ==> !IsSpace(r[i])
    ensures |r| <= |s|
    decreases |s|
  {
    if s == [] then []
    else if IsSpace(s[0]) then [sep] + ReplaceSpaceRuns(TrimStart(s), sep)
    else [s[0]] + ReplaceSpaceRuns(s[1..], sep)
  }

  /** A string without white space passes through the replacement unchanged. */
  lemma {:induction false} ReplaceSpaceRunsIdentity(s: string, sep: char)
    requires !IsSpace(sep)
    requires forall i :: 0 <= i < |s| ==> !IsSpace(s[i])
    ensures ReplaceSpaceRuns(s, sep) == s
    decreases |s|
  {
    if s != [] {
      ReplaceSpaceRunsIdentity(s[1..], sep);
    }
  }

  /** Leading white space followed by a non-space start is trimmed exactly. */
  lemma {:induction false} TrimStartPast(p: string, q: string)
    requires IsBlank(p)
    requires q == [] || !IsSpace(q[0])
    ensures TrimStart(p + q) == q
    decreases |p|
  {
    if p == [] {
      assert p + q == q;
    } else {
      assert (p + q)[1..] == p[1..] + q;
      TrimStartPast(p[1..], q);
    }
  }

  /** Trimming the start of a string that is not all white space never reaches what
      follows it. */
  lemma {:induction false} TrimStartConcat(p: string, q: string)
    requires !IsBlank(p)
    ensures TrimStart(p + q) == TrimStart(p) + q
    decreases |p|
  {
    if IsSpace(p[0]) {
      assert (p + q)[1..] == p[1..] + q;
      assert !IsBlank(p[1..]) by {
        var k :| 0 <= k < |p| && !IsSpace(p[k]);
        assert p[1..][k - 1] == p[k];
      }
      TrimStartConcat(p[1..], q);
    }
  }

  /** Concatenation is associative. */
  lemma Associate<T>(x: seq<T>, y: seq<T>, z: seq<T>)
    ensures x + y + z == x + (y + z)
  {
  }

  /** Concatenation regrouped. */
  lemma Regroup<T>(x: seq<T>, l: seq<T>, m: seq<T>, n: seq<T>)
    ensures x + (l + m + n) == (x + l) + m + n
  {
  }

  /** A maximal run of white space between `a` and `b` becomes exactly one `sep`: the
      replacement works run by run. */
  lemma {:induction false} ReplaceSpaceRunsJoin(a: string, w: string, b: string, sep: char)
    requires !IsSpace(sep)
    requires w != [] && IsBlank(w)
    requires a == [] || !IsSpace(a[|a| - 1])
    requires b == [] || !IsSpace(b[0])
    ensures ReplaceSpaceRuns(a + w + b, sep)
            == ReplaceSpaceRuns(a, sep) + [sep] + ReplaceSpaceRuns(b, sep)
    decreases |a|, 1
  {
    if a == [] {
      assert a + w + b == w + b;
      assert (w + b)[0] == w[0] && IsSpace(w[0]);
      TrimStartPast(w, b);
    } else if IsSpace(a[0]) {
      JoinAfterLeadingSpace(a, w, b, sep);
    } else {
      JoinAfterLeadingChar(a, w, b, sep);
    }
  }

  /** Trimming a leading run off a string that ends in a non-space character leaves a
      shorter non-empty string ending in that character, whatever follows. */
  lemma TrimLeadingRun(a: string, c: string)
    requires a != [] && IsSpace(a[0]) && !IsSpace(a[|a| - 1])
    ensures var rest := TrimStart(a);
            rest != [] && |rest| < |a| && rest[|rest| - 1] == a[|a| - 1]
            && TrimStart(a + c) == rest + c
  {
    assert !IsBlank(a);
    TrimStartConcat(a, c);
  }

  /** The step of `ReplaceSpaceRunsJoin` for an `a` that starts with white space: that run
      becomes one `sep` on both sides. */
  lemma {:induction false} JoinAfterLeadingSpace(a: string, w: string, b: string, sep: char)
    requires !IsSpace(sep)
    requires w != [] && IsBlank(w)
    requires a != [] && IsSpace(a[0]) && !IsSpace(a[|a| - 1])
    requires b == [] || !IsSpace(b[0])
    ensures ReplaceSpaceRuns(a + w + b, sep)
            == ReplaceSpaceRuns(a, sep) + [sep] + ReplaceSpaceRuns(b, sep)
    decreases |a|, 0
  {
    var rest := TrimStart(a);
    TrimLeadingRun(a, w + b);
    Associate(a, w, b);
    Associate(rest, w, b);
    ReplaceSpaceRunsJoin(rest, w, b, sep);
    assert ReplaceSpaceRuns(a + w + b, sep) == [sep] + ReplaceSpaceRuns(rest + w + b, sep);
    assert ReplaceSpaceRuns(a, sep) == [sep] + ReplaceSpaceRuns(rest, sep);
    Regroup([sep], ReplaceSpaceRuns(rest, sep), [sep], ReplaceSpaceRuns(b, sep));
  }

  /** The step of `ReplaceSpaceRunsJoin` for an `a` that starts with another character: it
      is copied on both sides. */
  lemma {:induction false} JoinAfterLeadingChar(a: string, w: string, b: string, sep: char)
    requires !IsSpace(sep)
    requires w != [] && IsBlank(w)
    requires a != [] && !IsSpace(a[0]) && !IsSpace(a[|a| - 1])
    requires b == [] || !IsSpace(b[0])
    ensures ReplaceSpaceRuns(a + w + b, sep)
            == ReplaceSpaceRuns(a, sep) + [sep] + ReplaceSpaceRuns(b, sep)
    decreases |a|, 0
  {
    var a' := a[1..];
    Associate(a, w, b);
    Associate(a', w, b);
    assert (a + (w + b))[1..] == a' + (w + b);
    assert a' == [] || a'[|a'| - 1] == a[|a| - 1];
    ReplaceSpaceRunsJoin(a', w, b, sep);
    assert ReplaceSpaceRuns(a + w + b, sep) == [a[0]] + ReplaceSpaceRuns(a' + w + b, sep);
    assert ReplaceSpaceRuns(a, sep) == [a[0]] + ReplaceSpaceRuns(a', sep);
    Regroup([a[0]], ReplaceSpaceRuns(a', sep), [sep], ReplaceSpaceRuns(b, sep));
  }

  /** `s.slice(0, n)`: the first `n` characters, or all of `s` when it is shorter. */
  function Take(s: string, n: nat): (r: string)
    ensures |r| == if |s| <= n then |s| else n
    ensures StartsWith(s, r)
  {
    if |s| <= n then s else s[..n]
  }

  /** The decimal digit for `d`. */
  function DigitChar(d: nat): (c: char)
    requires d < 10
    ensures '0' <= c <= '9'
  {
    ('0' as int + d) as char
  }

  /** `n.toString()` for a non-negative integer: decimal, no leading zero. */
  function NatToString(n: nat): (r: string)
    ensures |r| >= 1
    ensures forall i :: 0 <= i < |r| ==> '0' <= r[i] <= '9'
    ensures r[0] == '0' ==> n == 0
    ensures r[0] == '0' ==> r == "0"
    decreases n
  {
    if n < 10 then [DigitChar(n)] else NatToString(n / 10) + [DigitChar(n % 10)]
  }

  /** `n.toString()` for an integer. */
  function IntToString(n: int): (r: string)
    ensures |r| >= 1
    ensures r[0] == '-' <==> n < 0
    ensures forall i :: 0 < i < |r| ==> '0' <= r[i] <= '9'
  {
    if n < 0 then "-" + NatToString(-n) else NatToString(n)
  }

  /** The value of a string of decimal digits. */
  function ParseDigits(s: string): nat
    requires forall i :: 0 <= i < |s| ==> '0' <= s[i] <= '9'
  {
    if s == [] then 0 else ParseDigits(s[..|s| - 1]) * 10 + (s[|s| - 1] as int - '0' as int)
  }

  /** Reading back the decimal text of `n` gives `n`: distinct ids print differently. */
  lemma {:induction false} NatToStringRoundTrip(n: nat)
    ensures ParseDigits(NatToString(n)) == n
    decreases n
  {
    var r := NatToString(n);
    if n >= 10 {
      NatToStringRoundTrip(n / 10);
      assert r[..|r| - 1] == NatToString(n / 10);
    }
  }
}
