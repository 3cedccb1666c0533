/** JavaScript string operations used by the adapter, on ASCII text:
    case mapping, substring search, `split`, `join`, `trim` and
    `replace` with a string pattern (first occurrence only). */
module Strings {

  predicate IsUpper(c: char) { 'A' <= c <= 'Z' }

  predicate IsLower(c: char) { 'a' <= c <= 'z' }

  function LowerChar(c: char): (r: char)
    ensures !IsUpper(r)
    ensures IsUpper(c) ==> IsLower(r)
    ensures !IsUpper(c) ==> r == c
  {
    if IsUpper(c) then (c as int + 32) as char else c
  }

  function UpperChar(c: char): (r: char)
    ensures !IsLower(r)
    ensures !IsLower(c) ==> r == c
  {
    if IsLower(c) then (c as int - 32) as char else c
  }

  /** `String.prototype.toLowerCase`, ASCII letters only. */
  function ToLower(s: string): (r: string)
    ensures |r| == |s|
    ensures forall i :: 0 <= i < |s| ==> r[i] == LowerChar(s[i])
  {
    if s == [] then [] else [LowerChar(s[0])] + ToLower(s[1..])
  }

  /** `String.prototype.toUpperCase`, ASCII letters only. */
  function ToUpper(s: string): (r: string)
    ensures |r| == |s|
    ensures forall i :: 0 <= i < |s| ==> r[i] == UpperChar(s[i])
  {
    if s == [] then [] else [UpperChar(s[0])] + ToUpper(s[1..])
  }

  predicate NoUpper(s: string) {
    forall i :: 0 <= i < |s| ==> !IsUpper(s[i])
  }

  lemma ToLowerIdempotent(s: string)
    ensures ToLower(ToLower(s)) == ToLower(s)
  {
  }

  predicate IsPrefix(p: string, s: string) {
    |p| <= |s| && s[..|p|] == p
  }

  /** `haystack.includes(needle)`: the needle occurs at some position. */
  predicate Contains(haystack: string, needle: string)
    decreases |haystack|
  {
    IsPrefix(needle, haystack) || (haystack != [] && Contains(haystack[1..], needle))
  }

  /** `haystack.indexOf(needle)`: the first position of the needle, or -1. */
  function IndexOf(haystack: string, needle: string): (i: int)
    ensures i == -1 || 0 <= i <= |haystack| - |needle|
    decreases |haystack|
  {
    if IsPrefix(needle, haystack) then 0
    else if haystack == [] then -1
    else
      var k := IndexOf(haystack[1..], needle);
      if k < 0 then -1 else k + 1
  }

  /** The position found holds the needle, and no earlier position does. */
  lemma {:induction false} IndexOfFirst(haystack: string, needle: string)
    ensures var i := IndexOf(haystack, needle);
            (i >= 0 ==> haystack[i..i + |needle|] == needle)
            && forall j :: 0 <= j < (if i < 0 then |haystack| + 1 else i) ==> !IsPrefix(needle, haystack[j..])
    decreases |haystack|
  {
    if !IsPrefix(needle, haystack) && haystack != [] {
      IndexOfFirst(haystack[1..], needle);
      assert forall j :: 1 <= j <= |haystack| ==> haystack[j..] == haystack[1..][j - 1..];
    }
  }

  lemma {:induction false} IndexOfContains(haystack: string, needle: string)
    ensures IndexOf(haystack, needle) >= 0 <==> Contains(haystack, needle)
    decreases |haystack|
  {
    if !IsPrefix(needle, haystack) && haystack != [] {
      IndexOfContains(haystack[1..], needle);
    }
  }

  /** The needle occurs at position `i`. */
  lemma {:induction false} ContainsAt(haystack: string, needle: string, i: nat)
    requires i + |needle| <= |haystack| && haystack[i..i + |needle|] == needle
    ensures Contains(haystack, needle)
    decreases i
  {
    if i > 0 {
      assert haystack[1..][i - 1..i - 1 + |needle|] == haystack[i..i + |needle|];
      ContainsAt(haystack[1..], needle, i - 1);
    }
  }

  lemma EmptyContained(haystack: string)
    ensures Contains(haystack, "")
  {
  }

  /** `s.split(sep)` for a non-empty separator. */
  function Split(s: string, sep: string): (parts: seq<string>)
    requires |sep| > 0
    ensures |parts| >= 1
    decreases |s|
  {
    var i := IndexOf(s, sep);
    if i < 0 then [s] else [s[..i]] + Split(s[i + |sep|..], sep)
  }

  /** `parts.join(sep)`. */
  function Join(parts: seq<string>, sep: string): string
  {
    if |parts| == 0 then ""
    else if |parts| == 1 then parts[0]
    else parts[0] + sep + Join(parts[1..], sep)
  }

  /** Joining what was split gives the original string back. */
  lemma {:induction false} JoinSplit(s: string, sep: string)
    requires |sep| > 0
    ensures Join(Split(s, sep), sep) == s
    decreases |s|
  {
    var i := IndexOf(s, sep);
    IndexOfFirst(s, sep);
    if i >= 0 {
      var rest := s[i + |sep|..];
      JoinSplit(rest, sep);
      assert s == s[..i] + sep + rest;
    }
  }

  /** A string without the separator splits into itself alone. */
  lemma SplitWithout(s: string, sep: string)
    requires |sep| > 0 && !Contains(s, sep)
    ensures Split(s, sep) == [s]
  {
    IndexOfContains(s, sep);
  }

  /** The pieces of a split contain no separator. */
  lemma {:induction false} SplitPartsFree(s: string, sep: string)
    requires |sep| > 0
    ensures forall k :: 0 <= k < |Split(s, sep)| ==> !Contains(Split(s, sep)[k], sep)
    decreases |s|
  {
    var i := IndexOf(s, sep);
    IndexOfFirst(s, sep);
    if i < 0 {
      IndexOfContains(s, sep);
    } else {
      SplitPartsFree(s[i + |sep|..], sep);
      forall j | 0 <= j <= i ensures !IsPrefix(sep, s[..i][j..]) {
        if j < i && |sep| <= i - j {
          assert !IsPrefix(sep, s[j..]);
          assert s[..i][j..][..|sep|] == s[j..][..|sep|];
        }
      }
      PrefixFreeNotContains(s[..i], sep);
    }
  }

  lemma {:induction false} PrefixFreeNotContains(s: string, sep: string)
    requires forall j :: 0 <= j <= |s| ==> !IsPrefix(sep, s[j..])
    ensures !Contains(s, sep)
    decreases |s|
  {
    assert s[0..] == s;
    if s != [] {
      forall j | 0 <= j <= |s[1..]| ensures !IsPrefix(sep, s[1..][j..]) {
        assert s[1..][j..] == s[j + 1..];
      }
      PrefixFreeNotContains(s[1..], sep);
    }
  }

  predicate IsSpace(c: char) {
    c == ' ' || c == '\t' || c == '\n' || c == '\r' || c == '\U{0B}' || c == '\U{0C}'
  }

  function TrimStart(s: string): (r: string)
    ensures r == [] || !IsSpace(r[0])
    ensures |r| <= |s| && r == s[|s| - |r|..]
  {
    if s != [] && IsSpace(s[0]) then TrimStart(s[1..]) else s
  }

  function TrimEnd(s: string): (r: string)
    ensures r == [] || !IsSpace(r[|r| - 1])
    ensures |r| <= |s| && r == s[..|r|]
  {
    if s != [] && IsSpace(s[|s| - 1]) then TrimEnd(s[..|s| - 1]) else s
  }

  /** Trimming the front empties a string exactly when all of it is white space. */
  lemma {:induction false} TrimStartBlank(s: string)
    ensures TrimStart(s) == [] <==> forall i :: 0 <= i < |s| ==> IsSpace(s[i])
    decreases |s|
  {
    if s != [] && IsSpace(s[0]) {
      TrimStartBlank(s[1..]);
      assert forall i :: 1 <= i < |s| ==> s[i] == s[1..][i - 1];
    }
  }

  /** Trimming the end keeps a first character that is not white space. */
  lemma {:induction false} TrimEndKeeps(s: string)
    requires s != [] && !IsSpace(s[0])
    ensures TrimEnd(s) != []
    decreases |s|
  {
    if IsSpace(s[|s| - 1]) {
      assert |s| > 1;
      TrimEndKeeps(s[..|s| - 1]);
    }
  }

  /** `s.trim()`, for the ASCII white-space characters. */
  function Trim(s: string): (r: string)
    ensures r == [] || (!IsSpace(r[0]) && !IsSpace(r[|r| - 1]))
  {
    TrimEnd(TrimStart(s))
  }

  /** `s.replace(pattern, replacement)` with a string pattern: only the first
      occurrence is replaced (replacement patterns such as `$&` are not modelled). */
  function ReplaceFirst(s: string, pattern: string, replacement: string): (r: string)
    ensures !Contains(s, pattern) ==> r == s
  {
    IndexOfContains(s, pattern);
    var i := IndexOf(s, pattern);
    if i < 0 then s else s[..i] + replacement + s[i + |pattern|..]
  }

  /** Decimal rendering of an integer, as template literals print it. */
  function IntToString(n: int): string
    decreases if n < 0 then 1 - n else n
  {
    if n < 0 then "-" + IntToString(-n)
    else if n < 10 then [('0' as int + n) as char]
    else IntToString(n / 10) + [('0' as int + n % 10) as char]
  }

  /** A one-character needle occurs exactly when that character does. */
  lemma {:induction false} ContainsChar(s: string, c: char)
    ensures Contains(s, [c]) <==> c in s
    decreases |s|
  {
    if s != [] {
      ContainsChar(s[1..], c);
      assert s == [s[0]] + s[1..];
    }
  }

  /** Splitting at a character: the part before its first occurrence comes first. */
  lemma SplitCons(a: string, c: char, rest: string)
    requires c !in a
    ensures Split(a + [c] + rest, [c]) == [a] + Split(rest, [c])
  {
    var s := a + [c] + rest;
    assert s[|a|..|a| + 1] == [c];
    assert IsPrefix([c], s[|a|..]);
    var i := IndexOf(s, [c]);
    IndexOfFirst(s, [c]);
    assert i >= 0;
    forall j | 0 <= j < |a| ensures !IsPrefix([c], s[j..]) {
      assert s[j] == a[j];
    }
    assert s[i..][..1] == s[i..i + 1];
    assert i == |a|;
    assert s[..i] == a;
    assert s[i + 1..] == rest;
  }

  /** Splitting a join of separator-free parts gives the parts back. */
  lemma {:induction false} SplitJoin(parts: seq<string>, c: char)
    requires |parts| >= 1
    requires forall k :: 0 <= k < |parts| ==> c !in parts[k]
    ensures Split(Join(parts, [c]), [c]) == parts
    decreases |parts|
  {
    if |parts| == 1 {
      ContainsChar(parts[0], c);
      SplitWithout(parts[0], [c]);
    } else {
      SplitJoin(parts[1..], c);
      SplitCons(parts[0], c, Join(parts[1..], [c]));
    }
  }

  predicate IsDigitChar(c: char) { '0' <= c <= '9' }

  /** A decimal rendering holds only digits and the minus sign. */
  lemma {:induction false} IntToStringChars(n: int)
    ensures forall k :: 0 <= k < |IntToString(n)| ==> IsDigitChar(IntToString(n)[k]) || IntToString(n)[k] == '-'
    decreases if n < 0 then 1 - n else n
  {
    if n < 0 {
      IntToStringChars(-n);
    } else if n >= 10 {
      IntToStringChars(n / 10);
    }
  }
}
