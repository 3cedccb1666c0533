/** `Str.contains` of src/utils/string.ts: does the haystack contain any of
    the needles? */
module StrUtil {
  import opened Strings

  /** A single needle or a list of them. */
  datatype Needles = One(needle: string) | Many(needles: seq<string>)

  /** `if (!Array.isArray(needles)) needles = [needles]`. */
  function NeedleList(n: Needles): (r: seq<string>)
    ensures n.One? ==> r == [n.needle]
    ensures n.Many? ==> r == n.needles
  {
    match n
    case One(s) => [s]
    case Many(list) => list
  }

  function Fold(s: string, ignoreCase: bool): (r: string)
    ensures |r| == |s|
  {
    if ignoreCase then ToLower(s) else s
  }

  /** One needle matches: it is not empty and occurs in the haystack, both
      lower-cased when case is ignored. */
  predicate Matches(haystack: string, needle: string, ignoreCase: bool) {
    Fold(needle, ignoreCase) != "" && Contains(Fold(haystack, ignoreCase), Fold(needle, ignoreCase))
  }

  predicate AnyMatches(haystack: string, needles: seq<string>, ignoreCase: bool) {
    exists i :: 0 <= i < |needles| && Matches(haystack, needles[i], ignoreCase)
  }

  /** `Str.contains(haystack, needles, ignoreCase)`: the first matching needle
      ends the loop. */
  method StrContains(haystack: string, needles: Needles, ignoreCase: bool) returns (found: bool)
    ensures found <==> AnyMatches(haystack, NeedleList(needles), ignoreCase)
  {
    var hay := haystack;
    if ignoreCase {
      hay := ToLower(hay);
    }
    var list := NeedleList(needles);
    var i := 0;
    while i < |list|
      invariant 0 <= i <= |list|
      invariant hay == Fold(haystack, ignoreCase)
      invariant forall j :: 0 <= j < i ==> !Matches(haystack, list[j], ignoreCase)
    {
      var needle := list[i];
      if ignoreCase {
        needle := ToLower(needle);
      }
      if needle != "" && Contains(hay, needle) {
        assert Matches(haystack, list[i], ignoreCase);
        return true;
      }
      i := i + 1;
    }
    return false;
  }

  /** An empty needle never matches, and no needles never match. */
  lemma NothingToFind(haystack: string, ignoreCase: bool)
    ensures !AnyMatches(haystack, [""], ignoreCase)
    ensures !AnyMatches(haystack, [], ignoreCase)
  {
  }

  /** A single needle behaves as a one-element list. */
  lemma SingleNeedle(haystack: string, needle: string, ignoreCase: bool)
    ensures AnyMatches(haystack, NeedleList(One(needle)), ignoreCase)
            <==> needle != "" && Contains(Fold(haystack, ignoreCase), Fold(needle, ignoreCase))
  {
    assert NeedleList(One(needle))[0] == needle;
  }

  /** Ignoring case only adds matches. */
  lemma IgnoreCaseWidens(haystack: string, needles: seq<string>)
    requires AnyMatches(haystack, needles, false)
    ensures AnyMatches(haystack, needles, true)
  {
    var i :| 0 <= i < |needles| && Matches(haystack, needles[i], false);
    LowerKeepsOccurrence(haystack, needles[i]);
    assert Matches(haystack, needles[i], true);
  }

  lemma LowerKeepsOccurrence(haystack: string, needle: string)
    requires Contains(haystack, needle)
    ensures Contains(ToLower(haystack), ToLower(needle))
  {
    IndexOfContains(haystack, needle);
    var i := IndexOf(haystack, needle);
    IndexOfFirst(haystack, needle);
    var lh := ToLower(haystack);
    assert lh[i..i + |needle|] == ToLower(needle) by {
      forall k | 0 <= k < |needle| ensures lh[i..i + |needle|][k] == ToLower(needle)[k] {
        assert haystack[i + k] == needle[k];
      }
    }
    ContainsAt(lh, ToLower(needle), i);
  }

  /** A concrete case: case is ignored only on request. */
  lemma CaseExample()
    ensures !AnyMatches("Name", ["name"], false)
    ensures AnyMatches("Name", ["name"], true)
  {
    assert !Contains("Name", "name") by {
      IndexOfContains("Name", "name");
    }
    assert ToLower("Name") == "name";
    assert Contains("name", "name");
    assert Matches("Name", ["name"][0], true);
  }
}
