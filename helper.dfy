/** The static helpers of src/utils/helper.ts. src/helpers/function.ts holds
    textual copies of `toSnakeCase`, `wrap`, `escape` (there named `e`),
    `extractColumnName` and `wildcardString`, and src/utils/obj.ts copies of
    `only`, `value` and `get`; each is modelled once, here. */
module Helper {
  import opened Wrappers
  import opened Strings
  import opened Values

  /** The static members the class `Helper` defines (src/utils/helper.ts:3-141).
      Reading any other name gives `undefined`, and calling it throws a
      TypeError. */
  const Members: set<string> := {"toSnakeCase", "wrap", "escape", "extractColumnName", "wildcardString",
                                 "set", "get", "only", "value", "convertToObject", "compileContent"}

  predicate Defines(name: string) {
    name in Members
  }

  /** Four names the rest of the source calls on `Helper` are not among its
      members; the ones it does use beside them are. */
  lemma MissingMembers()
    ensures !Defines("contains") && !Defines("wrapColumn")
    ensures !Defines("serializeToObject") && !Defines("objectIncludeIn")
    ensures Defines("wrap") && Defines("extractColumnName") && Defines("compileContent")
  {
  }

  // ----- toSnakeCase --------------------------------------------------------

  /** `str.replace(/([a-z])([A-Z])/g, '$1_$2')`: an underscore between every
      lower-case letter and the upper-case letter right after it (an upper-case
      letter never starts a match, so the matches cannot overlap). */
  function SplitCamel(s: string): (r: string)
    ensures |r| >= |s|
    decreases |s|
  {
    if |s| < 2 then s
    else if IsLower(s[0]) && IsUpper(s[1]) then [s[0], '_'] + SplitCamel(s[1..])
    else [s[0]] + SplitCamel(s[1..])
  }

  /** `toSnakeCase(str)`. */
  function ToSnakeCase(s: string): (r: string)
    ensures NoUpper(r)
  {
    ToLower(SplitCamel(s))
  }

  /** A string without upper-case letters needs no underscore. */
  lemma {:induction false} SplitCamelNoUpper(s: string)
    requires NoUpper(s)
    ensures SplitCamel(s) == s
    decreases |s|
  {
    if |s| >= 2 {
      SplitCamelNoUpper(s[1..]);
    }
  }

  /** Snake-casing is idempotent, and leaves text without upper-case letters alone. */
  lemma SnakeCaseIdempotent(s: string)
    ensures ToSnakeCase(ToSnakeCase(s)) == ToSnakeCase(s)
    ensures NoUpper(s) ==> ToSnakeCase(s) == s
  {
    SplitCamelNoUpper(ToSnakeCase(s));
    if NoUpper(s) {
      SplitCamelNoUpper(s);
      LowerNoUpper(s);
    }
  }

  lemma {:induction false} LowerNoUpper(s: string)
    requires NoUpper(s)
    ensures ToLower(s) == s
  {
    assert forall i :: 0 <= i < |s| ==> ToLower(s)[i] == s[i];
  }

  /** What one step of `SplitCamel` emits for the first character. */
  function CamelHead(s: string): string
    requires s != []
  {
    if |s| >= 2 && IsLower(s[0]) && IsUpper(s[1]) then [s[0], '_'] else [s[0]]
  }

  lemma SnakeStep(s: string)
    requires s != []
    ensures ToSnakeCase(s) == ToLower(CamelHead(s)) + ToSnakeCase(s[1..])
  {
    assert SplitCamel(s) == CamelHead(s) + SplitCamel(s[1..]);
    LowerConcat(CamelHead(s), SplitCamel(s[1..]));
  }

  /** The underscores snake-casing adds: wherever a lower-case letter is
      followed by an upper-case one, the result holds both, lower-cased, with
      `_` between them. */
  lemma {:induction false} SplitCamelStructure(s: string, i: nat)
    requires i + 1 < |s| && IsLower(s[i]) && IsUpper(s[i + 1])
    ensures Contains(ToSnakeCase(s), [LowerChar(s[i]), '_', LowerChar(s[i + 1])])
    decreases i
  {
    var needle := [LowerChar(s[i]), '_', LowerChar(s[i + 1])];
    SnakeStep(s);
    var tail := ToSnakeCase(s[1..]);
    if i == 0 {
      assert tail != [] && tail[0] == LowerChar(s[1]) by {
        SnakeStep(s[1..]);
      }
      var t := ToSnakeCase(s);
      assert t == [LowerChar(s[0]), '_'] + tail;
      assert t[..3] == needle;
      ContainsAt(t, needle, 0);
    } else {
      SplitCamelStructure(s[1..], i - 1);
      ContainsSuffix(ToLower(CamelHead(s)), tail, needle);
    }
  }

  lemma LowerConcat(a: string, b: string)
    ensures ToLower(a + b) == ToLower(a) + ToLower(b)
  {
    assert forall i :: 0 <= i < |a + b| ==> ToLower(a + b)[i] == (ToLower(a) + ToLower(b))[i];
  }

  lemma ContainsSuffix(a: string, b: string, needle: string)
    requires Contains(b, needle)
    ensures Contains(a + b, needle)
  {
    IndexOfContains(b, needle);
    var i := IndexOf(b, needle);
    IndexOfFirst(b, needle);
    assert (a + b)[|a| + i..|a| + i + |needle|] == b[i..i + |needle|];
    ContainsAt(a + b, needle, |a| + i);
  }

  // ----- wrap -----------------------------------------------------------------

  function Quote(s: string): string {
    "`" + s + "`"
  }

  function QuoteSegment(segment: string): string {
    Quote(ToSnakeCase(segment))
  }

  function QuoteSegments(segments: seq<string>): (r: seq<string>)
    ensures |r| == |segments|
    ensures forall k :: 0 <= k < |r| ==> r[k] == QuoteSegment(segments[k])
  {
    if segments == [] then [] else [QuoteSegment(segments[0])] + QuoteSegments(segments[1..])
  }

  /** `wrap(value)`: `column as alias` becomes `` `column` as `alias` `` (both
      parts trimmed, not snake-cased); anything else has every dot-separated
      segment snake-cased and back-quoted. */
  function Wrap(value: string): string {
    if Contains(value, " as ") then
      var parts := Split(value, " as ");
      var column := parts[0];
      var alias := if |parts| > 1 then ToJsString(Str(parts[1])) else "undefined";
      Quote(Trim(column)) + " as " + Quote(Trim(alias))
    else
      Join(QuoteSegments(Split(value, ".")), ".")
  }

  /** The alias form: the text before and after the first ` as `, trimmed. */
  lemma WrapAlias(column: string, alias: string)
    requires !Contains(column + " ", " as ") && !Contains(alias, " as ")
    ensures Wrap(column + " as " + alias) == Quote(Trim(column)) + " as " + Quote(Trim(alias))
  {
    var value := column + " as " + alias;
    assert value[|column|..|column| + 4] == " as ";
    ContainsAt(value, " as ", |column|);
    SplitAs(column, alias);
  }

  /** `(a + " as " + b).split(" as ")` is `[a, b]` when neither part holds
      ` as ` and `a` does not end in ` as` (which would make the first
      occurrence start inside `a`). */
  lemma SplitAs(a: string, b: string)
    requires !Contains(a + " ", " as ") && !Contains(b, " as ")
    ensures Split(a + " as " + b, " as ") == [a, b]
  {
    var sep := " as ";
    var s := a + sep + b;
    assert IsPrefix(sep, s[|a|..]) by {
      assert s[|a|..][..4] == sep;
    }
    var i := IndexOf(s, sep);
    IndexOfFirst(s, sep);
    assert 0 <= i <= |a|;
    if i < |a| {
      NoEarlyAs(a, b, i);
    }
    assert s[..i] == a;
    assert s[i + |sep|..] == b;
    SplitWithout(b, sep);
  }

  lemma NoEarlyAs(a: string, b: string, j: nat)
    requires j < |a| && !Contains(a + " ", " as ")
    ensures !IsPrefix(" as ", (a + " as " + b)[j..])
  {
    if j + 4 <= |a| + 1 {
      AsInside(a, b, j);
    } else {
      AsOverlap(a, b, j);
    }
  }

  lemma AsInside(a: string, b: string, j: nat)
    requires j + 4 <= |a| + 1 && !Contains(a + " ", " as ")
    ensures !IsPrefix(" as ", (a + " as " + b)[j..])
  {
    var s := a + " as " + b;
    assert s[j..][..4] == (a + " ")[j..j + 4];
    if (a + " ")[j..j + 4] == " as " {
      ContainsAt(a + " ", " as ", j);
    }
  }

  lemma AsOverlap(a: string, b: string, j: nat)
    requires j < |a| < j + 3
    ensures !IsPrefix(" as ", (a + " as " + b)[j..])
  {
    var s := a + " as " + b;
    var d := |a| - j;
    assert s[j..][d] == ' ';
    assert " as "[d] != ' ';
  }

  /** Without ` as `, the result has one back-quoted, snake-cased segment per
      dot-separated segment of the input. */
  lemma WrapSegments(value: string)
    requires !Contains(value, " as ")
    ensures Split(Wrap(value), ".") == QuoteSegments(Split(value, "."))
    ensures |Split(Wrap(value), ".")| == |Split(value, ".")|
  {
    var segments := Split(value, ".");
    var quoted := QuoteSegments(segments);
    SplitPartsFree(value, ".");
    forall k | 0 <= k < |quoted| ensures '.' !in quoted[k] {
      ContainsChar(segments[k], '.');
      LowerKeepsDotFree(segments[k]);
    }
    SplitJoin(quoted, '.');
  }

  lemma LowerKeepsDotFree(segment: string)
    requires '.' !in segment
    ensures '.' !in QuoteSegment(segment)
  {
    assert '.' !in SplitCamel(segment) by { SplitCamelChars(segment, '.'); }
    var t := ToSnakeCase(segment);
    forall i | 0 <= i < |t| ensures t[i] != '.' {
      assert t[i] == LowerChar(SplitCamel(segment)[i]);
    }
  }

  lemma {:induction false} SplitCamelChars(s: string, c: char)
    requires c != '_' && c !in s
    ensures c !in SplitCamel(s)
    decreases |s|
  {
    if |s| >= 2 {
      SplitCamelChars(s[1..], c);
    }
  }

  lemma {:induction false} NoSpaceNoAs(s: string)
    requires ' ' !in s
    ensures !Contains(s, " as ")
    decreases |s|
  {
    if s != [] {
      assert !IsPrefix(" as ", s) by {
        if |s| >= 4 {
          assert s[..4][0] == s[0];
        }
      }
      assert ' ' !in s[1..] by {
        forall i | 0 <= i < |s[1..]| ensures s[1..][i] != ' ' {
          assert s[1..][i] == s[i + 1];
        }
      }
      NoSpaceNoAs(s[1..]);
    }
  }

  // ----- escape -----------------------------------------------------------------

  /** The entity `escape` writes for a character, or the character itself. */
  function EscapeChar(c: char): string {
    if c == '&' then "&amp;"
    else if c == '<' then "&lt;"
    else if c == '>' then "&gt;"
    else if c == '"' then "&quot;"
    else if c == '\'' then "&#039;"
    else [c]
  }

  predicate Unsafe(c: char) {
    c == '<' || c == '>' || c == '"' || c == '\''
  }

  /** `value.replace(/[&<>"']/g, …)`: every special character by its entity. */
  function EscapeString(s: string): (r: string)
    ensures forall i :: 0 <= i < |r| ==> !Unsafe(r[i])
    ensures |r| >= |s|
  {
    if s == [] then [] else EscapeChar(s[0]) + EscapeString(s[1..])
  }

  /** `escape(value)`: strings are escaped, any other value is returned as is. */
  function Escape(v: Value): (r: Value)
    ensures v.Str? ==> r.Str? && forall i :: 0 <= i < |r.s| ==> !Unsafe(r.s[i])
    ensures !v.Str? ==> r == v
  {
    if v.Str? then Str(EscapeString(v.s)) else v
  }

  /** Reading the entities back: the partner of `EscapeString`. */
  function Unescape(s: string): string
    decreases |s|
  {
    if s == [] then []
    else if IsPrefix("&amp;", s) then "&" + Unescape(s[5..])
    else if IsPrefix("&lt;", s) then "<" + Unescape(s[4..])
    else if IsPrefix("&gt;", s) then ">" + Unescape(s[4..])
    else if IsPrefix("&quot;", s) then "\"" + Unescape(s[6..])
    else if IsPrefix("&#039;", s) then "'" + Unescape(s[6..])
    else [s[0]] + Unescape(s[1..])
  }

  /** Unescaping one escaped character in front of any text. */
  lemma UnescapeStep(c: char, rest: string)
    ensures Unescape(EscapeChar(c) + rest) == [c] + Unescape(rest)
  {
    if c == '&' { UnescapeAmp(rest); }
    else if c == '<' { UnescapeLt(rest); }
    else if c == '>' { UnescapeGt(rest); }
    else if c == '"' { UnescapeQuot(rest); }
    else if c == '\'' { UnescapeApos(rest); }
    else {
      var t := [c] + rest;
      assert EscapeChar(c) == [c];
      assert !IsPrefix("&amp;", t) && !IsPrefix("&lt;", t) && !IsPrefix("&gt;", t)
          && !IsPrefix("&quot;", t) && !IsPrefix("&#039;", t) by {
        assert t[0] == c;
      }
      assert t[1..] == rest;
    }
  }

  lemma UnescapeAmp(rest: string)
    ensures Unescape("&amp;" + rest) == "&" + Unescape(rest)
  {
    var t := "&amp;" + rest;
    assert t[..5] == "&amp;" && t[5..] == rest;
  }

  lemma UnescapeLt(rest: string)
    ensures Unescape("&lt;" + rest) == "<" + Unescape(rest)
  {
    var t := "&lt;" + rest;
    assert !IsPrefix("&amp;", t) by { assert t[1] == 'l'; }
    assert t[..4] == "&lt;" && t[4..] == rest;
  }

  lemma UnescapeGt(rest: string)
    ensures Unescape("&gt;" + rest) == ">" + Unescape(rest)
  {
    var t := "&gt;" + rest;
    assert !IsPrefix("&amp;", t) && !IsPrefix("&lt;", t) by { assert t[1] == 'g'; }
    assert t[..4] == "&gt;" && t[4..] == rest;
  }

  lemma UnescapeQuot(rest: string)
    ensures Unescape("&quot;" + rest) == "\"" + Unescape(rest)
  {
    var t := "&quot;" + rest;
    assert !IsPrefix("&amp;", t) && !IsPrefix("&lt;", t) && !IsPrefix("&gt;", t) by { assert t[1] == 'q'; }
    assert t[..6] == "&quot;" && t[6..] == rest;
  }

  lemma UnescapeApos(rest: string)
    ensures Unescape("&#039;" + rest) == "'" + Unescape(rest)
  {
    var t := "&#039;" + rest;
    assert !IsPrefix("&amp;", t) && !IsPrefix("&lt;", t) && !IsPrefix("&gt;", t)
        && !IsPrefix("&quot;", t) by { assert t[1] == '#'; }
    assert t[..6] == "&#039;" && t[6..] == rest;
  }

  /** Escaping loses nothing: unescaping gives the original text back. */
  lemma {:induction false} EscapeRoundTrip(s: string)
    ensures Unescape(EscapeString(s)) == s
    decreases |s|
  {
    if s != [] {
      EscapeRoundTrip(s[1..]);
      UnescapeStep(s[0], EscapeString(s[1..]));
    }
  }

  /** Escaping is not idempotent: the `&` of an entity is escaped again. */
  lemma EscapeNotIdempotent()
    ensures EscapeString(EscapeString("&")) == "&amp;amp;" != EscapeString("&")
  {
  }

  /** Characters other than the five special ones are kept. */
  lemma {:induction false} EscapeKeepsPlain(s: string)
    requires forall i :: 0 <= i < |s| ==> s[i] != '&' && !Unsafe(s[i])
    ensures EscapeString(s) == s
    decreases |s|
  {
    if s != [] {
      EscapeKeepsPlain(s[1..]);
    }
  }

  // ----- extractColumnName ------------------------------------------------------

  /** `extractColumnName(str, wantsAlias)`. */
  function ExtractColumnName(str: string, wantsAlias: bool): (r: string)
    ensures |Split(ToLower(str), " as ")| > 1 ==>
              r == if wantsAlias then Last(Split(ToLower(str), " as ")) else Split(ToLower(str), " as ")[0]
    ensures |Split(ToLower(str), " as ")| <= 1 && Contains(str, ".") ==> r == Last(Split(str, "."))
    ensures |Split(ToLower(str), " as ")| <= 1 && !Contains(str, ".") ==> r == str
  {
    var matches := Split(ToLower(str), " as ");
    if |matches| > 1 then
      if wantsAlias then Last(matches) else matches[0]
    else if Contains(str, ".") then Last(Split(str, "."))
    else str
  }

  function Last(parts: seq<string>): string
    requires |parts| >= 1
  {
    parts[|parts| - 1]
  }

  /** With ` as ` present, the real column is the lower-cased text before it
      and the alias the text after it. */
  lemma ExtractAlias(column: string, alias: string)
    requires NoUpper(column) && NoUpper(alias)
    requires !Contains(column + " ", " as ") && !Contains(alias, " as ")
    ensures ExtractColumnName(column + " as " + alias, false) == column
    ensures ExtractColumnName(column + " as " + alias, true) == alias
  {
    var s := column + " as " + alias;
    assert NoUpper(s);
    LowerNoUpper(s);
    SplitAs(column, alias);
  }

  /** Without ` as `, a qualified name gives its last segment, case kept. */
  lemma ExtractQualified(table: string, column: string)
    requires '.' !in column && ' ' !in table && ' ' !in column
    ensures ExtractColumnName(table + "." + column, false) == column
  {
    var s := table + "." + column;
    assert ' ' !in ToLower(s) by {
      forall i | 0 <= i < |s| ensures ToLower(s)[i] != ' ' { }
    }
    NoSpaceNoAs(ToLower(s));
    SplitWithout(ToLower(s), " as ");
    assert s[|table|..|table| + 1] == ".";
    ContainsAt(s, ".", |table|);
    LastSegment(table, column);
  }

  lemma LastSegment(prefix: string, column: string)
    requires '.' !in column
    ensures Last(Split(prefix + "." + column, ".")) == column
  {
    var parts := Split(prefix, ".");
    SplitPartsFree(prefix, ".");
    forall k | 0 <= k < |parts| ensures '.' !in parts[k] {
      ContainsChar(parts[k], '.');
    }
    JoinSplit(prefix, ".");
    JoinSnoc(parts, column, ".");
    SplitJoin(parts + [column], '.');
  }

  lemma {:induction false} JoinSnoc(parts: seq<string>, x: string, sep: string)
    requires |parts| >= 1
    ensures Join(parts + [x], sep) == Join(parts, sep) + sep + x
    decreases |parts|
  {
    if |parts| > 1 {
      JoinSnoc(parts[1..], x, sep);
      assert (parts + [x])[1..] == parts[1..] + [x];
    }
  }

  // ----- wildcardString -----------------------------------------------------------

  /** Each character followed by the wildcard. */
  function Interleave(s: string, wildcard: string): string {
    if s == [] then [] else Interleave(s[..|s| - 1], wildcard) + [s[|s| - 1]] + wildcard
  }

  /** What `wildcardString(str, wildcard, lowercase)` returns: the wildcard,
      then every character followed by the wildcard, lower-cased on request. */
  function WildcardSpec(s: string, wildcard: string, lowercase: bool): string {
    var wild := wildcard + Interleave(s, wildcard);
    if lowercase then ToLower(wild) else wild
  }

  method WildcardString(str: string, wildcard: string, lowercase: bool) returns (wild: string)
    ensures wild == WildcardSpec(str, wildcard, lowercase)
  {
    wild := wildcard;
    var i := 0;
    while i < |str|
      invariant 0 <= i <= |str|
      invariant wild == wildcard + Interleave(str[..i], wildcard)
    {
      assert str[..i + 1][..i] == str[..i];
      wild := wild + [str[i]] + wildcard;
      i := i + 1;
    }
    assert str[..i] == str;
    if lowercase {
      wild := ToLower(wild);
    }
  }

  lemma {:induction false} InterleaveLength(s: string, wildcard: string)
    ensures |Interleave(s, wildcard)| == |s| * (|wildcard| + 1)
    decreases |s|
  {
    if s != [] {
      InterleaveLength(s[..|s| - 1], wildcard);
      MulSucc(|s| - 1, |wildcard| + 1);
    }
  }

  /** The length is `(n + 1)·|wildcard| + n`; the empty string gives the wildcard. */
  lemma WildcardLength(s: string, wildcard: string, lowercase: bool)
    ensures |WildcardSpec(s, wildcard, lowercase)| == (|s| + 1) * |wildcard| + |s|
    ensures s == [] ==> WildcardSpec(s, wildcard, lowercase) == (if lowercase then ToLower(wildcard) else wildcard)
  {
    InterleaveLength(s, wildcard);
    MulSucc(|s|, |wildcard|);
  }

  /** Character `k` of the input sits at `p = k·(|w| + 1)` of the
      interleaving, with a copy of the wildcard right after it. */
  lemma {:induction false} InterleaveAt(s: string, wildcard: string, k: nat, p: nat)
    requires k < |s| && p == k * (|wildcard| + 1)
    ensures p + |wildcard| < |Interleave(s, wildcard)|
    ensures Interleave(s, wildcard)[p] == s[k]
    ensures Interleave(s, wildcard)[p + 1..p + 1 + |wildcard|] == wildcard
    decreases |s|
  {
    var init := s[..|s| - 1];
    var left := Interleave(init, wildcard);
    var whole := Interleave(s, wildcard);
    assert whole == left + [s[|s| - 1]] + wildcard;
    InterleaveLength(init, wildcard);
    if k < |init| {
      InterleaveAt(init, wildcard, k, p);
      assert p + 1 + |wildcard| <= |left| by {
        MulMono(k + 1, |init|, |wildcard| + 1);
        MulSucc(k, |wildcard| + 1);
      }
      assert whole[p] == left[p];
      assert whole[p + 1..p + 1 + |wildcard|] == left[p + 1..p + 1 + |wildcard|];
    } else {
      assert p == |left|;
      assert whole[p + 1..p + 1 + |wildcard|] == wildcard;
    }
  }

  lemma MulSucc(k: nat, c: nat)
    ensures (k + 1) * c == k * c + c
  {
  }

  lemma MulMono(a: nat, b: nat, c: nat)
    requires a <= b
    ensures a * c <= b * c
  {
  }

  /** The wildcard form holds only the input's characters, the wildcard's
      and their lower-case forms: a character none of them has never appears. */
  lemma WildcardChars(s: string, wildcard: string, c: char)
    requires c !in s && c !in wildcard && !IsLower(c)
    ensures c !in WildcardSpec(s, wildcard, true)
  {
    var wild := wildcard + Interleave(s, wildcard);
    InterleaveChars(s, wildcard, c);
    assert c !in wild;
    var w := ToLower(wild);
    forall i | 0 <= i < |w|
      ensures w[i] != c
    {
      assert w[i] == LowerChar(wild[i]);
    }
  }

  lemma {:induction false} InterleaveChars(s: string, wildcard: string, c: char)
    ensures c in Interleave(s, wildcard) ==> c in s || c in wildcard
  {
    if s != [] {
      InterleaveChars(s[..|s| - 1], wildcard, c);
      assert c in s[..|s| - 1] ==> c in s;
    }
  }

  lemma WildcardExample()
    ensures WildcardSpec("aB", "%", true) == "%a%b%"
  {
    assert "aB"[..1] == "a" && "a"[..0] == "";
    assert Interleave("a", "%") == "a%";
    assert Interleave("aB", "%") == "a%B%";
  }

  // ----- only, value, compileContent --------------------------------------------

  /** `only(obj, keys)`: a reduce over `Object.keys(obj)` that copies every
      listed key into a fresh object. */
  function Only(fields: seq<Field>, keys: seq<string>): (r: seq<Field>)
    ensures forall k :: HasKey(r, k) ==> k in keys && HasKey(fields, k)
  {
    if fields == [] then []
    else
      var init := fields[..|fields| - 1];
      var last := fields[|fields| - 1];
      var r := Only(init, keys);
      if last.key in keys then
        assert forall k :: HasKey(Assign(r, last.key, last.val), k) ==> k == last.key || HasKey(r, k) by {
          forall k | HasKey(Assign(r, last.key, last.val), k) ensures k == last.key || HasKey(r, k) {
            AssignLookup(r, last.key, last.val, k);
          }
        }
        assert forall k :: HasKey(init, k) ==> HasKey(fields, k) by {
          forall k | HasKey(init, k) ensures HasKey(fields, k) {
            var j :| 0 <= j < |init| && init[j].key == k;
            assert fields[j].key == k;
          }
        }
        Assign(r, last.key, last.val)
      else
        assert forall k :: HasKey(init, k) ==> HasKey(fields, k) by {
          forall k | HasKey(init, k) ensures HasKey(fields, k) {
            var j :| 0 <= j < |init| && init[j].key == k;
            assert fields[j].key == k;
          }
        }
        r
  }

  /** The fields whose key is listed, in the object's order: the reference
      definition `only` is compared with. */
  function Select(fields: seq<Field>, keys: seq<string>): (r: seq<Field>)
    ensures |r| <= |fields|
  {
    if fields == [] then []
    else (if fields[0].key in keys then [fields[0]] else []) + Select(fields[1..], keys)
  }

  lemma {:induction false} SelectSnoc(init: seq<Field>, last: Field, keys: seq<string>)
    ensures Select(init + [last], keys) == Select(init, keys) + (if last.key in keys then [last] else [])
    decreases |init|
  {
    if init != [] {
      SelectSnoc(init[1..], last, keys);
      assert (init + [last])[1..] == init[1..] + [last];
    } else {
      assert [last][1..] == [];
    }
  }

  /** On an object (unique keys) `only` keeps exactly the listed keys, in the
      object's order, with their values. */
  lemma {:induction false} OnlySelects(fields: seq<Field>, keys: seq<string>)
    requires UniqueKeys(fields)
    ensures Only(fields, keys) == Select(fields, keys)
    decreases |fields|
  {
    if fields != [] {
      var init := fields[..|fields| - 1];
      var last := fields[|fields| - 1];
      assert fields == init + [last];
      OnlySelects(init, keys);
      SelectSnoc(init, last, keys);
      if last.key in keys {
        assert !HasKey(init, last.key);
      }
    }
  }

  /** What a lookup on the projection sees. */
  lemma {:induction false} OnlyLookup(fields: seq<Field>, keys: seq<string>, k: string)
    requires UniqueKeys(fields)
    ensures Lookup(Only(fields, keys), k) == if k in keys then Lookup(fields, k) else None
    decreases |fields|
  {
    OnlySelects(fields, keys);
    SelectLookup(fields, keys, k);
  }

  lemma {:induction false} SelectLookup(fields: seq<Field>, keys: seq<string>, k: string)
    ensures Lookup(Select(fields, keys), k) == if k in keys then Lookup(fields, k) else None
    decreases |fields|
  {
    if fields != [] {
      SelectLookup(fields[1..], keys, k);
      var rest := Select(fields[1..], keys);
      if fields[0].key in keys {
        assert Select(fields, keys) == [fields[0]] + rest;
        assert ([fields[0]] + rest)[1..] == rest;
      } else {
        assert Select(fields, keys) == rest;
      }
    }
  }

  /** No keys give the empty object; all the object's keys give it back. */
  lemma OnlyBounds(fields: seq<Field>)
    requires UniqueKeys(fields)
    ensures Only(fields, []) == []
    ensures Only(fields, Keys(fields)) == fields
  {
    OnlySelects(fields, []);
    SelectNone(fields);
    OnlySelects(fields, Keys(fields));
    SelectAll(fields, Keys(fields));
  }

  lemma {:induction false} SelectNone(fields: seq<Field>)
    ensures Select(fields, []) == []
  {
    if fields != [] {
      SelectNone(fields[1..]);
    }
  }

  lemma {:induction false} SelectAll(fields: seq<Field>, keys: seq<string>)
    requires forall i :: 0 <= i < |fields| ==> fields[i].key in keys
    ensures Select(fields, keys) == fields
  {
    if fields != [] {
      SelectAll(fields[1..], keys);
    }
  }

  /** `value(v)`: a function is called, anything else is returned. */
  function ValueOf(v: Value): (r: Value)
    ensures TypeOf(v) == "function" ==> r == v.result
    ensures TypeOf(v) != "function" ==> r == v
  {
    if v.Fun? then v.result else v
  }

  /** `compileContent(content)` is the identity. */
  function CompileContent(content: Value): (r: Value)
    ensures r == content
  {
    content
  }

  /** `get(obj, path, defaultValue = null)`. */
  function GetOr(v: Value, path: string, default: Option<Value>): (r: Value)
    ensures GetIn(v, Path(path)).Undefined? ==> r == (if default.Some? then default.value else Null)
    ensures !GetIn(v, Path(path)).Undefined? ==> r == GetIn(v, Path(path))
  {
    Get(v, path, if default.Some? then default.value else Null)
  }
}
