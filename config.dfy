/** The `Config` getters of src/config.ts and src/utils/config.ts (the two
    differ only in `jsonOptions`, which the second adds). Each reads one
    lodash path of the `datatables` configuration with a default; the paths
    are given here by their keys, and `SourceKeys` shows that they are the
    dotted keys the getters name. */
module Config {
  import opened Wrappers
  import opened Values
  import opened Strings

  const WildcardKeys: seq<string> := ["search", "use_wildcards"]
  const SmartKeys: seq<string> := ["search", "smart"]
  const CaseInsensitiveKeys: seq<string> := ["search", "case_insensitive"]
  const DebugKeys: seq<string> := ["debug"]
  const MultiTermKeys: seq<string> := ["search", "multi_term"]
  const StartsWithKeys: seq<string> := ["search", "starts_with"]
  const JsonOptionsKeys: seq<string> := ["json", "options"]
  const JsonHeaderKeys: seq<string> := ["json", "header"]

  /** A boolean setting: the stored value, whatever its type, or the default
      when nothing is stored. */
  function Flag(config: Value, keys: seq<string>, default: bool): (r: Value)
    ensures GetIn(config, keys).Undefined? ==> r == Bool(default)
    ensures !GetIn(config, keys).Undefined? ==> r == GetIn(config, keys)
  {
    GetPath(config, keys, Bool(default))
  }

  function IsWildcard(config: Value): Value { Flag(config, WildcardKeys, false) }
  function IsSmartSearch(config: Value): Value { Flag(config, SmartKeys, true) }
  function IsCaseInsensitive(config: Value): Value { Flag(config, CaseInsensitiveKeys, false) }
  function IsDebugging(config: Value): Value { Flag(config, DebugKeys, false) }
  function IsMultiTerm(config: Value): Value { Flag(config, MultiTermKeys, true) }
  function IsStartsWithSearch(config: Value): Value { Flag(config, StartsWithKeys, false) }

  /** `jsonOptions()` (src/utils/config.ts only). */
  function JsonOptions(config: Value): (r: Value)
    ensures GetIn(config, JsonOptionsKeys).Undefined? ==> r == Num(0)
  {
    GetPath(config, JsonOptionsKeys, Num(0))
  }

  /** `jsonHeaders()`. */
  function JsonHeaders(config: Value): (r: Value)
    ensures GetIn(config, JsonHeaderKeys).Undefined? ==> r == Obj([])
  {
    GetPath(config, JsonHeaderKeys, Obj([]))
  }

  /** `get(key, defaultValue = null)`, for the key split at its dots. */
  function ConfigGet(config: Value, keys: seq<string>, default: Option<Value>): (r: Value)
    ensures GetIn(config, keys).Undefined? ==> r == (if default.Some? then default.value else Null)
    ensures !GetIn(config, keys).Undefined? ==> r == GetIn(config, keys)
  {
    GetPath(config, keys, if default.Some? then default.value else Null)
  }

  // Each getter reads the dotted key the source names: lodash splits it
  // into the keys the getter above uses.

  lemma IsDebuggingKey(config: Value)
    ensures IsDebugging(config) == Get(config, "debug", Bool(false))
  {
    PlainPath("debug");
  }

  lemma IsWildcardKey(config: Value)
    ensures IsWildcard(config) == Get(config, "search.use_wildcards", Bool(false))
  {
    TwoKeys("search.use_wildcards", "search", "use_wildcards");
  }

  lemma IsSmartSearchKey(config: Value)
    ensures IsSmartSearch(config) == Get(config, "search.smart", Bool(true))
  {
    TwoKeys("search.smart", "search", "smart");
  }

  lemma IsCaseInsensitiveKey(config: Value)
    ensures IsCaseInsensitive(config) == Get(config, "search.case_insensitive", Bool(false))
  {
    TwoKeys("search.case_insensitive", "search", "case_insensitive");
  }

  lemma IsMultiTermKey(config: Value)
    ensures IsMultiTerm(config) == Get(config, "search.multi_term", Bool(true))
  {
    TwoKeys("search.multi_term", "search", "multi_term");
  }

  lemma IsStartsWithSearchKey(config: Value)
    ensures IsStartsWithSearch(config) == Get(config, "search.starts_with", Bool(false))
  {
    TwoKeys("search.starts_with", "search", "starts_with");
  }

  lemma JsonOptionsKey(config: Value)
    ensures JsonOptions(config) == Get(config, "json.options", Num(0))
  {
    TwoKeys("json.options", "json", "options");
  }

  lemma JsonHeadersKey(config: Value)
    ensures JsonHeaders(config) == Get(config, "json.header", Obj([]))
  {
    TwoKeys("json.header", "json", "header");
  }

  /** `a.b` splits into `a` and `b`. */
  lemma TwoKeys(key: string, a: string, b: string)
    requires key == a + "." + b
    requires '.' !in a && '.' !in b
    ensures Path(key) == [a, b]
  {
    assert Join([a, b], ".") == a + "." + b by {
      assert Join([a, b], ".") == a + "." + Join([b], ".");
    }
    PathSegments([a, b]);
  }

  /** `get(key, d)` as the source calls it: the dotted key is split first. */
  lemma GetDotted(config: Value, key: string, default: Value)
    ensures Get(config, key, default) == ConfigGet(config, Path(key), Some(default))
  {
  }

  /** The search flags as the engines test them (`if (config.isX())`). */
  datatype Flags = Flags(wildcard: bool, smart: bool, caseInsensitive: bool, startsWith: bool, multiTerm: bool)

  function FlagsOf(config: Value): (f: Flags)
    ensures f.smart == Truthy(IsSmartSearch(config)) && f.multiTerm == Truthy(IsMultiTerm(config))
    ensures f.wildcard == Truthy(IsWildcard(config)) && f.caseInsensitive == Truthy(IsCaseInsensitive(config))
    ensures f.startsWith == Truthy(IsStartsWithSearch(config))
  {
    Flags(Truthy(IsWildcard(config)), Truthy(IsSmartSearch(config)), Truthy(IsCaseInsensitive(config)),
          Truthy(IsStartsWithSearch(config)), Truthy(IsMultiTerm(config)))
  }

  /** An empty configuration: smart search and multi-term on, wildcards,
      case folding, starts-with search and debugging off, no headers,
      JSON options 0, and `get` gives `null`. */
  lemma Defaults(keys: seq<string>)
    requires |keys| >= 1
    ensures FlagsOf(Obj([])) == Flags(false, true, false, false, true)
    ensures IsDebugging(Obj([])) == Bool(false)
    ensures JsonHeaders(Obj([])) == Obj([]) && JsonOptions(Obj([])) == Num(0)
    ensures ConfigGet(Obj([]), keys, None) == Null
  {
    EmptyMisses(WildcardKeys);
    EmptyMisses(SmartKeys);
    EmptyMisses(CaseInsensitiveKeys);
    EmptyMisses(StartsWithKeys);
    EmptyMisses(MultiTermKeys);
    EmptyMisses(DebugKeys);
    EmptyMisses(JsonHeaderKeys);
    EmptyMisses(JsonOptionsKeys);
    EmptyMisses(keys);
  }

  /** Nothing is found in an empty object. */
  lemma EmptyMisses(p: seq<string>)
    requires |p| >= 1
    ensures GetIn(Obj([]), p).Undefined?
  {
    assert GetIn(Obj([]), p) == GetIn(Undefined, p[1..]);
  }

  /** A stored flag wins over the default, whatever its type. */
  lemma StoredFlagWins(smart: Value)
    requires !smart.Undefined?
    ensures IsSmartSearch(Obj([Field("search", Obj([Field("smart", smart)]))])) == smart
  {
    var config := Obj([Field("search", Obj([Field("smart", smart)]))]);
    assert GetIn(config, ["search", "smart"]) == GetIn(Obj([Field("smart", smart)]), ["smart"]);
    assert GetIn(Obj([Field("smart", smart)]), ["smart"]) == GetIn(smart, []);
  }
}
