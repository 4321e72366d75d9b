/** The two path resolvers of the bridge (`MCPBridge::uri_to_path` and
    `MCPBridge::tool_to_path`): total functions from a resource URI, or a tool
    name and its arguments, to a path relative to the data source. */
module PathResolver {
  import opened Wrappers
  import opened JsonValue
  import opened Strings
  import opened MapEntries
  import Decimal
  import Utf8
  import Base64
  import Sorting

  /** A resource URI's path: `resources/<rest>.json` for `file://<rest>`;
      `resources/<after>.json` when splitting on "://" gives exactly two pieces;
      `<uri>.json` when it gives more; the URI itself when it has no scheme and
      already ends in ".json"; `<uri>.json` otherwise. */
  function UriToPath(uri: string): (path: string)
    ensures EndsWith(path, ".json")
  {
    if StartsWith(uri, "file://") then "resources/" + uri[7..] + ".json"
    else if Contains(uri, "://") then
      var parts := Split(uri, "://");
      if |parts| == 2 then "resources/" + parts[1] + ".json" else uri + ".json"
    else if EndsWith(uri, ".json") then uri
    else uri + ".json"
  }

  /** "://" cannot overlap itself: two occurrences are at least three apart. */
  lemma SchemeSeparatorApart(s: string, i: int, j: int)
    requires OccursAt(s, "://", i) && OccursAt(s, "://", j) && i < j
    ensures i + 3 <= j
  {
    assert s[i + 1] == '/' && s[i + 2] == '/' by { assert s[i..i + 3] == "://"; }
    assert s[j] == ':' by { assert s[j..j + 3] == "://"; }
  }

  /** A `file://` URI maps to `resources/<rest>.json`. */
  lemma UriToPathFile(uri: string)
    requires StartsWith(uri, "file://")
    ensures UriToPath(uri) == "resources/" + uri[7..] + ".json"
  {
  }

  /** Any other URI with exactly one "://" maps to `resources/<what follows>.json`. */
  lemma UriToPathOneScheme(uri: string, i: int)
    requires !StartsWith(uri, "file://")
    requires OccursAt(uri, "://", i)
    requires forall j :: OccursAt(uri, "://", j) ==> j == i
    ensures UriToPath(uri) == "resources/" + uri[i + 3..] + ".json"
  {
    var first := IndexOf(uri, "://").value;
    assert first == i;
    var rest := uri[i + 3..];
    assert !Contains(rest, "://") by {
      if Contains(rest, "://") {
        var k := IndexOf(rest, "://").value;
        assert uri[i + 3 + k..i + 3 + k + 3] == rest[k..k + 3];
        assert OccursAt(uri, "://", i + 3 + k);
        assert false;
      }
    }
    assert Split(uri, "://") == [uri[..i]] + Split(rest, "://");
    assert Split(rest, "://") == [rest];
  }

  /** With a second "://" after the first, the text after the first one
      still contains "://". */
  lemma RestHasScheme(uri: string, first: nat, later: int)
    requires OccursAt(uri, "://", first) && OccursAt(uri, "://", later) && first < later
    ensures Contains(uri[first + 3..], "://")
  {
    SchemeSeparatorApart(uri, first, later);
    var rest := uri[first + 3..];
    assert rest[later - first - 3..later - first] == uri[later..later + 3];
    assert OccursAt(rest, "://", later - first - 3);
  }

  /** A URI other than `file://` with two or more "://" maps to `<uri>.json`. */
  lemma UriToPathManySchemes(uri: string, i: int, j: int)
    requires !StartsWith(uri, "file://")
    requires OccursAt(uri, "://", i) && OccursAt(uri, "://", j) && i != j
    ensures UriToPath(uri) == uri + ".json"
  {
    var first := IndexOf(uri, "://").value;
    var rest := uri[first + 3..];
    var later := if i < j then j else i;
    assert first < later;
    RestHasScheme(uri, first, later);
    var k := IndexOf(rest, "://").value;
    assert |Split(uri, "://")| > 2 by {
      assert Split(uri, "://") == [uri[..first]] + Split(rest, "://");
      assert Split(rest, "://") == [rest[..k]] + Split(rest[k + 3..], "://");
    }
  }

  /** A URI without "://" keeps a ".json" suffix and gains one otherwise. */
  lemma UriToPathNoScheme(uri: string)
    requires forall i :: !OccursAt(uri, "://", i)
    ensures UriToPath(uri) == if EndsWith(uri, ".json") then uri else uri + ".json"
  {
    assert !OccursAt(uri, "://", 4);
    assert !StartsWith(uri, "file://") by {
      assert "file://"[4..7] == "://";
    }
  }

  /** The shared stringification of an argument value: a string is itself, a
      number its decimal text, a boolean "true" or "false", anything else its
      compact JSON text (`compact` stands for `serde_json::to_string`). */
  function Stringify(v: Json, compact: Json -> string): (s: string)
    ensures v.Str? ==> s == v.s
    ensures v.Num? ==> Decimal.ParseInt(s) == Some(v.n)
    ensures v.Bool? ==> s == (if v.b then "true" else "false")
    ensures v.Null? || v.Arr? || v.Obj? ==> s == compact(v)
  {
    match v
    case Str(s) => s
    case Num(n) => Decimal.ParseIntToDecimal(n); Decimal.IntToDecimal(n)
    case Bool(b) => if b then "true" else "false"
    case _ => compact(v)
  }

  function Identity(s: string): string { s }

  function PairKey(p: (string, string)): string { p.0 }

  /** `(key, stringified value)` for every entry, in the same order. */
  function StringPairs(entries: seq<Entry>, compact: Json -> string): seq<(string, string)>
  {
    seq(|entries|, i requires 0 <= i < |entries| => (entries[i].0, Stringify(entries[i].1, compact)))
  }

  /** `key=value` for every pair, in the same order. */
  function Items(pairs: seq<(string, string)>): seq<string> {
    seq(|pairs|, i requires 0 <= i < |pairs| => pairs[i].0 + "=" + pairs[i].1)
  }

  /** `key=value` pairs joined with '&', neither escaped: empty for no pairs,
      and otherwise starting with the first pair. */
  function QueryString(pairs: seq<(string, string)>): (q: string)
    ensures |pairs| == 0 ==> q == ""
    ensures |pairs| > 0 ==> StartsWith(q, pairs[0].0 + "=" + pairs[0].1)
  {
    Join(Items(pairs), "&")
  }

  /** No '&' in keys and values, and no '=' in keys. */
  predicate Unambiguous(pairs: seq<(string, string)>) {
    forall i :: 0 <= i < |pairs| ==> '&' !in pairs[i].0 && '&' !in pairs[i].1 && '=' !in pairs[i].0
  }

  /** When no key or value contains '&', splitting the query string at '&'
      gives back the `key=value` items. */
  lemma QueryStringSplits(pairs: seq<(string, string)>)
    requires |pairs| > 0
    requires forall i :: 0 <= i < |pairs| ==> '&' !in pairs[i].0 && '&' !in pairs[i].1
    ensures Split(QueryString(pairs), "&") == Items(pairs)
  {
    JoinSplit(Items(pairs), '&');
  }

  /** The query string determines the pairs as long as neither separator
      occurs where it would be ambiguous. */
  lemma QueryStringInjective(p1: seq<(string, string)>, p2: seq<(string, string)>)
    requires Unambiguous(p1) && Unambiguous(p2)
    requires QueryString(p1) == QueryString(p2)
    ensures p1 == p2
  {
    if |p1| == 0 || |p2| == 0 {
      assert |p1| == 0 && |p2| == 0;
    } else {
      QueryStringSplits(p1);
      QueryStringSplits(p2);
      var i1, i2 := Items(p1), Items(p2);
      assert |p1| == |i1| == |i2| == |p2|;
      forall i | 0 <= i < |p1| ensures p1[i] == p2[i] {
        var k1, v1, k2, v2 := p1[i].0, p1[i].1, p2[i].0, p2[i].1;
        assert k1 + "=" + v1 == k2 + "=" + v2 by { assert i1[i] == i2[i]; }
        FirstSeparator(k1, '=', v1);
        FirstSeparator(k2, '=', v2);
        var s := k1 + "=" + v1;
        assert k1 == s[..|k1|] && v1 == s[|k1| + 1..];
        assert k2 == s[..|k2|] && v2 == s[|k2| + 1..];
      }
    }
  }

  /** The path segment for three or more arguments: the query string of the
      pairs (sorted by key by the caller), Base64-encoded, made path-safe;
      `[A-Za-z0-9_]` only, four characters for every three UTF-8 bytes of the
      query string, rounded up. */
  function EncodedSegment(sorted: seq<(string, string)>): (seg: string)
    ensures var bytes := Utf8.Encode(QueryString(sorted));
            |seg| == 4 * ((|bytes| + 2) / 3)
    ensures forall k :: 0 <= k < |seg| ==> Base64.IsPathSafeChar(seg[k])
  {
    var bytes := Utf8.Encode(QueryString(sorted));
    Base64.PathSafeEncode(bytes);
    Base64.PathSafe(Base64.Encode(bytes))
  }

  /** A tool call's path, from the tool name and the argument entries in the
      order the argument map hands them out: under "tools/<name>", ending in
      ".json", and a file inside that directory exactly when there are arguments. */
  function ToolPath(name: string, entries: seq<Entry>, compact: Json -> string): (path: string)
    ensures StartsWith(path, "tools/" + name) && EndsWith(path, ".json")
    ensures |entries| == 0 <==> path == "tools/" + name + ".json"
    ensures |entries| > 0 ==> StartsWith(path, "tools/" + name + "/")
  {
    var dir := "tools/" + name;
    if |entries| == 0 then dir + ".json"
    else
      var file :=
        if |entries| == 1 then Stringify(entries[0].1, compact)
        else if |entries| == 2 then
          var values := Sorting.SortBy([Stringify(entries[0].1, compact), Stringify(entries[1].1, compact)], Identity);
          values[0] + "/" + values[1]
        else EncodedSegment(Sorting.SortBy(StringPairs(entries, compact), PairKey));
      FileInDirectory(dir, file);
      dir + "/" + file + ".json"
  }

  /** The path for two arguments, with the two sorted values as directory and file. */
  lemma ToolPathTwo(name: string, entries: seq<Entry>, compact: Json -> string)
    requires |entries| == 2
    ensures var values := Sorting.SortBy([Stringify(entries[0].1, compact), Stringify(entries[1].1, compact)], Identity);
            ToolPath(name, entries, compact) == "tools/" + name + "/" + values[0] + "/" + values[1] + ".json"
  {
    var values := Sorting.SortBy([Stringify(entries[0].1, compact), Stringify(entries[1].1, compact)], Identity);
    var dir := "tools/" + name;
    assert ToolPath(name, entries, compact) == dir + "/" + (values[0] + "/" + values[1]) + ".json";
    assert dir + "/" + (values[0] + "/" + values[1]) == dir + "/" + values[0] + "/" + values[1];
  }

  /** The path for three or more arguments, with the encoded segment as file. */
  lemma ToolPathMany(name: string, entries: seq<Entry>, compact: Json -> string)
    requires |entries| >= 3
    ensures ToolPath(name, entries, compact)
         == "tools/" + name + "/" + EncodedSegment(Sorting.SortBy(StringPairs(entries, compact), PairKey)) + ".json"
  {
  }

  /** `<dir>/<file>.json` lies inside the directory and is not `<dir>.json`. */
  lemma FileInDirectory(dir: string, file: string)
    ensures StartsWith(dir + "/" + file + ".json", dir + "/")
    ensures EndsWith(dir + "/" + file + ".json", ".json")
    ensures dir + "/" + file + ".json" != dir + ".json"
  {
    var path := dir + "/" + file + ".json";
    assert path[..|dir| + 1] == dir + "/";
    assert |path| > |dir + ".json"|;
  }

  /** With two arguments the path is `<dir>/<a>/<b>.json` where a and b are the
      two stringified values and a <= b. */
  lemma ToolPathTwoSorted(name: string, entries: seq<Entry>, compact: Json -> string)
    requires |entries| == 2
    ensures exists a, b ::
      && LexLe(a, b)
      && multiset{a, b} == multiset{Stringify(entries[0].1, compact), Stringify(entries[1].1, compact)}
      && ToolPath(name, entries, compact) == "tools/" + name + "/" + a + "/" + b + ".json"
  {
    var input := [Stringify(entries[0].1, compact), Stringify(entries[1].1, compact)];
    var values := Sorting.SortBy(input, Identity);
    ToolPathTwo(name, entries, compact);
    assert |multiset(values)| == 2;
    assert Identity(values[0]) == values[0] && Identity(values[1]) == values[1];
    assert multiset(values) == multiset{values[0], values[1]} by {
      assert values == [values[0], values[1]];
    }
    assert multiset(input) == multiset{input[0], input[1]};
  }

  /** With two arguments the path depends on the two stringified values only,
      not on the keys nor on which key holds which value. */
  lemma ToolPathTwoValuesOnly(name: string, e1: seq<Entry>, e2: seq<Entry>, compact: Json -> string)
    requires |e1| == 2 && |e2| == 2
    requires multiset{Stringify(e1[0].1, compact), Stringify(e1[1].1, compact)}
          == multiset{Stringify(e2[0].1, compact), Stringify(e2[1].1, compact)}
    ensures ToolPath(name, e1, compact) == ToolPath(name, e2, compact)
  {
    var s := [Stringify(e1[0].1, compact), Stringify(e1[1].1, compact)];
    var t := [Stringify(e2[0].1, compact), Stringify(e2[1].1, compact)];
    assert multiset(s) == multiset(t);
    assert Sorting.KeyDetermines(s, Identity);
    Sorting.SortByPermutation(s, t, Identity);
    ToolPathTwo(name, e1, compact);
    ToolPathTwo(name, e2, compact);
  }

  /** The stringified pairs of an enumeration are exactly the fields of the map
      with their values stringified. */
  lemma StringPairsMembers(entries: seq<Entry>, args: map<string, Json>, compact: Json -> string, p: (string, string))
    requires Enumerates(entries, args)
    ensures p in StringPairs(entries, compact) <==> p.0 in args && p.1 == Stringify(args[p.0], compact)
  {
    var pairs := StringPairs(entries, compact);
    if p.0 in args && p.1 == Stringify(args[p.0], compact) {
      EnumerationCoversKeys(entries, args, p.0);
      var i :| 0 <= i < |entries| && entries[i].0 == p.0;
      assert pairs[i] == p;
    }
  }

  lemma OrderIndependentOne(name: string, e1: seq<Entry>, e2: seq<Entry>, compact: Json -> string)
    requires |e1| == 1 && multiset(e1) == multiset(e2)
    ensures ToolPath(name, e1, compact) == ToolPath(name, e2, compact)
  {
    assert |e2| == |multiset(e2)| == 1;
    assert e1[0] in multiset(e2);
  }

  lemma OrderIndependentTwo(name: string, e1: seq<Entry>, e2: seq<Entry>, compact: Json -> string)
    requires |e1| == 2 && e1[0] != e1[1] && multiset(e1) == multiset(e2)
    ensures ToolPath(name, e1, compact) == ToolPath(name, e2, compact)
  {
    assert |e2| == |multiset(e2)| == 2;
    assert e1 == [e1[0], e1[1]] && e2 == [e2[0], e2[1]];
    assert e2[0] in multiset(e1) && e2[1] in multiset(e1);
    assert e2[0] != e2[1];
    ToolPathTwoValuesOnly(name, e1, e2, compact);
  }

  lemma OrderIndependentMany(name: string, e1: seq<Entry>, e2: seq<Entry>, args: map<string, Json>, compact: Json -> string)
    requires Enumerates(e1, args) && Enumerates(e2, args) && |e1| >= 3
    ensures ToolPath(name, e1, compact) == ToolPath(name, e2, compact)
  {
    var p1, p2 := StringPairs(e1, compact), StringPairs(e2, compact);
    forall p ensures p in p1 <==> p in p2 {
      StringPairsMembers(e1, args, compact, p);
      StringPairsMembers(e2, args, compact, p);
    }
    assert forall i, j :: 0 <= i < j < |p1| ==> p1[i] != p1[j];
    assert forall i, j :: 0 <= i < j < |p2| ==> p2[i] != p2[j];
    SameElementsPermutation(p1, p2);
    assert Sorting.KeyDetermines(p1, PairKey);
    Sorting.SortByPermutation(p1, p2, PairKey);
    ToolPathMany(name, e1, compact);
    ToolPathMany(name, e2, compact);
  }

  /** The path of a tool call does not depend on the order in which the
      argument map hands out its entries. */
  lemma ToolPathOrderIndependent(name: string, e1: seq<Entry>, e2: seq<Entry>, args: map<string, Json>, compact: Json -> string)
    requires Enumerates(e1, args) && Enumerates(e2, args)
    ensures ToolPath(name, e1, compact) == ToolPath(name, e2, compact)
  {
    EnumerationsPermutation(e1, e2, args);
    if |e1| == 1 {
      OrderIndependentOne(name, e1, e2, compact);
    } else if |e1| == 2 {
      OrderIndependentTwo(name, e1, e2, compact);
    } else if |e1| >= 3 {
      OrderIndependentMany(name, e1, e2, args, compact);
    }
  }

  /** `MCPBridge::tool_to_path` on an argument map. */
  function ToolToPath(name: string, args: map<string, Json>, compact: Json -> string): (path: string)
    ensures forall e :: Enumerates(e, args) ==> path == ToolPath(name, e, compact)
  {
    var path := ToolPath(name, Entries(args), compact);
    forall e | Enumerates(e, args) ensures path == ToolPath(name, e, compact) {
      ToolPathOrderIndependent(name, Entries(args), e, args, compact);
    }
    path
  }

  /** With three or more arguments the path is `<dir>/<segment>.json`: the
      segment is the path-safe Base64 of the query string of the pairs sorted
      by key, it uses `[A-Za-z0-9_]` only, and its length is 4 * ceil(n / 3)
      for the n UTF-8 bytes of the query string. */
  lemma ToolPathManyArgs(name: string, entries: seq<Entry>, compact: Json -> string)
    requires |entries| >= 3
    ensures var sorted := Sorting.SortBy(StringPairs(entries, compact), PairKey);
            var bytes := Utf8.Encode(QueryString(sorted));
            var segment := Base64.PathSafe(Base64.Encode(bytes));
            && Sorting.SortedBy(sorted, PairKey)
            && multiset(sorted) == multiset(StringPairs(entries, compact))
            && ToolPath(name, entries, compact) == "tools/" + name + "/" + segment + ".json"
            && |segment| == 4 * ((|bytes| + 2) / 3)
            && forall k :: 0 <= k < |segment| ==> Base64.IsPathSafeChar(segment[k])
  {
    ToolPathMany(name, entries, compact);
  }

  /** No arguments: the path is the tool's own file. */
  lemma ToolToPathNoArgs(name: string, compact: Json -> string)
    ensures ToolToPath(name, map[], compact) == "tools/" + name + ".json"
  {
    assert Enumerates([], map[]);
  }

  /** One argument: the path is the stringified value inside the tool's
      directory, whatever the key. */
  lemma ToolToPathOneArg(name: string, args: map<string, Json>, k: string, compact: Json -> string)
    requires args.Keys == {k}
    ensures ToolToPath(name, args, compact) == "tools/" + name + "/" + Stringify(args[k], compact) + ".json"
  {
    assert |args| == 1;
    assert Enumerates([(k, args[k])], args);
  }

  /** Pairs already in key order with distinct keys are left as they are by the sort. */
  lemma SortByKeySorted(pairs: seq<(string, string)>)
    requires Sorting.SortedBy(pairs, PairKey)
    requires forall i, j :: 0 <= i < j < |pairs| ==> pairs[i].0 != pairs[j].0
    ensures Sorting.SortBy(pairs, PairKey) == pairs
  {
    var r := Sorting.SortBy(pairs, PairKey);
    assert Sorting.KeyDetermines(r, PairKey) by {
      forall i, j | 0 <= i < |r| && 0 <= j < |r| && PairKey(r[i]) == PairKey(r[j]) ensures r[i] == r[j] {
        assert r[i] in multiset(pairs) && r[j] in multiset(pairs);
        var i' :| 0 <= i' < |pairs| && pairs[i'] == r[i];
        var j' :| 0 <= j' < |pairs| && pairs[j'] == r[j];
        assert pairs[i'].0 == pairs[j'].0;
        assert i' == j';
      }
    }
    Sorting.SortedUnique(r, pairs, PairKey);
  }

  /** Keys and values go into the query string unescaped, so a value holding
      "&<key>=" reads like one more argument: {a: "1&b=2", c: "3", d: "4"}
      and {a: "1", b: "2", c: "3", d: "4"} give one path. */
  lemma ToolPathJoinCollision(name: string, ka: string, kb: string, kc: string, kd: string,
                              v: string, w: string, x: string, y: string, compact: Json -> string)
    requires LexLe(ka, kb) && LexLe(kb, kc) && LexLe(kc, kd)
    requires ka != kb && kb != kc && kc != kd && ka != kc && ka != kd && kb != kd
    ensures var e1 := [(ka, Str(v + "&" + kb + "=" + w)), (kc, Str(x)), (kd, Str(y))];
            var e2 := [(ka, Str(v)), (kb, Str(w)), (kc, Str(x)), (kd, Str(y))];
            e1 != e2 && ToolPath(name, e1, compact) == ToolPath(name, e2, compact)
  {
    var e1 := [(ka, Str(v + "&" + kb + "=" + w)), (kc, Str(x)), (kd, Str(y))];
    var e2 := [(ka, Str(v)), (kb, Str(w)), (kc, Str(x)), (kd, Str(y))];
    assert |e1| != |e2|;
    CollisionQueries(ka, kb, kc, kd, v, w, x, y, compact);
    SameQuerySamePath(name, e1, e2, compact);
  }

  /** The sorted pairs of the two argument lists above give one query string. */
  lemma CollisionQueries(ka: string, kb: string, kc: string, kd: string,
                         v: string, w: string, x: string, y: string, compact: Json -> string)
    requires LexLe(ka, kb) && LexLe(kb, kc) && LexLe(kc, kd)
    requires ka != kb && kb != kc && kc != kd && ka != kc && ka != kd && kb != kd
    ensures QueryString(Sorting.SortBy(StringPairs([(ka, Str(v + "&" + kb + "=" + w)), (kc, Str(x)), (kd, Str(y))], compact), PairKey))
         == QueryString(Sorting.SortBy(StringPairs([(ka, Str(v)), (kb, Str(w)), (kc, Str(x)), (kd, Str(y))], compact), PairKey))
  {
    var p1 := [(ka, v + "&" + kb + "=" + w), (kc, x), (kd, y)];
    var p2 := [(ka, v), (kb, w), (kc, x), (kd, y)];
    assert StringPairs([(ka, Str(v + "&" + kb + "=" + w)), (kc, Str(x)), (kd, Str(y))], compact) == p1;
    assert StringPairs([(ka, Str(v)), (kb, Str(w)), (kc, Str(x)), (kd, Str(y))], compact) == p2;
    LexLeTransitive(ka, kb, kc);
    LexLeTransitive(kb, kc, kd);
    LexLeTransitive(ka, kc, kd);
    SortedThree(p1);
    SortedFour(p2);
    QueryStringCollision(ka, kb, kc, kd, v, w, x, y);
  }

  /** Three pairs in strictly increasing key order are already sorted. */
  lemma SortedThree(p: seq<(string, string)>)
    requires |p| == 3
    requires LexLe(p[0].0, p[1].0) && LexLe(p[1].0, p[2].0) && LexLe(p[0].0, p[2].0)
    requires p[0].0 != p[1].0 && p[1].0 != p[2].0 && p[0].0 != p[2].0
    ensures Sorting.SortBy(p, PairKey) == p
  {
    SortByKeySorted(p);
  }

  /** Four pairs in strictly increasing key order are already sorted. */
  lemma SortedFour(p: seq<(string, string)>)
    requires |p| == 4
    requires LexLe(p[0].0, p[1].0) && LexLe(p[1].0, p[2].0) && LexLe(p[2].0, p[3].0)
    requires LexLe(p[0].0, p[2].0) && LexLe(p[0].0, p[3].0) && LexLe(p[1].0, p[3].0)
    requires p[0].0 != p[1].0 && p[1].0 != p[2].0 && p[2].0 != p[3].0
    requires p[0].0 != p[2].0 && p[0].0 != p[3].0 && p[1].0 != p[3].0
    ensures Sorting.SortBy(p, PairKey) == p
  {
    SortByKeySorted(p);
  }

  /** Three or more arguments whose sorted pairs give one query string give one path. */
  lemma SameQuerySamePath(name: string, e1: seq<Entry>, e2: seq<Entry>, compact: Json -> string)
    requires |e1| >= 3 && |e2| >= 3
    requires QueryString(Sorting.SortBy(StringPairs(e1, compact), PairKey))
          == QueryString(Sorting.SortBy(StringPairs(e2, compact), PairKey))
    ensures ToolPath(name, e1, compact) == ToolPath(name, e2, compact)
  {
    ToolPathMany(name, e1, compact);
    ToolPathMany(name, e2, compact);
  }

  /** The two query strings behind the collision above are one string. */
  lemma QueryStringCollision(ka: string, kb: string, kc: string, kd: string, v: string, w: string, x: string, y: string)
    ensures QueryString([(ka, v + "&" + kb + "=" + w), (kc, x), (kd, y)])
         == QueryString([(ka, v), (kb, w), (kc, x), (kd, y)])
  {
    var tail := Join([kc + "=" + x, kd + "=" + y], "&");
    assert Items([(ka, v + "&" + kb + "=" + w), (kc, x), (kd, y)]) == [ka + "=" + (v + "&" + kb + "=" + w), kc + "=" + x, kd + "=" + y];
    assert Items([(ka, v), (kb, w), (kc, x), (kd, y)]) == [ka + "=" + v, kb + "=" + w, kc + "=" + x, kd + "=" + y];
    assert Join([kb + "=" + w, kc + "=" + x, kd + "=" + y], "&") == kb + "=" + w + "&" + tail;
    assert Join([ka + "=" + v, kb + "=" + w, kc + "=" + x, kd + "=" + y], "&")
        == ka + "=" + v + "&" + (kb + "=" + w + "&" + tail);
    assert Join([ka + "=" + (v + "&" + kb + "=" + w), kc + "=" + x, kd + "=" + y], "&")
        == ka + "=" + (v + "&" + kb + "=" + w) + "&" + tail;
  }

  lemma UriToPathFileExample()
    ensures UriToPath("file:///a/b") == "resources//a/b.json"
  {
  }

  /** A string without ':' has no "://" in it. */
  lemma NoColonNoScheme(s: string)
    requires forall k :: 0 <= k < |s| ==> s[k] != ':'
    ensures forall i :: !OccursAt(s, "://", i)
  {
    forall i ensures !OccursAt(s, "://", i) {
      if 0 <= i && i + 3 <= |s| {
        assert s[i..i + 3][0] == s[i] != ':';
      }
    }
  }

  lemma UriToPathHttpsExample()
    ensures UriToPath("https://x.com/y") == "resources/x.com/y.json"
  {
    var u := "https://x.com/y";
    assert u[..7] != "file://" by { assert u[0] == 'h'; }
    assert u[5..8] == "://";
    forall j | OccursAt(u, "://", j) ensures j == 5 {
      assert u[j..j + 3][0] == u[j] == ':';
    }
    UriToPathOneScheme(u, 5);
    assert u[8..] == "x.com/y";
  }

  /** A scheme with nothing after it still counts as two pieces. */
  lemma UriToPathEmptyRestExample()
    ensures UriToPath("x://") == "resources/.json"
  {
    var u := "x://";
    assert u[1..4] == "://";
    forall j | OccursAt(u, "://", j) ensures j == 1 {
      assert u[j..j + 3][0] == u[j] == ':';
    }
    UriToPathOneScheme(u, 1);
    assert u[4..] == "";
  }

  lemma UriToPathTwoSchemesExample()
    ensures UriToPath("a://b://c") == "a://b://c.json"
  {
    var u := "a://b://c";
    assert u[..7] != "file://" by { assert u[0] == 'a'; }
    assert u[1..4] == "://" && u[5..8] == "://";
    UriToPathManySchemes(u, 1, 5);
  }

  /** With two or more "://" the ".json" is appended even when present:
      `a://b://c.json` maps to `a://b://c.json.json`. */
  lemma UriToPathTwoSchemesJsonExample(c: string)
    ensures UriToPath("a://b://" + c + ".json") == "a://b://" + c + ".json" + ".json"
  {
    var u := "a://b://" + c + ".json";
    assert u[..7] != "file://" by { assert u[0] == 'a'; }
    assert u[1..4] == "://" && u[5..8] == "://";
    UriToPathManySchemes(u, 1, 5);
  }

  lemma UriToPathPlainExample()
    ensures UriToPath("plain") == "plain.json"
  {
    var u := "plain";
    NoColonNoScheme(u);
    UriToPathNoScheme(u);
    assert u[0..] != ".json" by { assert u[0] == 'p'; }
  }

  lemma UriToPathJsonExample()
    ensures UriToPath("already.json") == "already.json"
  {
    var u := "already.json";
    NoColonNoScheme(u);
    UriToPathNoScheme(u);
    assert u[7..] == ".json";
  }

  lemma UriToPathEmptyExample()
    ensures UriToPath("") == ".json"
  {
    NoColonNoScheme("");
    UriToPathNoScheme("");
  }

  lemma ToolToPathNoArgsExample(compact: Json -> string)
    ensures ToolToPath("search", map[], compact) == "tools/search.json"
  {
    assert Enumerates([], map[]);
  }

  lemma ToolToPathOneArgExample(compact: Json -> string)
    ensures ToolToPath("search", map["q" := Str("cats")], compact) == "tools/search/cats.json"
  {
    assert Enumerates([("q", Str("cats"))], map["q" := Str("cats")]);
  }

  /** Two values already in order are left as they are by the sort. */
  lemma SortTwoInOrder(a: string, b: string)
    requires LexLe(a, b)
    ensures Sorting.SortBy([a, b], Identity) == [a, b]
  {
    var s := [a, b];
    var r := Sorting.SortBy(s, Identity);
    assert Sorting.SortedBy(s, Identity);
    assert Sorting.KeyDetermines(r, Identity);
    Sorting.SortedUnique(r, s, Identity);
  }

  /** The path for two string arguments whose values are in order. */
  lemma ToolPathTwoStringEntries(name: string, e: seq<Entry>, x: string, y: string, compact: Json -> string)
    requires |e| == 2 && LexLe(x, y)
    requires (e[0].1 == Str(x) && e[1].1 == Str(y)) || (e[0].1 == Str(y) && e[1].1 == Str(x))
    ensures ToolPath(name, e, compact) == "tools/" + name + "/" + x + "/" + y + ".json"
  {
    var s := [Stringify(e[0].1, compact), Stringify(e[1].1, compact)];
    SortTwoInOrder(x, y);
    assert multiset(s) == multiset([x, y]);
    Sorting.SortByPermutation(s, [x, y], Identity);
    ToolPathTwo(name, e, compact);
  }

  /** The two entries of a two-field object. */
  lemma EnumeratesTwo(k1: string, v1: Json, k2: string, v2: Json)
    requires k1 != k2
    ensures Enumerates([(k1, v1), (k2, v2)], map[k1 := v1, k2 := v2])
  {
    var args := map[k1 := v1, k2 := v2];
    assert args.Keys == {k1, k2};
  }

  /** Two string arguments: the values come out sorted, whichever key holds which. */
  lemma ToolToPathTwoStrings(name: string, k1: string, v1: string, k2: string, v2: string, compact: Json -> string)
    requires k1 != k2
    ensures LexLe(v1, v2) ==> ToolToPath(name, map[k1 := Str(v1), k2 := Str(v2)], compact) == "tools/" + name + "/" + v1 + "/" + v2 + ".json"
    ensures LexLe(v2, v1) ==> ToolToPath(name, map[k1 := Str(v1), k2 := Str(v2)], compact) == "tools/" + name + "/" + v2 + "/" + v1 + ".json"
  {
    var e := [(k1, Str(v1)), (k2, Str(v2))];
    assert ToolToPath(name, map[k1 := Str(v1), k2 := Str(v2)], compact) == ToolPath(name, e, compact) by {
      EnumeratesTwo(k1, Str(v1), k2, Str(v2));
    }
    if LexLe(v1, v2) { ToolPathTwoStringEntries(name, e, v1, v2, compact); }
    if LexLe(v2, v1) { ToolPathTwoStringEntries(name, e, v2, v1, compact); }
  }
}
