/** Enumerations of a JSON object's fields. A Rust `HashMap` hands out its
    entries in an order of its own; serde_json's object map hands them out in
    key order. Both are enumerations in the sense below. */
module MapEntries {
  import opened JsonValue
  import opened Strings

  type Entry = (string, Json)

  /** `entries` lists every field of `args` exactly once, in some order. */
  ghost predicate Enumerates(entries: seq<Entry>, args: map<string, Json>) {
    && |entries| == |args|
    && (forall i :: 0 <= i < |entries| ==> entries[i].0 in args && args[entries[i].0] == entries[i].1)
    && (forall i, j :: 0 <= i < j < |entries| ==> entries[i].0 != entries[j].0)
  }

  /** The least key of a non-empty key set. */
  function MinKey(keys: set<string>): (k: string)
    requires keys != {}
    ensures k in keys && forall j :: j in keys ==> LexLe(k, j)
  {
    MinKeyExists(keys);
    LexLeTotalOrder();
    var k :| k in keys && forall j :: j in keys ==> LexLe(k, j);
    k
  }

  lemma {:induction false} MinKeyExists(keys: set<string>)
    requires keys != {}
    ensures exists k :: k in keys && forall j :: j in keys ==> LexLe(k, j)
    decreases |keys|
  {
    var x :| x in keys;
    var rest := keys - {x};
    if rest == {} {
      assert keys == {x};
      LexLeReflexive(x);
      assert forall j :: j in keys ==> LexLe(x, j);
    } else {
      MinKeyExists(rest);
      var m :| m in rest && forall j :: j in rest ==> LexLe(m, j);
      assert keys == rest + {x};
      MinOfAddedKey(rest, m, x);
    }
  }

  /** Adding a key to a set with a least key gives a set with a least key. */
  lemma MinOfAddedKey(rest: set<string>, m: string, x: string)
    requires m in rest && forall j :: j in rest ==> LexLe(m, j)
    ensures exists k :: k in rest + {x} && forall j :: j in rest + {x} ==> LexLe(k, j)
  {
    LexLeTotal(m, x);
    if LexLe(m, x) {
      assert forall j :: j in rest + {x} ==> LexLe(m, j);
    } else {
      forall j | j in rest + {x} ensures LexLe(x, j) {
        if j == x { LexLeReflexive(x); } else { LexLeTransitive(x, m, j); }
      }
      assert x in rest + {x};
    }
  }

  /** The keys in increasing order, each once. */
  function SortedKeys(keys: set<string>): (ks: seq<string>)
    ensures |ks| == |keys|
    ensures forall i :: 0 <= i < |ks| ==> ks[i] in keys
    ensures forall i, j :: 0 <= i < j < |ks| ==> ks[i] != ks[j]
    ensures forall i, j :: 0 <= i < j < |ks| ==> LexLe(ks[i], ks[j])
    decreases |keys|
  {
    if keys == {} then []
    else
      var k := MinKey(keys);
      var rest := SortedKeys(keys - {k});
      [k] + rest
  }

  /** The fields of an object in key order: one enumeration among many. A
      `HashMap` may hand them out in any other order, which the tool path
      does not depend on. */
  function Entries(args: map<string, Json>): (entries: seq<Entry>)
    ensures Enumerates(entries, args)
  {
    var ks := SortedKeys(args.Keys);
    seq(|ks|, i requires 0 <= i < |ks| => (ks[i], args[ks[i]]))
  }

  /** A sequence without repetitions counts each of its elements once. */
  lemma {:induction false} DistinctMultiset<T>(s: seq<T>, x: T)
    requires forall i, j :: 0 <= i < j < |s| ==> s[i] != s[j]
    ensures multiset(s)[x] == if x in s then 1 else 0
  {
    if |s| > 0 {
      assert s == [s[0]] + s[1..];
      DistinctMultiset(s[1..], x);
      if x == s[0] {
        assert x !in s[1..];
      }
    }
  }

  /** Two sequences without repetitions and with the same elements are
      permutations of each other. */
  lemma SameElementsPermutation<T>(s: seq<T>, t: seq<T>)
    requires forall i, j :: 0 <= i < j < |s| ==> s[i] != s[j]
    requires forall i, j :: 0 <= i < j < |t| ==> t[i] != t[j]
    requires forall x :: x in s <==> x in t
    ensures multiset(s) == multiset(t)
  {
    forall x ensures multiset(s)[x] == multiset(t)[x] {
      DistinctMultiset(s, x);
      DistinctMultiset(t, x);
    }
  }

  /** The set of keys an enumeration lists. */
  ghost function KeySet(entries: seq<Entry>): set<string> {
    set i | 0 <= i < |entries| :: entries[i].0
  }

  lemma {:induction false} KeySetSize(entries: seq<Entry>)
    requires forall i, j :: 0 <= i < j < |entries| ==> entries[i].0 != entries[j].0
    ensures |KeySet(entries)| == |entries|
  {
    if |entries| > 0 {
      var tail := entries[1..];
      KeySetSize(tail);
      assert KeySet(entries) == {entries[0].0} + KeySet(tail) by {
        forall k ensures k in KeySet(entries) <==> k in {entries[0].0} + KeySet(tail) {
          if k in KeySet(entries) {
            var i :| 0 <= i < |entries| && entries[i].0 == k;
            if i > 0 { assert tail[i - 1].0 == k; }
          }
          if k in KeySet(tail) {
            var i :| 0 <= i < |tail| && tail[i].0 == k;
            assert entries[i + 1].0 == k;
          }
        }
      }
      assert entries[0].0 !in KeySet(tail);
    }
  }

  lemma {:induction false} SubsetSize<T>(a: set<T>, b: set<T>)
    requires a <= b
    ensures |a| <= |b|
    decreases |b|
  {
    if a != {} {
      var x :| x in a;
      SubsetSize(a - {x}, b - {x});
    }
  }

  /** An enumeration lists every key of the map. */
  lemma EnumerationCoversKeys(entries: seq<Entry>, args: map<string, Json>, k: string)
    requires Enumerates(entries, args)
    requires k in args
    ensures exists i :: 0 <= i < |entries| && entries[i].0 == k
  {
    KeySetSize(entries);
    var ks := KeySet(entries);
    assert ks <= args.Keys;
    if k !in ks {
      assert ks <= args.Keys - {k};
      SubsetSize(ks, args.Keys - {k});
      assert false;
    }
  }

  /** An entry is in an enumeration exactly when it is a field of the map. */
  lemma EnumerationMembers(entries: seq<Entry>, args: map<string, Json>, x: Entry)
    requires Enumerates(entries, args)
    ensures x in entries <==> x.0 in args && args[x.0] == x.1
  {
    if x.0 in args && args[x.0] == x.1 {
      EnumerationCoversKeys(entries, args, x.0);
    }
  }

  /** Any two enumerations of one map are permutations of each other. */
  lemma EnumerationsPermutation(e1: seq<Entry>, e2: seq<Entry>, args: map<string, Json>)
    requires Enumerates(e1, args) && Enumerates(e2, args)
    ensures multiset(e1) == multiset(e2)
  {
    forall x ensures x in e1 <==> x in e2 {
      EnumerationMembers(e1, args, x);
      EnumerationMembers(e2, args, x);
    }
    SameElementsPermutation(e1, e2);
  }
}
