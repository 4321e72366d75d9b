/** Sorting by a string key, standing for `Vec::sort` on strings and
    `Vec::sort_by(|a, b| a.0.cmp(&b.0))` on key/value pairs. */
module Sorting {
  import opened Strings

  predicate SortedBy<T>(s: seq<T>, key: T -> string) {
    forall i, j :: 0 <= i < j < |s| ==> LexLe(key(s[i]), key(s[j]))
  }

  /** Elements with the same key are the same element: true of the entries of
      a map (keys are distinct) and of strings sorted by themselves. */
  ghost predicate KeyDetermines<T>(s: seq<T>, key: T -> string) {
    forall i, j :: 0 <= i < |s| && 0 <= j < |s| && key(s[i]) == key(s[j]) ==> s[i] == s[j]
  }

  /** Puts `x` before the first element whose key is greater. */
  function Insert<T(==)>(x: T, s: seq<T>, key: T -> string): (r: seq<T>)
    requires SortedBy(s, key)
    ensures SortedBy(r, key)
    ensures multiset(r) == multiset(s) + multiset{x}
  {
    if |s| == 0 then [x]
    else if LexLe(key(x), key(s[0])) then
      LexLeTotalOrder();
      [x] + s
    else
      var tail := Insert(x, s[1..], key);
      LexLeTotalOrder();
      assert forall k :: 0 <= k < |tail| ==> LexLe(key(s[0]), key(tail[k])) by {
        forall k | 0 <= k < |tail| ensures LexLe(key(s[0]), key(tail[k])) {
          assert tail[k] in multiset(s[1..]) + multiset{x};
          if tail[k] == x {
          } else {
            assert tail[k] in multiset(s[1..]);
            var m :| 0 <= m < |s[1..]| && s[1..][m] == tail[k];
            assert s[1 + m] == tail[k];
          }
        }
      }
      assert s == [s[0]] + s[1..];
      [s[0]] + tail
  }

  /** Insertion sort: sorted, and a permutation of its input. */
  function SortBy<T(==)>(s: seq<T>, key: T -> string): (r: seq<T>)
    ensures SortedBy(r, key)
    ensures multiset(r) == multiset(s)
  {
    if |s| == 0 then []
    else
      assert s == [s[0]] + s[1..];
      Insert(s[0], SortBy(s[1..], key), key)
  }

  lemma MultisetTail<T>(s: seq<T>)
    requires |s| > 0
    ensures multiset(s[1..]) == multiset(s) - multiset{s[0]}
  {
    assert s == [s[0]] + s[1..];
  }

  /** Two sorted arrangements of one multiset start with the same element. */
  lemma SortedSameHead<T>(a: seq<T>, b: seq<T>, key: T -> string)
    requires |a| > 0 && |b| > 0
    requires SortedBy(a, key) && SortedBy(b, key)
    requires multiset(a) == multiset(b)
    requires KeyDetermines(a, key)
    ensures a[0] == b[0]
  {
    assert a[0] in multiset(b);
    var j :| 0 <= j < |b| && b[j] == a[0];
    assert b[0] in multiset(a);
    var i :| 0 <= i < |a| && a[i] == b[0];
    assert LexLe(key(a[0]), key(b[0])) by {
      if i > 0 { assert LexLe(key(a[0]), key(a[i])); }
      else { LexLeReflexive(key(a[0])); }
    }
    assert LexLe(key(b[0]), key(a[0])) by {
      if j > 0 { assert LexLe(key(b[0]), key(b[j])); }
      else { LexLeReflexive(key(b[0])); }
    }
    LexLeAntisymmetric(key(a[0]), key(b[0]));
  }

  /** A sorted arrangement is unique when keys determine elements: so the
      result of sorting does not depend on the order of the input. */
  lemma {:induction false} SortedUnique<T>(a: seq<T>, b: seq<T>, key: T -> string)
    requires SortedBy(a, key) && SortedBy(b, key)
    requires multiset(a) == multiset(b)
    requires KeyDetermines(a, key)
    ensures a == b
    decreases |a|
  {
    assert |a| == |multiset(a)| == |multiset(b)| == |b|;
    if |a| > 0 {
      SortedSameHead(a, b, key);
      MultisetTail(a);
      MultisetTail(b);
      assert KeyDetermines(a[1..], key) by {
        forall i, j | 0 <= i < |a[1..]| && 0 <= j < |a[1..]| && key(a[1..][i]) == key(a[1..][j])
          ensures a[1..][i] == a[1..][j]
        {
          assert a[1..][i] == a[i + 1] && a[1..][j] == a[j + 1];
        }
      }
      SortedUnique(a[1..], b[1..], key);
      assert a == [a[0]] + a[1..] && b == [b[0]] + b[1..];
    }
  }

  /** Sorting two inputs that are permutations of each other gives one result. */
  lemma SortByPermutation<T>(s: seq<T>, t: seq<T>, key: T -> string)
    requires multiset(s) == multiset(t)
    requires KeyDetermines(s, key)
    ensures SortBy(s, key) == SortBy(t, key)
  {
    var a, b := SortBy(s, key), SortBy(t, key);
    assert KeyDetermines(a, key) by {
      forall i, j | 0 <= i < |a| && 0 <= j < |a| && key(a[i]) == key(a[j]) ensures a[i] == a[j] {
        assert a[i] in multiset(s) && a[j] in multiset(s);
        var i' :| 0 <= i' < |s| && s[i'] == a[i];
        var j' :| 0 <= j' < |s| && s[j'] == a[j];
      }
    }
    SortedUnique(a, b, key);
  }
}
