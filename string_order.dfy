/**
 * Java's natural order on strings (String.compareTo: the first differing character decides, and a
 * proper prefix comes first), the ascending list of a set's keys, and the stable sort that
 * List.sort and Stream.sorted perform, here by a string key in descending order.
 */
module StringOrder {

  /** a.compareTo(b) < 0. */
  predicate Less(a: string, b: string)
    decreases |a|
  {
    if |a| == 0 then |b| > 0
    else if |b| == 0 then false
    else if a[0] != b[0] then a[0] < b[0]
    else Less(a[1..], b[1..])
  }

  lemma {:induction false} LessIrreflexive(a: string)
    ensures !Less(a, a)
    decreases |a|
  {
    if |a| > 0 {
      LessIrreflexive(a[1..]);
    }
  }

  lemma {:induction false} LessAsymmetric(a: string, b: string)
    ensures Less(a, b) ==> !Less(b, a)
    decreases |a|
  {
    if |a| > 0 && |b| > 0 && a[0] == b[0] {
      LessAsymmetric(a[1..], b[1..]);
    }
  }

  lemma {:induction false} LessTotal(a: string, b: string)
    ensures a != b ==> Less(a, b) || Less(b, a)
    decreases |a|
  {
    if |a| > 0 && |b| > 0 && a[0] == b[0] {
      LessTotal(a[1..], b[1..]);
      if a[1..] == b[1..] {
        assert a == [a[0]] + a[1..] && b == [b[0]] + b[1..];
      }
    }
  }

  lemma {:induction false} LessTransitive(a: string, b: string, c: string)
    ensures Less(a, b) && Less(b, c) ==> Less(a, c)
    decreases |a|
  {
    if |a| > 0 && |b| > 0 && |c| > 0 && a[0] == b[0] && b[0] == c[0] {
      LessTransitive(a[1..], b[1..], c[1..]);
    }
  }

  /** Not-less is transitive too: the order is total. */
  lemma NotLessTransitive(a: string, b: string, c: string)
    ensures !Less(a, b) && !Less(b, c) ==> !Less(a, c)
  {
    LessTotal(a, b);
    LessTotal(b, c);
    LessTransitive(c, b, a);
    LessAsymmetric(a, c);
    if a == b || b == c {
      LessTotal(a, c);
    }
  }

  /** The empty string comes before every other one. */
  lemma EmptyFirst(a: string)
    ensures !Less(a, "")
    ensures Less("", a) <==> a != ""
  {
  }

  /** k is in keys and before every other key. */
  predicate IsLeast(k: string, keys: set<string>) {
    k in keys && forall j :: j in keys && j != k ==> Less(k, j)
  }

  /** A finite set of strings has a least element. */
  lemma LeastExists(keys: set<string>)
    requires keys != {}
    ensures exists k :: IsLeast(k, keys)
  {
    var k := LeastOf(keys);
  }

  lemma {:induction false} LeastOf(keys: set<string>) returns (k: string)
    requires keys != {}
    ensures IsLeast(k, keys)
  {
    var x :| x in keys;
    if keys == {x} {
      k := x;
    } else {
      var m := LeastOf(keys - {x});
      LessTotal(x, m);
      if Less(x, m) {
        forall j | j in keys && j != x ensures Less(x, j) {
          if j != m {
            assert j in keys - {x};
            LessTransitive(x, m, j);
          }
        }
        k := x;
      } else {
        forall j | j in keys && j != m ensures Less(m, j) {
          if j != x {
            assert j in keys - {x};
          }
        }
        k := m;
      }
    }
  }

  function Least(keys: set<string>): (k: string)
    requires keys != {}
    ensures k in keys && forall j :: j in keys && j != k ==> Less(k, j)
  {
    LeastExists(keys);
    assert forall a, b :: Less(a, b) ==> !Less(b, a) by {
      forall a, b {
        LessAsymmetric(a, b);
      }
    }
    var k :| IsLeast(k, keys);
    k
  }

  /** The keys of a set in ascending order, each once. */
  function SortedKeys(keys: set<string>): (r: seq<string>)
    ensures |r| == |keys|
    ensures forall k :: k in r <==> k in keys
    ensures forall i, j :: 0 <= i < j < |r| ==> Less(r[i], r[j])
    decreases |keys|
  {
    if keys == {} then []
    else
      var k := Least(keys);
      var rest := SortedKeys(keys - {k});
      forall j | 0 <= j < |rest| ensures Less(k, rest[j]) {
        assert rest[j] in keys - {k};
      }
      [k] + rest
  }

  /** Each element is at least the next under the key: no later element has a greater key. */
  ghost predicate Descending<T>(r: seq<T>, key: T -> string) {
    forall i, j :: 0 <= i < j < |r| ==> !Less(key(r[i]), key(r[j]))
  }

  /** Insert x before the first element with a key not above x's. */
  function Insert<T>(x: T, s: seq<T>, key: T -> string): (r: seq<T>)
    ensures multiset(r) == multiset(s) + multiset{x}
    ensures |r| == |s| + 1
  {
    if s == [] || !Less(key(x), key(s[0])) then [x] + s
    else
      assert s == [s[0]] + s[1..];
      [s[0]] + Insert(x, s[1..], key)
  }

  /** Stream.sorted(Comparator.comparing(key).reversed()): greatest key first, ties kept in their order. */
  function SortDescending<T>(xs: seq<T>, key: T -> string): (r: seq<T>)
    ensures multiset(r) == multiset(xs)
    ensures |r| == |xs|
  {
    if xs == [] then []
    else
      assert xs == [xs[0]] + xs[1..];
      Insert(xs[0], SortDescending(xs[1..], key), key)
  }

  lemma {:induction false} InsertDescending<T>(x: T, s: seq<T>, key: T -> string)
    requires Descending(s, key)
    ensures Descending(Insert(x, s, key), key)
  {
    if s == [] || !Less(key(x), key(s[0])) {
      InsertInFront(x, s, key);
    } else {
      var tail := s[1..];
      DescendingTail(s, key);
      InsertDescending(x, tail, key);
      InsertBehind(x, s, key);
    }
  }

  /** x placed in front of a descending list whose first key is not above x's keeps it descending. */
  lemma InsertInFront<T>(x: T, s: seq<T>, key: T -> string)
    requires Descending(s, key)
    requires s == [] || !Less(key(x), key(s[0]))
    ensures Descending([x] + s, key)
  {
    var r := [x] + s;
    forall i, j | 0 <= i < j < |r| ensures !Less(key(r[i]), key(r[j])) {
      if i == 0 {
        assert r[j] == s[j - 1];
        if j > 1 {
          NotLessTransitive(key(x), key(s[0]), key(s[j - 1]));
        }
      } else {
        assert r[i] == s[i - 1] && r[j] == s[j - 1];
      }
    }
  }

  lemma DescendingTail<T>(s: seq<T>, key: T -> string)
    requires s != [] && Descending(s, key)
    ensures Descending(s[1..], key)
  {
    var tail := s[1..];
    forall i, j | 0 <= i < j < |tail| ensures !Less(key(tail[i]), key(tail[j])) {
      assert tail[i] == s[i + 1] && tail[j] == s[j + 1];
    }
  }

  /** When x goes behind the head, the head stays in front of the descending insertion into the rest. */
  lemma InsertBehind<T>(x: T, s: seq<T>, key: T -> string)
    requires s != [] && Less(key(x), key(s[0])) && Descending(s, key)
    requires Descending(Insert(x, s[1..], key), key)
    ensures Descending(Insert(x, s, key), key)
  {
    var tail := s[1..];
    var inserted := Insert(x, tail, key);
    var r := [s[0]] + inserted;
    assert Insert(x, s, key) == r;
    LessAsymmetric(key(x), key(s[0]));
    forall i, j | 0 <= i < j < |r| ensures !Less(key(r[i]), key(r[j])) {
      if i == 0 {
        assert r[j] == inserted[j - 1];
        HeadAbove(x, s, key, j - 1);
      } else {
        assert r[i] == inserted[i - 1] && r[j] == inserted[j - 1];
      }
    }
  }

  /** No element of the insertion into the rest has a key above the head's. */
  lemma HeadAbove<T>(x: T, s: seq<T>, key: T -> string, k: nat)
    requires s != [] && !Less(key(s[0]), key(x)) && Descending(s, key)
    requires k < |Insert(x, s[1..], key)|
    ensures !Less(key(s[0]), key(Insert(x, s[1..], key)[k]))
  {
    var tail, e := s[1..], Insert(x, s[1..], key)[k];
    assert e in multiset(Insert(x, tail, key));
    assert e in multiset(tail) + multiset{x};
    if e != x {
      assert e in tail;
      var m :| 0 <= m < |tail| && tail[m] == e;
      assert s[m + 1] == e;
    }
  }

  /** The sorted list runs from the greatest key to the least. */
  lemma {:induction false} SortDescendingSorted<T>(xs: seq<T>, key: T -> string)
    ensures Descending(SortDescending(xs, key), key)
  {
    if xs != [] {
      SortDescendingSorted(xs[1..], key);
      InsertDescending(xs[0], SortDescending(xs[1..], key), key);
    }
  }

  /** The elements whose key is v, in their order. */
  function WithKey<T>(s: seq<T>, key: T -> string, v: string): (r: seq<T>)
    ensures forall i :: 0 <= i < |r| ==> key(r[i]) == v && r[i] in s
    ensures |r| <= |s|
  {
    if s == [] then [] else (if key(s[0]) == v then [s[0]] else []) + WithKey(s[1..], key, v)
  }

  lemma WithKeyCons<T>(y: T, t: seq<T>, key: T -> string, v: string)
    ensures WithKey([y] + t, key, v) == (if key(y) == v then [y] else []) + WithKey(t, key, v)
  {
    assert ([y] + t)[0] == y && ([y] + t)[1..] == t;
  }

  lemma {:induction false} InsertStable<T>(x: T, s: seq<T>, key: T -> string, v: string)
    ensures WithKey(Insert(x, s, key), key, v) == (if key(x) == v then [x] else []) + WithKey(s, key, v)
  {
    if s == [] || !Less(key(x), key(s[0])) {
      WithKeyCons(x, s, key, v);
    } else {
      LessIrreflexive(key(x));
      InsertStable(x, s[1..], key, v);
      StableStep(x, s[0], s[1..], Insert(x, s[1..], key), key, v);
      assert [s[0]] + s[1..] == s;
    }
  }

  /** An element with a key other than x's may pass in front of x without changing any key's order. */
  lemma StableStep<T>(x: T, y: T, t: seq<T>, inserted: seq<T>, key: T -> string, v: string)
    requires key(x) != key(y)
    requires WithKey(inserted, key, v) == (if key(x) == v then [x] else []) + WithKey(t, key, v)
    ensures WithKey([y] + inserted, key, v) == (if key(x) == v then [x] else []) + WithKey([y] + t, key, v)
  {
    WithKeyCons(y, inserted, key, v);
    WithKeyCons(y, t, key, v);
  }

  /** The sort is stable: the elements sharing a key keep the order they had. */
  lemma {:induction false} SortDescendingStable<T>(xs: seq<T>, key: T -> string, v: string)
    ensures WithKey(SortDescending(xs, key), key, v) == WithKey(xs, key, v)
  {
    if xs != [] {
      SortDescendingStable(xs[1..], key, v);
      InsertStable(xs[0], SortDescending(xs[1..], key), key, v);
    }
  }

  /** With a descending key, the elements whose key is empty come after all the others. */
  lemma EmptyKeysLast<T>(r: seq<T>, key: T -> string, i: nat, j: nat)
    requires Descending(r, key)
    requires i < j < |r| && key(r[i]) == ""
    ensures key(r[j]) == ""
  {
    EmptyFirst(key(r[j]));
  }
}
