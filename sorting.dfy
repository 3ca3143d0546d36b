/**
 * Python's `list.sort(key=..., reverse=...)`: a stable sort by a key, ascending or
 * descending. Keys are either names (compared as Python compares `str`) or
 * modification times (compared as numbers).
 */
module Sorting {
  import opened Text

  datatype Key = Name(text: string) | Time(stamp: int)

  /** Strict order on keys. Names and times are never mixed in one sort; names come first. */
  predicate KeyLt(a: Key, b: Key) {
    match (a, b)
    case (Name(x), Name(y)) => StrLt(x, y)
    case (Time(x), Time(y)) => x < y
    case (Name(_), Time(_)) => true
    case (Time(_), Name(_)) => false
  }

  lemma KeyLtIrreflexive(a: Key)
    ensures !KeyLt(a, a)
  {
    if a.Name? {
      StrLtIrreflexive(a.text);
    }
  }

  lemma KeyLtTransitive(a: Key, b: Key, c: Key)
    requires KeyLt(a, b) && KeyLt(b, c)
    ensures KeyLt(a, c)
  {
    if a.Name? && b.Name? && c.Name? {
      StrLtTransitive(a.text, b.text, c.text);
    }
  }

  lemma KeyLtConnected(a: Key, b: Key)
    requires a != b
    ensures KeyLt(a, b) || KeyLt(b, a)
  {
    if a.Name? && b.Name? {
      StrLtConnected(a.text, b.text);
    }
  }

  /** Key `a` must come strictly before key `b` (`reverse=True` flips the order). */
  predicate Before(a: Key, b: Key, descending: bool) {
    if descending then KeyLt(b, a) else KeyLt(a, b)
  }

  lemma BeforeIrreflexive(a: Key, descending: bool)
    ensures !Before(a, a, descending)
  {
    KeyLtIrreflexive(a);
  }

  /** "Not after" is transitive: `a <= b <= c` gives `a <= c`. */
  lemma NotBeforeTransitive(a: Key, b: Key, c: Key, descending: bool)
    requires !Before(b, a, descending) && !Before(c, b, descending)
    ensures !Before(c, a, descending)
  {
    if Before(c, a, descending) {
      if a == b {
      } else if b == c {
      } else {
        KeyLtConnected(a, b);
        KeyLtConnected(b, c);
        if descending {
          KeyLtTransitive(a, c, b);
        } else {
          KeyLtTransitive(c, a, b);
        }
      }
    }
  }

  lemma BeforeAsymmetric(a: Key, b: Key, descending: bool)
    requires Before(a, b, descending)
    ensures !Before(b, a, descending)
  {
    if Before(b, a, descending) {
      if descending {
        KeyLtTransitive(a, b, a);
      } else {
        KeyLtTransitive(a, b, a);
      }
      KeyLtIrreflexive(a);
    }
  }

  /** No element of `s` comes after a later one. */
  ghost predicate Ordered<T>(s: seq<T>, key: T -> Key, descending: bool) {
    forall i, j :: 0 <= i < j < |s| ==> !Before(key(s[j]), key(s[i]), descending)
  }

  /**
   * Places `x` into `r` after every element whose key is strictly before `x`'s,
   * and in front of all others (so in front of equal keys: `x` came first in the input).
   */
  function Insert<T>(x: T, r: seq<T>, key: T -> Key, descending: bool): (out: seq<T>)
    ensures multiset(out) == multiset(r) + multiset{x}
    ensures |out| == |r| + 1
    ensures forall y :: y in out ==> y == x || y in r
    decreases |r|
  {
    if r == [] || !Before(key(r[0]), key(x), descending) then [x] + r
    else
      assert r == [r[0]] + r[1..];
      [r[0]] + Insert(x, r[1..], key, descending)
  }

  /** Inserting into an ordered list gives an ordered list. */
  lemma {:induction false} InsertOrdered<T>(x: T, r: seq<T>, key: T -> Key, descending: bool)
    requires Ordered(r, key, descending)
    ensures Ordered(Insert(x, r, key, descending), key, descending)
    decreases |r|
  {
    var out := Insert(x, r, key, descending);
    if r == [] {
    } else if !Before(key(r[0]), key(x), descending) {
      assert out == [x] + r;
      forall i, j | 0 <= i < j < |out|
        ensures !Before(key(out[j]), key(out[i]), descending)
      {
        if i == 0 && j > 1 {
          NotBeforeTransitive(key(x), key(r[0]), key(r[j - 1]), descending);
        }
      }
    } else {
      var tail := Insert(x, r[1..], key, descending);
      assert out == [r[0]] + tail;
      assert Ordered(r[1..], key, descending) by {
        forall i, j | 0 <= i < j < |r[1..]|
          ensures !Before(key(r[1..][j]), key(r[1..][i]), descending)
        {
          assert r[1..][i] == r[i + 1] && r[1..][j] == r[j + 1];
        }
      }
      InsertOrdered(x, r[1..], key, descending);
      forall j | 0 < j < |out|
        ensures !Before(key(out[j]), key(out[0]), descending)
      {
        var y := out[j];
        assert y in tail;
        if y == x {
          BeforeAsymmetric(key(r[0]), key(x), descending);
        } else {
          var k :| 0 <= k < |r[1..]| && r[1..][k] == y;
          assert r[k + 1] == y;
        }
      }
      assert forall i, j :: 0 < i < j < |out| ==> out[i] == tail[i - 1] && out[j] == tail[j - 1];
    }
  }

  /** Sorting by `key`, ascending, or descending when `descending` holds, keeping equal keys in input order. */
  function SortBy<T>(s: seq<T>, key: T -> Key, descending: bool): (r: seq<T>)
    ensures multiset(r) == multiset(s)
    ensures |r| == |s|
    ensures Ordered(r, key, descending)
    decreases |s|
  {
    if s == [] then []
    else
      var rest := SortBy(s[1..], key, descending);
      InsertOrdered(s[0], rest, key, descending);
      assert s == [s[0]] + s[1..];
      Insert(s[0], rest, key, descending)
  }

  /** The elements of `s` whose key is `k`, in their order in `s`. */
  function WithKey<T>(s: seq<T>, key: T -> Key, k: Key): seq<T>
    decreases |s|
  {
    if s == [] then [] else (if key(s[0]) == k then [s[0]] else []) + WithKey(s[1..], key, k)
  }

  lemma {:induction false} WithKeyInsert<T>(x: T, r: seq<T>, key: T -> Key, descending: bool, k: Key)
    ensures WithKey(Insert(x, r, key, descending), key, k)
         == (if key(x) == k then [x] else []) + WithKey(r, key, k)
    decreases |r|
  {
    var out := Insert(x, r, key, descending);
    if r == [] || !Before(key(r[0]), key(x), descending) {
      assert out[1..] == r;
    } else {
      var tail := Insert(x, r[1..], key, descending);
      assert out == [r[0]] + tail && out[1..] == tail;
      WithKeyInsert(x, r[1..], key, descending, k);
      BeforeIrreflexive(key(x), descending);
      assert key(r[0]) != key(x);
    }
  }

  /** Stability: among elements with equal keys the input order survives the sort. */
  lemma {:induction false} SortByStable<T>(s: seq<T>, key: T -> Key, descending: bool, k: Key)
    ensures WithKey(SortBy(s, key, descending), key, k) == WithKey(s, key, k)
    decreases |s|
  {
    if s != [] {
      SortByStable(s[1..], key, descending, k);
      WithKeyInsert(s[0], SortBy(s[1..], key, descending), key, descending, k);
    }
  }

  /** Sorting a list that is already in order leaves it as it is. */
  lemma {:induction false} SortByOrdered<T>(s: seq<T>, key: T -> Key, descending: bool)
    requires Ordered(s, key, descending)
    ensures SortBy(s, key, descending) == s
    decreases |s|
  {
    if s != [] {
      assert Ordered(s[1..], key, descending) by {
        forall i, j | 0 <= i < j < |s[1..]|
          ensures !Before(key(s[1..][j]), key(s[1..][i]), descending)
        {
          assert s[1..][i] == s[i + 1] && s[1..][j] == s[j + 1];
        }
      }
      SortByOrdered(s[1..], key, descending);
      assert s == [s[0]] + s[1..];
      if |s| > 1 {
        assert !Before(key(s[1]), key(s[0]), descending);
      }
    }
  }

  /** A second sort by the same key and direction changes nothing. */
  lemma SortByIdempotent<T>(s: seq<T>, key: T -> Key, descending: bool)
    ensures SortBy(SortBy(s, key, descending), key, descending) == SortBy(s, key, descending)
  {
    SortByOrdered(SortBy(s, key, descending), key, descending);
  }
}
