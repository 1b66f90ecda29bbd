/**
 * `sorted(xs, key=key, reverse=True)`: a stable sort by non-increasing key,
 * modelled as an insertion sort. The report sorts code smells by severity.
 */
module StableSort {

  /** The key never increases along the sequence. */
  predicate SortedDesc<T>(s: seq<T>, key: T -> int) {
    forall i, j :: 0 <= i < j < |s| ==> key(s[i]) >= key(s[j])
  }

  /** The elements whose key is `k`, in their order in `s`. */
  function WithKey<T>(s: seq<T>, key: T -> int, k: int): seq<T> {
    if s == [] then []
    else (if key(s[0]) == k then [s[0]] else []) + WithKey(s[1..], key, k)
  }

  /**
   * Places `x` in front of the first element whose key is not larger, so
   * `x` precedes every element of equal key already in `s`.
   */
  function Insert<T>(x: T, s: seq<T>, key: T -> int): (r: seq<T>)
    ensures |r| == |s| + 1
    ensures r[0] == x || (s != [] && r[0] == s[0])
  {
    if s == [] then [x]
    else if key(s[0]) > key(x) then [s[0]] + Insert(x, s[1..], key)
    else [x] + s
  }

  /** Inserting adds exactly `x`. */
  lemma {:induction false} InsertPermutes<T>(x: T, s: seq<T>, key: T -> int)
    ensures multiset(Insert(x, s, key)) == multiset(s) + multiset{x}
  {
    if s != [] && key(s[0]) > key(x) {
      InsertPermutes(x, s[1..], key);
      assert s == [s[0]] + s[1..];
    }
  }

  /** An element no smaller than the head of a sorted sequence extends it. */
  lemma ConsSorted<T>(y: T, rest: seq<T>, key: T -> int)
    requires SortedDesc(rest, key)
    requires rest != [] ==> key(y) >= key(rest[0])
    ensures SortedDesc([y] + rest, key)
  {
    var r := [y] + rest;
    forall i, j | 0 <= i < j < |r| ensures key(r[i]) >= key(r[j]) {
      if i == 0 {
        assert r[j] == rest[j - 1];
      } else {
        assert r[i] == rest[i - 1] && r[j] == rest[j - 1];
      }
    }
  }

  /** Inserting into a sorted sequence keeps it sorted. */
  lemma {:induction false} InsertKeepsSorted<T>(x: T, s: seq<T>, key: T -> int)
    requires SortedDesc(s, key)
    ensures SortedDesc(Insert(x, s, key), key)
  {
    if s != [] && key(s[0]) > key(x) {
      assert SortedDesc(s[1..], key) by {
        forall i, j | 0 <= i < j < |s[1..]| ensures key(s[1..][i]) >= key(s[1..][j]) {
          assert s[1..][i] == s[i + 1] && s[1..][j] == s[j + 1];
        }
      }
      assert |s| > 1 ==> key(s[0]) >= key(s[1]);
      InsertKeepsSorted(x, s[1..], key);
      ConsSorted(s[0], Insert(x, s[1..], key), key);
    } else {
      ConsSorted(x, s, key);
    }
  }

  /** The sort: each element inserted in front of the equal-key elements that follow it. */
  function SortDesc<T>(s: seq<T>, key: T -> int): (r: seq<T>)
    ensures |r| == |s|
  {
    if s == [] then [] else Insert(s[0], SortDesc(s[1..], key), key)
  }

  /** The sorted list is a permutation of the input. */
  lemma {:induction false} SortPermutes<T>(s: seq<T>, key: T -> int)
    ensures multiset(SortDesc(s, key)) == multiset(s)
  {
    if s != [] {
      SortPermutes(s[1..], key);
      InsertPermutes(s[0], SortDesc(s[1..], key), key);
      assert s == [s[0]] + s[1..];
    }
  }

  /** The sorted list has non-increasing keys. */
  lemma {:induction false} SortIsSorted<T>(s: seq<T>, key: T -> int)
    ensures SortedDesc(SortDesc(s, key), key)
  {
    if s != [] {
      SortIsSorted(s[1..], key);
      InsertKeepsSorted(s[0], SortDesc(s[1..], key), key);
    }
  }

  /** Unfolding WithKey once on a sequence with a known first element. */
  lemma WithKeyCons<T>(y: T, rest: seq<T>, key: T -> int, k: int)
    ensures WithKey([y] + rest, key, k) == (if key(y) == k then [y] else []) + WithKey(rest, key, k)
  {
    assert ([y] + rest)[1..] == rest;
  }

  /** Inserting `x` adds it at the front of its own key class and changes no other class. */
  lemma {:induction false} InsertIntoClass<T>(x: T, s: seq<T>, key: T -> int, k: int)
    ensures WithKey(Insert(x, s, key), key, k) == (if key(x) == k then [x] else []) + WithKey(s, key, k)
  {
    if s != [] && key(s[0]) > key(x) {
      var rest := Insert(x, s[1..], key);
      assert Insert(x, s, key) == [s[0]] + rest;
      assert s == [s[0]] + s[1..];
      InsertIntoClass(x, s[1..], key, k);
      if key(x) == k {
        WithKeyConsOther(s[0], rest, key, k);
        WithKeyConsOther(s[0], s[1..], key, k);
      } else {
        WithKeyCons(s[0], rest, key, k);
        WithKeyCons(s[0], s[1..], key, k);
        assert WithKey(rest, key, k) == WithKey(s[1..], key, k);
      }
    } else {
      assert Insert(x, s, key) == [x] + s;
      WithKeyCons(x, s, key, k);
    }
  }

  /** Stability: within every key class the sorted list keeps the input order. */
  lemma {:induction false} SortIsStable<T>(s: seq<T>, key: T -> int, k: int)
    ensures WithKey(SortDesc(s, key), key, k) == WithKey(s, key, k)
  {
    if s != [] {
      SortIsStable(s[1..], key, k);
      InsertIntoClass(s[0], SortDesc(s[1..], key), key, k);
    }
  }

  /** A class no element belongs to is empty. */
  lemma {:induction false} WithKeyEmpty<T>(s: seq<T>, key: T -> int, k: int)
    requires forall x :: x in s ==> key(x) != k
    ensures WithKey(s, key, k) == []
  {
    if s != [] {
      assert forall x :: x in s[1..] ==> x in s;
      WithKeyEmpty(s[1..], key, k);
    }
  }

  /** The classes of keys `k`, `k - 1`, ..., 0, one after the other. */
  function ClassesFrom<T>(s: seq<T>, key: T -> int, k: int): seq<T>
    decreases k
  {
    if k < 0 then [] else WithKey(s, key, k) + ClassesFrom(s, key, k - 1)
  }

  /** The four classes of keys 3, 2, 1 and 0, one after the other. */
  function Classes<T>(s: seq<T>, key: T -> int): seq<T> {
    ClassesFrom(s, key, 3)
  }

  /** Unfolding WithKey once when the first element is outside the class. */
  lemma WithKeyConsOther<T>(y: T, rest: seq<T>, key: T -> int, k: int)
    requires key(y) != k
    ensures WithKey([y] + rest, key, k) == WithKey(rest, key, k)
  {
    WithKeyCons(y, rest, key, k);
  }

  /** Classes below the first element's key do not see it. */
  lemma {:induction false} ClassesFromOther<T>(y: T, rest: seq<T>, key: T -> int, k: int)
    requires k < key(y)
    ensures ClassesFrom([y] + rest, key, k) == ClassesFrom(rest, key, k)
    decreases k
  {
    if k >= 0 {
      WithKeyConsOther(y, rest, key, k);
      ClassesFromOther(y, rest, key, k - 1);
    }
  }

  /** Prepending commutes with appending. */
  lemma ConsAppend<T>(y: T, a: seq<T>, b: seq<T>)
    ensures ([y] + a) + b == [y] + (a + b)
  {
  }

  /**
   * An element whose key is in 0..k and no smaller than any key that
   * follows goes to the front of the classes.
   */
  lemma {:induction false} ClassesFromCons<T>(y: T, rest: seq<T>, key: T -> int, k: int)
    requires 0 <= key(y) <= k
    requires forall x :: x in rest ==> key(x) <= key(y)
    ensures ClassesFrom([y] + rest, key, k) == [y] + ClassesFrom(rest, key, k)
    decreases k
  {
    var t := [y] + rest;
    if key(y) == k {
      assert ClassesFrom(t, key, k) == [y] + ClassesFrom(rest, key, k) by {
        WithKeyCons(y, rest, key, k);
        ClassesFromOther(y, rest, key, k - 1);
        ConsAppend(y, WithKey(rest, key, k), ClassesFrom(rest, key, k - 1));
      }
    } else {
      assert ClassesFrom(t, key, k) == [y] + ClassesFrom(rest, key, k) by {
        WithKeyConsOther(y, rest, key, k);
        WithKeyEmpty(rest, key, k);
        assert ClassesFrom(rest, key, k) == ClassesFrom(rest, key, k - 1);
        assert ClassesFrom(t, key, k) == ClassesFrom(t, key, k - 1);
        ClassesFromCons(y, rest, key, k - 1);
      }
    }
  }

  /** A sorted sequence's tail is sorted and has no key above the head's. */
  lemma SortedTail<T>(t: seq<T>, key: T -> int)
    requires t != [] && SortedDesc(t, key)
    ensures SortedDesc(t[1..], key)
    ensures forall x :: x in t[1..] ==> key(x) <= key(t[0])
  {
    forall x | x in t[1..] ensures key(x) <= key(t[0]) {
      var i :| 0 <= i < |t[1..]| && t[1..][i] == x;
      assert t[i + 1] == x;
    }
  }

  /**
   * For keys in 0..3, a sequence sorted by non-increasing key is its key-3
   * elements, then its key-2, key-1 and key-0 elements, each class in order.
   */
  lemma {:induction false} SortedIsClasses<T>(t: seq<T>, key: T -> int)
    requires forall x :: 0 <= key(x) <= 3
    requires SortedDesc(t, key)
    ensures t == Classes(t, key)
  {
    if t != [] {
      SortedTail(t, key);
      SortedIsClasses(t[1..], key);
      ClassesFromCons(t[0], t[1..], key, 3);
      assert t == [t[0]] + t[1..];
    }
  }

  /**
   * The sort as an independent definition: for keys in 0..3, the input's
   * key-3, key-2, key-1 and key-0 elements, each class in input order.
   */
  lemma SortIsClasses<T>(s: seq<T>, key: T -> int)
    requires forall x :: 0 <= key(x) <= 3
    ensures SortDesc(s, key) == Classes(s, key)
  {
    SortIsSorted(s, key);
    SortedIsClasses(SortDesc(s, key), key);
    SortIsStable(s, key, 3);
    SortIsStable(s, key, 2);
    SortIsStable(s, key, 1);
    SortIsStable(s, key, 0);
  }
}
