/**
 * Python's `sorted(xs, key=..., reverse=...)` and `list.sort(...)`: a stable
 * sort by a key, ascending or descending. With `reverse=True` Python still
 * keeps elements with equal keys in their input order, so a descending sort
 * here is "greater key first, ties in input order", not a reversed ascending
 * sort.
 *
 * The sort is defined as insertion of each element, in input order, into the
 * sorted prefix. The lemmas prove that the result is ordered, a permutation
 * of the input and stable, and that sorting again after each append (as the
 * room view does) gives the same list as one sort of the whole input.
 */
module StableSort {
  import opened Values

  /** The sort keys the views use: integers and strings. */
  datatype Key = Num(n: int) | Text(s: string)

  datatype Direction = Ascending | Descending

  /**
   * Python's `<` on keys. Every sort in the views uses keys of one kind, so
   * the order between an integer and a string (a TypeError in Python) is
   * never consulted; it is fixed here only to make the order total.
   */
  predicate KeyLess(a: Key, b: Key) {
    match a
    case Num(x) => b.Text? || x < b.n
    case Text(x) => b.Text? && TextLess(x, b.s)
  }

  /** `a` must come strictly before `b` in a list sorted in direction `dir`. */
  predicate Precedes(a: Key, b: Key, dir: Direction) {
    if dir == Ascending then KeyLess(a, b) else KeyLess(b, a)
  }

  lemma PrecedesIrreflexive(a: Key, dir: Direction)
    ensures !Precedes(a, a, dir)
  {
    if a.Text? {
      TextLessIrreflexive(a.s);
    }
  }

  lemma PrecedesTransitive(a: Key, b: Key, c: Key, dir: Direction)
    requires Precedes(a, b, dir) && Precedes(b, c, dir)
    ensures Precedes(a, c, dir)
  {
    if a.Text? && b.Text? && c.Text? {
      if dir == Ascending {
        TextLessTransitive(a.s, b.s, c.s);
      } else {
        TextLessTransitive(c.s, b.s, a.s);
      }
    }
  }

  lemma PrecedesTotal(a: Key, b: Key, dir: Direction)
    requires a != b
    ensures Precedes(a, b, dir) || Precedes(b, a, dir)
  {
    if a.Text? && b.Text? {
      TextLessTotal(a.s, b.s);
    }
  }

  /** No element is preceded by an element that comes after it. */
  predicate Sorted<T>(s: seq<T>, key: T -> Key, dir: Direction) {
    forall i, j :: 0 <= i < j < |s| ==> !Precedes(key(s[j]), key(s[i]), dir)
  }

  /** The elements of `s` whose key is `k`, in their order in `s`. */
  function WithKey<T>(s: seq<T>, key: T -> Key, k: Key): seq<T> {
    if s == [] then []
    else (if key(s[0]) == k then [s[0]] else []) + WithKey(s[1..], key, k)
  }

  /** Inserts `x` after every element it does not strictly precede. */
  function Insert<T>(ys: seq<T>, x: T, key: T -> Key, dir: Direction): (r: seq<T>)
    ensures |r| == |ys| + 1
  {
    if ys == [] then [x]
    else if Precedes(key(x), key(ys[0]), dir) then [x] + ys
    else [ys[0]] + Insert(ys[1..], x, key, dir)
  }

  /** The stable sort: each element inserted, in input order, into the sorted prefix. */
  function Sort<T>(xs: seq<T>, key: T -> Key, dir: Direction): (r: seq<T>)
    ensures |r| == |xs|
  {
    if xs == [] then [] else Insert(Sort(xs[..|xs| - 1], key, dir), xs[|xs| - 1], key, dir)
  }

  // ---------------------------------------------------------------------
  // Permutation

  lemma {:induction false} InsertPermutation<T>(ys: seq<T>, x: T, key: T -> Key, dir: Direction)
    ensures multiset(Insert(ys, x, key, dir)) == multiset(ys) + multiset{x}
  {
    if ys == [] {
    } else if Precedes(key(x), key(ys[0]), dir) {
      assert Insert(ys, x, key, dir) == [x] + ys;
    } else {
      InsertPermutation(ys[1..], x, key, dir);
      assert Insert(ys, x, key, dir) == [ys[0]] + Insert(ys[1..], x, key, dir);
      assert ys == [ys[0]] + ys[1..];
    }
  }

  /** The sorted list holds exactly the input's elements, as often as the input does. */
  lemma {:induction false} SortPermutation<T>(xs: seq<T>, key: T -> Key, dir: Direction)
    ensures multiset(Sort(xs, key, dir)) == multiset(xs)
  {
    if xs != [] {
      var init, last := xs[..|xs| - 1], xs[|xs| - 1];
      SortPermutation(init, key, dir);
      InsertPermutation(Sort(init, key, dir), last, key, dir);
      assert xs == init + [last];
    }
  }

  // ---------------------------------------------------------------------
  // Order

  lemma {:induction false} InsertSorted<T>(ys: seq<T>, x: T, key: T -> Key, dir: Direction)
    requires Sorted(ys, key, dir)
    ensures Sorted(Insert(ys, x, key, dir), key, dir)
  {
    var r := Insert(ys, x, key, dir);
    if ys == [] {
    } else if Precedes(key(x), key(ys[0]), dir) {
      forall j | 1 <= j < |r|
        ensures !Precedes(key(r[j]), key(x), dir)
      {
        if Precedes(key(r[j]), key(x), dir) {
          PrecedesTransitive(key(r[j]), key(x), key(ys[0]), dir);
          if j == 1 {
            PrecedesIrreflexive(key(ys[0]), dir);
          }
          assert false;
        }
      }
    } else {
      var tail := Insert(ys[1..], x, key, dir);
      InsertSorted(ys[1..], x, key, dir);
      InsertPermutation(ys[1..], x, key, dir);
      forall j | 0 <= j < |tail|
        ensures !Precedes(key(tail[j]), key(ys[0]), dir)
      {
        assert tail[j] in multiset(tail);
        if tail[j] != x {
          assert tail[j] in multiset(ys[1..]);
          var m :| 0 <= m < |ys[1..]| && ys[1..][m] == tail[j];
          assert ys[m + 1] == tail[j];
        }
      }
      assert r == [ys[0]] + tail;
    }
  }

  /** The result of the sort is ordered by key in the requested direction. */
  lemma {:induction false} SortSorted<T>(xs: seq<T>, key: T -> Key, dir: Direction)
    ensures Sorted(Sort(xs, key, dir), key, dir)
  {
    if xs != [] {
      SortSorted(xs[..|xs| - 1], key, dir);
      InsertSorted(Sort(xs[..|xs| - 1], key, dir), xs[|xs| - 1], key, dir);
    }
  }

  // ---------------------------------------------------------------------
  // Stability

  lemma {:induction false} WithKeyAppend<T>(a: seq<T>, b: seq<T>, key: T -> Key, k: Key)
    ensures WithKey(a + b, key, k) == WithKey(a, key, k) + WithKey(b, key, k)
  {
    if a != [] {
      WithKeyAppend(a[1..], b, key, k);
      assert (a + b)[1..] == a[1..] + b;
    } else {
      assert a + b == b;
    }
  }

  lemma {:induction false} WithKeyNone<T>(s: seq<T>, key: T -> Key, k: Key)
    requires forall i :: 0 <= i < |s| ==> key(s[i]) != k
    ensures WithKey(s, key, k) == []
  {
    if s != [] {
      WithKeyNone(s[1..], key, k);
    }
  }

  /** The tail of a sorted list is sorted. */
  lemma SortedTail<T>(ys: seq<T>, key: T -> Key, dir: Direction)
    requires ys != [] && Sorted(ys, key, dir)
    ensures Sorted(ys[1..], key, dir)
  {
    forall i, j | 0 <= i < j < |ys| - 1
      ensures !Precedes(key(ys[1..][j]), key(ys[1..][i]), dir)
    {
      assert ys[1..][j] == ys[j + 1] && ys[1..][i] == ys[i + 1];
    }
  }

  /** Nothing in a sorted list has the key of an element that precedes its head. */
  lemma PrecededKeyAbsent<T>(ys: seq<T>, kx: Key, key: T -> Key, dir: Direction)
    requires ys != [] && Sorted(ys, key, dir) && Precedes(kx, key(ys[0]), dir)
    ensures WithKey(ys, key, kx) == []
  {
    forall i | 0 <= i < |ys|
      ensures key(ys[i]) != kx
    {
      if key(ys[i]) == kx {
        if i == 0 {
          PrecedesIrreflexive(kx, dir);
        }
        assert false;
      }
    }
    WithKeyNone(ys, key, kx);
  }

  lemma {:induction false} InsertStable<T>(ys: seq<T>, x: T, key: T -> Key, dir: Direction, k: Key)
    requires Sorted(ys, key, dir)
    ensures WithKey(Insert(ys, x, key, dir), key, k)
         == WithKey(ys, key, k) + (if key(x) == k then [x] else [])
  {
    if ys == [] {
    } else if Precedes(key(x), key(ys[0]), dir) {
      var r := [x] + ys;
      assert Insert(ys, x, key, dir) == r;
      assert r[0] == x && r[1..] == ys;
      assert WithKey(r, key, k) == (if key(x) == k then [x] else []) + WithKey(ys, key, k);
      if key(x) == k {
        PrecededKeyAbsent(ys, k, key, dir);
      }
    } else {
      var tail := Insert(ys[1..], x, key, dir);
      SortedTail(ys, key, dir);
      InsertStable(ys[1..], x, key, dir, k);
      var head := if key(ys[0]) == k then [ys[0]] else [];
      assert WithKey(ys, key, k) == head + WithKey(ys[1..], key, k);
      assert ([ys[0]] + tail)[0] == ys[0] && ([ys[0]] + tail)[1..] == tail;
      assert WithKey([ys[0]] + tail, key, k) == head + WithKey(tail, key, k);
    }
  }

  /** Elements with equal keys keep their input order. */
  lemma {:induction false} SortStable<T>(xs: seq<T>, key: T -> Key, dir: Direction, k: Key)
    ensures WithKey(Sort(xs, key, dir), key, k) == WithKey(xs, key, k)
  {
    if xs != [] {
      var init, last := xs[..|xs| - 1], xs[|xs| - 1];
      SortStable(init, key, dir, k);
      SortSorted(init, key, dir);
      InsertStable(Sort(init, key, dir), last, key, dir, k);
      WithKeyAppend(init, [last], key, k);
      assert xs == init + [last];
    }
  }

  // ---------------------------------------------------------------------
  // Sorting an already sorted list, and sorting after each append

  lemma {:induction false} InsertLast<T>(ys: seq<T>, x: T, key: T -> Key, dir: Direction)
    requires forall i :: 0 <= i < |ys| ==> !Precedes(key(x), key(ys[i]), dir)
    ensures Insert(ys, x, key, dir) == ys + [x]
  {
    if ys != [] {
      InsertLast(ys[1..], x, key, dir);
      assert ys == [ys[0]] + ys[1..];
    }
  }

  /** Sorting a list that is already sorted leaves it as it is. */
  lemma {:induction false} SortOfSorted<T>(xs: seq<T>, key: T -> Key, dir: Direction)
    requires Sorted(xs, key, dir)
    ensures Sort(xs, key, dir) == xs
  {
    if xs != [] {
      var init, last := xs[..|xs| - 1], xs[|xs| - 1];
      SortOfSorted(init, key, dir);
      InsertLast(init, last, key, dir);
      assert xs == init + [last];
    }
  }

  /**
   * Appending one element to a sorted list and sorting again gives the same
   * list as sorting the whole input once: re-sorting after every append, as
   * the room view does, is one stable sort of everything appended.
   */
  lemma SortAfterAppend<T>(xs: seq<T>, x: T, key: T -> Key, dir: Direction)
    ensures Sort(Sort(xs, key, dir) + [x], key, dir) == Sort(xs + [x], key, dir)
  {
    var s := Sort(xs, key, dir);
    SortSorted(xs, key, dir);
    SortOfSorted(s, key, dir);
    assert (s + [x])[..|s + [x]| - 1] == s;
    assert (xs + [x])[..|xs + [x]| - 1] == xs;
  }
}
