/** The contract of Go's `sort.Slice`: the result is ordered and a permutation of
    the input, and nothing is promised about the order of equal elements. */
module GoSort {

  /** `less` is a strict weak order, as `sort.Slice` demands of its callback. */
  ghost predicate StrictWeakOrder<T(!new)>(less: (T, T) -> bool) {
    && (forall x, y :: less(x, y) ==> !less(y, x))
    && (forall x, y, z :: !less(y, x) && !less(z, y) ==> !less(z, x))
  }

  ghost predicate Ordered<T>(less: (T, T) -> bool, s: seq<T>) {
    forall i, j :: 0 <= i < j < |s| ==> !less(s[j], s[i])
  }

  ghost predicate SortOf<T>(less: (T, T) -> bool, sorted: seq<T>, s: seq<T>) {
    Ordered(less, sorted) && multiset(sorted) == multiset(s)
  }

  /** Puts `x` before every element it does not exceed. */
  function Insert<T>(less: (T, T) -> bool, x: T, s: seq<T>): (r: seq<T>)
    ensures multiset(r) == multiset([x]) + multiset(s)
  {
    if s == [] || !less(s[0], x) then [x] + s
    else
      assert s == [s[0]] + s[1..];
      [s[0]] + Insert(less, x, s[1..])
  }

  lemma {:induction false} InsertOrdered<T(!new)>(less: (T, T) -> bool, x: T, s: seq<T>)
    requires StrictWeakOrder(less) && Ordered(less, s)
    ensures Ordered(less, Insert(less, x, s))
  {
    if s != [] && less(s[0], x) {
      InsertOrdered(less, x, s[1..]);
      var r := Insert(less, x, s[1..]);
      forall y | y in r ensures !less(y, s[0]) {
        assert y in multiset(r);
        assert y == x || y in s[1..];
      }
    }
  }

  function InsertionSort<T>(less: (T, T) -> bool, s: seq<T>): seq<T> {
    if s == [] then [] else Insert(less, s[0], InsertionSort(less, s[1..]))
  }

  lemma {:induction false} InsertionSortSorts<T(!new)>(less: (T, T) -> bool, s: seq<T>)
    requires StrictWeakOrder(less)
    ensures SortOf(less, InsertionSort(less, s), s)
  {
    if s != [] {
      InsertionSortSorts(less, s[1..]);
      InsertOrdered(less, s[0], InsertionSort(less, s[1..]));
      assert s == [s[0]] + s[1..];
    }
  }

  /** Callers learn only that the result is some sorted permutation. */
  method SortSlice<T(!new)>(less: (T, T) -> bool, s: seq<T>) returns (sorted: seq<T>)
    requires StrictWeakOrder(less)
    ensures SortOf(less, sorted, s)
  {
    InsertionSortSorts(less, s);
    sorted := InsertionSort(less, s);
  }
}
