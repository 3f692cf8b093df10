/** Go's stable sort over an arbitrary comparison. */
module Sorting {

  /** lt is a strict weak order: incomparable elements tie. */
  ghost predicate StrictWeak<T(!new)>(lt: (T, T) -> bool) {
    && (forall x :: !lt(x, x))
    && (forall x, y, z :: lt(x, y) && lt(y, z) ==> lt(x, z))
    && (forall x, y, z :: lt(x, z) ==> lt(x, y) || lt(y, z))
  }

  ghost predicate Ascending<T(!new)>(s: seq<T>, lt: (T, T) -> bool) {
    forall i, j :: 0 <= i < j < |s| ==> lt(s[i], s[j])
  }

  ghost predicate NoInversion<T(!new)>(s: seq<T>, lt: (T, T) -> bool) {
    forall i, j :: 0 <= i < j < |s| ==> !lt(s[j], s[i])
  }

  /** Order by lt, and among ties by tie. */
  function Then<T>(lt: (T, T) -> bool, tie: (T, T) -> bool): (T, T) -> bool {
    (a, b) => lt(a, b) || (!lt(b, a) && tie(a, b))
  }

  /** Insertion of one element behind everything it ties with. */
  function Insert<T>(x: T, s: seq<T>, lt: (T, T) -> bool): seq<T> {
    if s == [] || lt(x, s[0]) then [x] + s else [s[0]] + Insert(x, s[1..], lt)
  }

  /** sort.SliceStable, slices.SortStableFunc */
  function StableSort<T>(s: seq<T>, lt: (T, T) -> bool): seq<T> {
    if s == [] then [] else Insert(s[|s| - 1], StableSort(s[..|s| - 1], lt), lt)
  }

  lemma {:induction false} InsertMembers<T>(x: T, s: seq<T>, lt: (T, T) -> bool)
    ensures multiset(Insert(x, s, lt)) == multiset(s) + multiset{x}
    ensures |Insert(x, s, lt)| == |s| + 1
    ensures forall y :: y in Insert(x, s, lt) <==> y in s || y == x
  {
    if s == [] || lt(x, s[0]) {
    } else {
      InsertMembers(x, s[1..], lt);
      assert s == [s[0]] + s[1..];
    }
  }

  lemma {:induction false} StableSortMembers<T>(s: seq<T>, lt: (T, T) -> bool)
    ensures multiset(StableSort(s, lt)) == multiset(s) && |StableSort(s, lt)| == |s|
    ensures forall y :: y in StableSort(s, lt) <==> y in s
  {
    if s != [] {
      var p := s[..|s| - 1];
      StableSortMembers(p, lt);
      InsertMembers(s[|s| - 1], StableSort(p, lt), lt);
      assert s == p + [s[|s| - 1]];
    }
  }

  lemma {:induction false} InsertSorts<T(!new)>(x: T, s: seq<T>, lt: (T, T) -> bool, tie: (T, T) -> bool)
    requires StrictWeak(lt) && Ascending(s, Then(lt, tie))
    requires forall y :: y in s ==> tie(y, x)
    ensures Ascending(Insert(x, s, lt), Then(lt, tie))
  {
    if s == [] {
    } else if lt(x, s[0]) {
      forall j | 0 <= j < |s| ensures lt(x, s[j]) {
        assert j > 0 ==> Then(lt, tie)(s[0], s[j]);
      }
    } else {
      InsertSorts(x, s[1..], lt, tie);
      InsertMembers(x, s[1..], lt);
      var r := Insert(x, s[1..], lt);
      forall j | 0 <= j < |r| ensures Then(lt, tie)(s[0], r[j]) {
        assert r[j] in r;
      }
    }
  }

  /** The result is in order, and rows that tie keep their order. */
  lemma {:induction false} StableSortSorts<T(!new)>(s: seq<T>, lt: (T, T) -> bool, tie: (T, T) -> bool)
    requires StrictWeak(lt) && Ascending(s, tie)
    ensures Ascending(StableSort(s, lt), Then(lt, tie))
  {
    if s != [] {
      var p := s[..|s| - 1];
      StableSortSorts(p, lt, tie);
      StableSortMembers(p, lt);
      InsertSorts(s[|s| - 1], StableSort(p, lt), lt, tie);
    }
  }

  lemma {:induction false} InsertLast<T(!new)>(x: T, s: seq<T>, lt: (T, T) -> bool)
    requires forall y :: y in s ==> !lt(x, y)
    ensures Insert(x, s, lt) == s + [x]
  {
    if s != [] {
      InsertLast(x, s[1..], lt);
    }
  }

  /** What is in order already is left as it is. */
  lemma {:induction false} StableSortFixed<T(!new)>(s: seq<T>, lt: (T, T) -> bool)
    requires NoInversion(s, lt)
    ensures StableSort(s, lt) == s
  {
    if s != [] {
      var p := s[..|s| - 1];
      StableSortFixed(p, lt);
      InsertLast(s[|s| - 1], p, lt);
      assert s == p + [s[|s| - 1]];
    }
  }
}
