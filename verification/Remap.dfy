/** Moving reading progress to the pages of a file whose pages were split. */
module Remap {

  /** The original pages, counted from zero, that the new pages show: never going back. */
  ghost predicate InOrder(pages: seq<int>) {
    forall i, j :: 0 <= i <= j < |pages| ==> pages[i] <= pages[j]
  }

  /** The first place that shows the source page or a later one, or the end. */
  function FirstAtLeast(pages: seq<int>, source: int): (i: nat)
    ensures i <= |pages|
    ensures forall k :: 0 <= k < i ==> pages[k] < source
    ensures i < |pages| ==> pages[i] >= source
  {
    if pages == [] || pages[0] >= source then 0 else 1 + FirstAtLeast(pages[1..], source)
  }

  /** remapPage */
  function Remapped(page: int, completed: bool, pages: seq<int>): int {
    if page <= 0 || pages == [] then page
    else if completed then |pages|
    else
      var i := FirstAtLeast(pages, page - 1);
      if i < |pages| then i + 1 else |pages|
  }

  method RemapPage(page: int, completed: bool, pages: seq<int>) returns (r: int)
    ensures r == Remapped(page, completed, pages)
  {
    if page <= 0 || |pages| == 0 {
      return page;
    }
    if completed {
      return |pages|;
    }
    var source := page - 1;
    for i := 0 to |pages|
      invariant forall k :: 0 <= k < i ==> pages[k] < source
    {
      if pages[i] >= source {
        return i + 1;
      }
    }
    r := |pages|;
  }

  /** A reader's state in the chapter. */
  datatype ReadState = ReadState(page: int, completed: bool)

  /** The import's loop over the states: only rows whose page moves are written. */
  method RemapStates(states: seq<ReadState>, pages: seq<int>) returns (after: seq<ReadState>, written: set<nat>)
    ensures |after| == |states|
    ensures forall i :: 0 <= i < |states| ==> after[i] == states[i].(page := Remapped(states[i].page, states[i].completed, pages))
    ensures forall i :: i in written <==> 0 <= i < |states| && after[i] != states[i]
  {
    after, written := states, {};
    for i := 0 to |states|
      invariant |after| == |states|
      invariant forall k :: 0 <= k < i ==> after[k] == states[k].(page := Remapped(states[k].page, states[k].completed, pages))
      invariant forall k :: i <= k < |states| ==> after[k] == states[k]
      invariant forall k :: k in written <==> 0 <= k < i && after[k] != states[k]
    {
      var page := RemapPage(states[i].page, states[i].completed, pages);
      if page != states[i].page {
        after := after[i := states[i].(page := page)];
        written := written + {i};
      }
    }
  }

  // ---- one split --------------------------------------------------------------------------

  /** Progress that had begun stays within the new file. */
  lemma StaysInRange(page: int, completed: bool, pages: seq<int>)
    requires page > 0 && pages != []
    ensures 1 <= Remapped(page, completed, pages) <= |pages|
  {
  }

  /**
   Progress moves to a page exactly when that is the same, if it had not begun or there are no pages; the last, if it is
   done or past all that is left; and else the first that shows the page or a later one.
   */
  lemma RemapsExactly(page: int, completed: bool, pages: seq<int>, to: int)
    ensures Remapped(page, completed, pages) == to <==>
      if page <= 0 || pages == [] then to == page
      else if completed || forall k :: 0 <= k < |pages| ==> pages[k] < page - 1 then to == |pages|
      else 1 <= to <= |pages| && pages[to - 1] >= page - 1 && forall k :: 0 <= k < to - 1 ==> pages[k] < page - 1
  {
    var i := FirstAtLeast(pages, page - 1);
    if 1 <= to <= |pages| && pages[to - 1] >= page - 1 && forall k :: 0 <= k < to - 1 ==> pages[k] < page - 1 {
      FirstUnique(pages, page - 1, to - 1);
    }
  }

  /** The page is past all that the new pages show but the last. */
  predicate PastAllButLast(page: int, pages: seq<int>) {
    forall k :: 0 <= k < |pages| - 1 ==> pages[k] < page - 1
  }

  /**
   A reader further on is not moved before one further back, with one exception: a finished reader is moved to
   the last page, past an unfinished one who was further on and does not land there too.
   */
  lemma IsMonotone(a: int, b: int, finishedA: bool, finishedB: bool, pages: seq<int>)
    requires a <= b && InOrder(pages)
    ensures Remapped(a, finishedA, pages) <= Remapped(b, finishedB, pages) <==>
      (finishedA ==> finishedB || a <= 0 || pages == [] || PastAllButLast(b, pages))
  {
    if a > 0 && pages != [] && finishedA && !finishedB {
      var i := FirstAtLeast(pages, b - 1);
      if i < |pages| - 1 {
        assert pages[i] >= b - 1;
      }
    }
  }

  /** In-progress readers land on the first segment of their page, or of the next that is left. */
  lemma LandsOnFirstSegment(page: int, pages: seq<int>)
    requires page > 0 && InOrder(pages)
    requires exists k :: 0 <= k < |pages| && pages[k] >= page - 1
    ensures var r := Remapped(page, false, pages);
      && 1 <= r <= |pages| && pages[r - 1] >= page - 1
      && (forall k :: 0 <= k < r - 1 ==> pages[k] < page - 1)
      && (forall k :: 0 <= k < |pages| && pages[k] >= page - 1 ==> pages[r - 1] <= pages[k])
      && (page - 1 in pages ==> pages[r - 1] == page - 1)
  {
  }

  // ---- two splits ---------------------------------------------------------------------------

  /** The pages of the first map that the second still shows. */
  function Composed(first: seq<int>, second: seq<int>): (r: seq<int>)
    requires forall j :: 0 <= j < |second| ==> 0 <= second[j] < |first|
    ensures |r| == |second| && forall j :: 0 <= j < |r| ==> r[j] == first[second[j]]
  {
    seq(|second|, j requires 0 <= j < |second| => first[second[j]])
  }

  lemma FirstUnique(pages: seq<int>, source: int, i: nat)
    requires i <= |pages| && (forall k :: 0 <= k < i ==> pages[k] < source) && (i < |pages| ==> pages[i] >= source)
    ensures FirstAtLeast(pages, source) == i
  {
  }

  /** A page that the first split still shows, or that comes before one it shows, moves twice as it moves once. */
  lemma TwoSplitsWithin(page: int, first: seq<int>, second: seq<int>)
    requires InOrder(first) && InOrder(second) && first != [] && second != []
    requires forall j :: 0 <= j < |second| ==> 0 <= second[j] < |first|
    requires 0 < page <= first[|first| - 1] + 1
    ensures Remapped(Remapped(page, false, first), false, second) == Remapped(page, false, Composed(first, second))
  {
    var i := FirstAtLeast(first, page - 1);
    var j := FirstAtLeast(second, i);
    forall k | 0 <= k < |second| ensures second[k] >= i <==> first[second[k]] >= page - 1 {
    }
    FirstUnique(Composed(first, second), page - 1, j);
  }

  /** The last page of the first split is shown only at the end, if at all. */
  predicate LastOnlyAtEnd(first: seq<int>, second: seq<int>) {
    forall j :: 0 <= j < |second| - 1 ==> second[j] < |first| - 1
  }

  /**
   In-progress remapping composes exactly when the page is at most one past the first map's last entry, or
   the second split left the first's last page whole.
   */
  lemma TwoSplitsExactly(page: int, first: seq<int>, second: seq<int>)
    requires InOrder(first) && InOrder(second) && first != [] && second != []
    requires forall j :: 0 <= j < |second| ==> 0 <= second[j] < |first|
    requires page > 0
    ensures Remapped(Remapped(page, false, first), false, second) == Remapped(page, false, Composed(first, second)) <==>
      page <= first[|first| - 1] + 1 || LastOnlyAtEnd(first, second)
  {
    if page <= first[|first| - 1] + 1 {
      TwoSplitsWithin(page, first, second);
    } else {
      assert Remapped(page, false, first) == |first|;
      FirstUnique(Composed(first, second), page - 1, |second|);
      var j := FirstAtLeast(second, |first| - 1);
      if j < |second| - 1 {
        assert second[j] >= |first| - 1;
      }
    }
  }

  /** Finished readers are at the last page after any splits. */
  lemma CompletedStaysLast(page: int, first: seq<int>, second: seq<int>)
    requires page > 0 && first != [] && second != []
    requires forall j :: 0 <= j < |second| ==> 0 <= second[j] < |first|
    ensures Remapped(Remapped(page, true, first), true, second) == Remapped(page, true, Composed(first, second)) == |second|
  {
  }

  /** A page after all that the first map shows, whose last page is split again: in two steps it is page 1, in one page 2. */
  lemma TwoSplitsDiffer()
    ensures InOrder([0]) && InOrder([0, 0])
    ensures Remapped(Remapped(3, false, [0]), false, [0, 0]) == 1 && Remapped(3, false, Composed([0], [0, 0])) == 2
  {
    assert FirstAtLeast([0], 2) == 1;
    assert FirstAtLeast([0, 0], 0) == 0;
    FirstUnique(Composed([0], [0, 0]), 2, 2);
  }
}
