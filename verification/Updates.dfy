/** The updates feed: pages of a merge of two bounded queries, by offset or by cursor. */
module Updates {
  import opened Common
  import opened Sorting

  datatype Kind = SeriesAdded | ChapterSeen

  /** A visible row; id is the chapter's, or the least of the work's series. */
  datatype Row = Row(kind: Kind, at: int, id: nat, series: nat)

  /** seriesUpdateRank, chapterUpdateRank */
  function Rank(kind: Kind): int {
    match kind
    case SeriesAdded => 1
    case ChapterSeen => 2
  }

  /** updateRowAfter: newest first, chapters before series, higher ids first. */
  predicate Newer(a: Row, b: Row) {
    if a.at != b.at then a.at > b.at
    else if Rank(a.kind) != Rank(b.kind) then Rank(a.kind) > Rank(b.kind)
    else a.id > b.id
  }

  datatype Cursor = Cursor(at: int, kind: int, id: nat)

  function CursorOf(row: Row): Cursor { Cursor(row.at, Rank(row.kind), row.id) }

  /** The WHERE or HAVING clause of a query over one kind. */
  predicate Below(row: Row, rank: int, c: Cursor) {
    row.at < c.at || (row.at == c.at && (rank < c.kind || (rank == c.kind && row.id < c.id)))
  }

  predicate Passes(row: Row, cursor: Option<Cursor>) {
    cursor.None? || Below(row, Rank(row.kind), cursor.value)
  }

  function Matching(rows: seq<Row>, cursor: Option<Cursor>): seq<Row> {
    if rows == [] then [] else
      var n := |rows| - 1;
      var rest := Matching(rows[..n], cursor);
      if Passes(rows[n], cursor) then rest + [rows[n]] else rest
  }

  function Sorted(rows: seq<Row>): seq<Row> {
    StableSort(rows, Newer)
  }

  function Take(rows: seq<Row>, n: nat): seq<Row> {
    if n <= |rows| then rows[..n] else rows
  }

  /** SELECT ... ORDER BY at DESC, id DESC LIMIT n over one kind. */
  function Query(part: seq<Row>, cursor: Option<Cursor>, n: nat): seq<Row> {
    Top(Matching(part, cursor), n)
  }

  function Top(rows: seq<Row>, n: nat): seq<Row> {
    Take(Sorted(rows), n)
  }

  /** The rows visible to the viewer since the cutoff, by kind. */
  datatype Rows = Rows(chapters: seq<Row>, series: seq<Row>)

  /** Rows of one kind with ids that are keys of their table. */
  predicate TableOf(s: seq<Row>, kind: Kind) {
    s == [] ||
      (var n := |s| - 1;
       && TableOf(s[..n], kind) && s[n].kind == kind && s[n].id !in Ids(s[..n]))
  }

  function Ids(s: seq<Row>): set<nat> {
    set x | x in s :: x.id
  }

  type Feed = f: Rows | TableOf(f.chapters, ChapterSeen) && TableOf(f.series, SeriesAdded) witness Rows([], [])

  datatype Wanted = All | OnlyChapters | OnlySeries

  datatype Page = Page(rows: seq<Row>, total: nat, next: Option<Cursor>)

  function ChaptersWanted(feed: Feed, kind: Wanted): seq<Row> { if kind.OnlySeries? then [] else feed.chapters }
  function SeriesWanted(feed: Feed, kind: Wanted): seq<Row> { if kind.OnlyChapters? then [] else feed.series }

  /** The unpaged feed. */
  function Listing(feed: Feed, kind: Wanted): seq<Row> {
    Sorted(ChaptersWanted(feed, kind) + SeriesWanted(feed, kind))
  }

  method ListUpdates(feed: Feed, kind: Wanted, page: nat, pageSize: nat, cursor: Option<Cursor>) returns (r: Page)
    requires page >= 1 && pageSize >= 1
    ensures r == PageOf(feed, kind, page, pageSize, cursor)
  {
    var start := Start(page, pageSize, cursor);
    var rows, total := Gather(feed, kind, cursor, start + pageSize + 1);
    r := Cut(Sorted(rows), start, pageSize, total);
  }

  method Cut(rows: seq<Row>, offset: nat, size: nat, total: nat) returns (r: Page)
    ensures r == Slice(rows, offset, size, total)
  {
    var start := offset;
    var end := if start + size < |rows| then start + size else |rows|;
    if start > |rows| {
      start := |rows|;
    }
    var part := rows[start..end];
    r := Page(part, total, if end < |rows| && |part| > 0 then Some(CursorOf(part[|part| - 1])) else None);
  }

  method Gather(feed: Feed, kind: Wanted, cursor: Option<Cursor>, limit: nat) returns (rows: seq<Row>, total: nat)
    ensures rows == Query(ChaptersWanted(feed, kind), cursor, limit) + Query(SeriesWanted(feed, kind), cursor, limit)
    ensures total == |ChaptersWanted(feed, kind)| + |SeriesWanted(feed, kind)|
  {
    rows, total := [], 0;
    NothingQueried(cursor, limit);
    if !kind.OnlySeries? {
      rows := rows + Query(feed.chapters, cursor, limit);
      total := total + |feed.chapters|;
    }
    if !kind.OnlyChapters? {
      rows := rows + Query(feed.series, cursor, limit);
      total := total + |feed.series|;
    }
  }

  function Start(page: nat, pageSize: nat, cursor: Option<Cursor>): nat {
    if cursor.None? && page > 1 then (page - 1) * pageSize else 0
  }

  /** What both queries return, merged. */
  function Merged(feed: Feed, kind: Wanted, cursor: Option<Cursor>, limit: nat): seq<Row> {
    TopsMerged(Matching(ChaptersWanted(feed, kind), cursor), Matching(SeriesWanted(feed, kind), cursor), limit)
  }

  function TopsMerged(a: seq<Row>, b: seq<Row>, n: nat): seq<Row> {
    Sorted(Top(a, n) + Top(b, n))
  }

  function PageOf(feed: Feed, kind: Wanted, page: nat, pageSize: nat, cursor: Option<Cursor>): Page {
    PageFrom(feed, kind, Start(page, pageSize, cursor), pageSize, cursor)
  }

  function PageFrom(feed: Feed, kind: Wanted, start: nat, pageSize: nat, cursor: Option<Cursor>): Page {
    Slice(Merged(feed, kind, cursor, start + pageSize + 1), start, pageSize,
          |ChaptersWanted(feed, kind)| + |SeriesWanted(feed, kind)|)
  }

  function Slice(rows: seq<Row>, start: nat, size: nat, total: nat): Page {
    var end := if start + size < |rows| then start + size else |rows|;
    var part := if start > |rows| then [] else rows[start..end];
    Page(part, total, if end < |rows| && |part| > 0 then Some(CursorOf(part[|part| - 1])) else None)
  }

  lemma NothingQueried(cursor: Option<Cursor>, limit: nat)
    ensures Query([], cursor, limit) == []
  {
    StableSortMembers([], Newer);
  }

  // ---- descending lists -----------------------------------------------------------------------

  ghost predicate Descends(s: seq<Row>) {
    forall i, j :: 0 <= i < j < |s| ==> Newer(s[i], s[j])
  }

  ghost predicate Keyed(s: seq<Row>) {
    forall i, j :: 0 <= i < j < |s| ==> s[i].kind != s[j].kind || s[i].id != s[j].id
  }

  ghost predicate OfKind(s: seq<Row>, kind: Kind) {
    forall x :: x in s ==> x.kind == kind
  }

  lemma {:induction false} TableIsKeyed(s: seq<Row>, kind: Kind)
    requires TableOf(s, kind)
    ensures Keyed(s) && OfKind(s, kind)
  {
    if s != [] {
      var n := |s| - 1;
      TableIsKeyed(s[..n], kind);
      assert s == s[..n] + [s[n]];
      forall i | 0 <= i < n ensures s[i].id != s[n].id {
        assert s[..n][i] == s[i];
        assert s[i].id in Ids(s[..n]);
      }
    }
  }

  /** Both kinds' rows, each with keys of its own. */
  lemma FeedIsKeyed(feed: Feed, kind: Wanted)
    ensures Keyed(ChaptersWanted(feed, kind)) && Keyed(SeriesWanted(feed, kind))
    ensures OfKind(ChaptersWanted(feed, kind), ChapterSeen) && OfKind(SeriesWanted(feed, kind), SeriesAdded)
  {
    TableIsKeyed(feed.chapters, ChapterSeen);
    TableIsKeyed(feed.series, SeriesAdded);
  }

  lemma NewerIsWeak()
    ensures StrictWeak(Newer)
  {
  }

  lemma SortedDescends(s: seq<Row>)
    requires Keyed(s)
    ensures Descends(Sorted(s))
    ensures forall x :: x in Sorted(s) <==> x in s
    ensures |Sorted(s)| == |s| && Keyed(Sorted(s))
  {
    var tie := (a: Row, b: Row) => a.kind != b.kind || a.id != b.id;
    NewerIsWeak();
    StableSortMembers(s, Newer);
    StableSortSorts(s, Newer, tie);
    var r := Sorted(s);
    forall i, j | 0 <= i < j < |r| ensures Newer(r[i], r[j]) {
      assert Then(Newer, tie)(r[i], r[j]);
    }
    forall i, j | 0 <= i < j < |r| ensures r[i].kind != r[j].kind || r[i].id != r[j].id {
      assert Newer(r[i], r[j]);
      assert r[i] in s && r[j] in s;
    }
  }

  /** Two descending lists of the same rows are one. */
  lemma {:induction false} DescendingIsUnique(a: seq<Row>, b: seq<Row>)
    requires Descends(a) && Descends(b) && forall x :: x in a <==> x in b
    ensures a == b
  {
    SubsetSize(a, b);
    SubsetSize(b, a);
    if a != [] {
      assert a[0] in b && b[0] in a;
      FirstIsNewest(a, b[0]);
      FirstIsNewest(b, a[0]);
      assert a[0] == b[0];
      TailMembers(a);
      TailMembers(b);
      DescendingIsUnique(a[1..], b[1..]);
      assert a == [a[0]] + a[1..] && b == [b[0]] + b[1..];
    }
  }

  lemma FirstIsNewest(s: seq<Row>, x: Row)
    requires Descends(s) && x in s
    ensures x == s[0] || Newer(s[0], x)
  {
  }

  lemma TailMembers(s: seq<Row>)
    requires Descends(s) && s != []
    ensures Descends(s[1..]) && forall x :: x in s[1..] <==> x in s && x != s[0]
  {
    assert s == [s[0]] + s[1..];
    assert forall k :: 0 <= k < |s[1..]| ==> s[1..][k] == s[k + 1];
  }

  lemma {:induction false} MatchingMembers(rows: seq<Row>, cursor: Option<Cursor>)
    ensures forall x :: x in Matching(rows, cursor) <==> x in rows && Passes(x, cursor)
    ensures |Matching(rows, cursor)| <= |rows|
    ensures Keyed(rows) ==> Keyed(Matching(rows, cursor))
  {
    if rows != [] {
      var n := |rows| - 1;
      MatchingMembers(rows[..n], cursor);
      assert rows == rows[..n] + [rows[n]];
      if Keyed(rows) {
        KeyedNext(rows, Matching(rows[..n], cursor));
      }
    }
  }

  lemma KeyedNext(rows: seq<Row>, m: seq<Row>)
    requires Keyed(rows) && rows != [] && Keyed(m)
    requires forall x :: x in m ==> x in rows[..|rows| - 1]
    ensures Keyed(m + [rows[|rows| - 1]])
  {
    var n := |rows| - 1;
    forall i | 0 <= i < |m| ensures m[i].kind != rows[n].kind || m[i].id != rows[n].id {
      assert m[i] in m;
      var k :| 0 <= k < n && rows[..n][k] == m[i];
    }
  }

  // ---- the top of a union -----------------------------------------------------------------------

  lemma {:induction false} DistinctSize(s: seq<Row>)
    requires Descends(s)
    ensures |set x | x in s| == |s|
  {
    if s == [] {
      assert (set x | x in s) == {};
    } else {
      TailMembers(s);
      DistinctSize(s[1..]);
      assert (set x | x in s) == {s[0]} + (set x | x in s[1..]);
    }
  }

  /** A row stands no further down among some of the rows than among all. */
  lemma PartComesEarlier(part: seq<Row>, all: seq<Row>, i: nat, j: nat)
    requires Descends(part) && Descends(all) && forall x :: x in part ==> x in all
    requires i < |all| && j < |part| && part[j] == all[i]
    ensures j <= i
  {
    var a, b := part[..j], all[..i];
    forall x | x in a ensures x in b {
      var k :| 0 <= k < j && part[k] == x;
      assert x in part;
      var m :| 0 <= m < |all| && all[m] == x;
    }
    DistinctSize(a);
    DistinctSize(b);
    var x, y := set r | r in a, set r | r in b;
    PartIsSmaller(x, y);
  }

  /** The first n of all the rows are among the first n of each part. */
  lemma TopIsInParts(a: seq<Row>, b: seq<Row>, all: seq<Row>, n: nat, x: Row)
    requires Descends(a) && Descends(b) && Descends(all)
    requires forall y :: y in all <==> y in a || y in b
    requires x in Take(all, n)
    ensures x in Take(a, n) || x in Take(b, n)
  {
    var i :| 0 <= i < |all| && i < n && all[i] == x;
    assert x in all;
    if x in a {
      var j :| 0 <= j < |a| && a[j] == x;
      PartComesEarlier(a, all, i, j);
      assert Take(a, n)[j] == x;
    } else {
      var j :| 0 <= j < |b| && b[j] == x;
      PartComesEarlier(b, all, i, j);
      assert Take(b, n)[j] == x;
    }
  }

  function Others(u: seq<Row>, top: seq<Row>): seq<Row> {
    if u == [] then [] else
      var n := |u| - 1;
      var rest := Others(u[..n], top);
      if u[n] in top then rest else rest + [u[n]]
  }

  lemma {:induction false} OthersMembers(u: seq<Row>, top: seq<Row>)
    ensures forall x :: x in Others(u, top) <==> x in u && x !in top
    ensures Descends(u) ==> Descends(Others(u, top))
  {
    if u != [] {
      var n := |u| - 1;
      OthersMembers(u[..n], top);
      assert u == u[..n] + [u[n]];
      var rest := Others(u[..n], top);
      if Descends(u) {
        forall i | 0 <= i < |rest| ensures Newer(rest[i], u[n]) {
          assert rest[i] in rest;
          var k :| 0 <= k < n && u[..n][k] == rest[i];
        }
      }
    }
  }

  /** Rows of a list that include its first n start with them. */
  lemma TopComesFirst(u: seq<Row>, all: seq<Row>, n: nat)
    requires Descends(u) && Descends(all)
    requires forall x :: x in u ==> x in all
    requires forall x :: x in Take(all, n) ==> x in u
    ensures Take(u, n) == Take(all, n)
    ensures |Take(all, n)| <= |u| <= |all|
  {
    var top := Take(all, n);
    var rest := Others(u, top);
    OthersMembers(u, top);
    forall i, j | 0 <= i < |top| && 0 <= j < |rest| ensures Newer(top[i], rest[j]) {
      assert rest[j] in rest;
      var k :| 0 <= k < |all| && all[k] == rest[j];
      assert k >= |top|;
    }
    assert Descends(top + rest);
    DescendingIsUnique(top + rest, u);
    SubsetSize(u, all);
  }

  lemma SubsetSize(u: seq<Row>, all: seq<Row>)
    requires Descends(u) && Descends(all) && forall x :: x in u ==> x in all
    ensures |u| <= |all|
  {
    DistinctSize(u);
    DistinctSize(all);
    var x, y := set r | r in u, set r | r in all;
    PartIsSmaller(x, y);
  }

  // ---- the merge of the two queries ------------------------------------------------------------

  lemma KeyedBoth(a: seq<Row>, b: seq<Row>)
    requires Keyed(a) && Keyed(b) && OfKind(a, ChapterSeen) && OfKind(b, SeriesAdded)
    ensures Keyed(a + b)
  {
    forall i, j | 0 <= i < j < |a + b| ensures (a + b)[i].kind != (a + b)[j].kind || (a + b)[i].id != (a + b)[j].id {
      if i < |a| <= j {
        assert a[i] in a && b[j - |a|] in b;
      }
    }
  }

  lemma TakeDescends(s: seq<Row>, n: nat)
    requires Descends(s) && Keyed(s)
    ensures Descends(Take(s, n)) && forall x :: x in Take(s, n) ==> x in s
    ensures Keyed(Take(s, n))
  {
  }

  /** The first n of the merge of two queries' first n are the first n of all their rows. */
  lemma TopOfUnion(a: seq<Row>, b: seq<Row>, n: nat)
    requires Keyed(a) && Keyed(b) && OfKind(a, ChapterSeen) && OfKind(b, SeriesAdded)
    ensures Take(TopsMerged(a, b, n), n) == Top(a + b, n)
    ensures |Top(a + b, n)| <= |TopsMerged(a, b, n)| <= |a + b|
  {
    KeyedBoth(a, b);
    SortedDescends(a);
    SortedDescends(b);
    SortedDescends(a + b);
    TakeDescends(Sorted(a), n);
    TakeDescends(Sorted(b), n);
    var merged := Take(Sorted(a), n) + Take(Sorted(b), n);
    KeyedBoth(Take(Sorted(a), n), Take(Sorted(b), n));
    SortedDescends(merged);
    forall x | x in Take(Sorted(a + b), n) ensures x in Sorted(merged) {
      TopIsInParts(Sorted(a), Sorted(b), Sorted(a + b), n, x);
    }
    TopComesFirst(Sorted(merged), Sorted(a + b), n);
  }

  // ---- after a cursor ----------------------------------------------------------------------------

  /** The SQL condition says just what the sort order says: the row comes after the cursor's. */
  lemma CursorIsOrder(last: Row, row: Row)
    ensures Passes(row, Some(CursorOf(last))) <==> Newer(last, row)
  {
  }

  /** The rows after the cursor of the k-th row are the list from k + 1 on. */
  lemma AfterCursor(rows: seq<Row>, k: nat)
    requires Keyed(rows) && k < |Sorted(rows)|
    ensures Sorted(Matching(rows, Some(CursorOf(Sorted(rows)[k])))) == Sorted(rows)[k + 1..]
  {
    var all, c := Sorted(rows), Some(CursorOf(Sorted(rows)[k]));
    SortedDescends(rows);
    MatchingMembers(rows, c);
    SortedDescends(Matching(rows, c));
    forall x ensures x in Sorted(Matching(rows, c)) <==> x in all[k + 1..] {
      CursorIsOrder(all[k], x);
      if x in all {
        var i :| 0 <= i < |all| && all[i] == x;
        if i > k {
          assert all[k + 1..][i - k - 1] == x;
        }
      }
      if x in all[k + 1..] {
        var i :| 0 <= i < |all[k + 1..]| && all[k + 1..][i] == x;
        assert all[i + k + 1] == x;
      }
    }
    DescendingIsUnique(Sorted(Matching(rows, c)), all[k + 1..]);
  }

  lemma {:induction false} MatchingBoth(a: seq<Row>, b: seq<Row>, cursor: Option<Cursor>)
    ensures Matching(a + b, cursor) == Matching(a, cursor) + Matching(b, cursor)
  {
    if b == [] {
      assert a + b == a;
    } else {
      var n := |b| - 1;
      assert (a + b)[..|a + b| - 1] == a + b[..n];
      MatchingBoth(a, b[..n], cursor);
    }
  }

  lemma {:induction false} MatchingAll(rows: seq<Row>)
    ensures Matching(rows, None) == rows
  {
    if rows != [] {
      MatchingAll(rows[..|rows| - 1]);
      assert rows == rows[..|rows| - 1] + [rows[|rows| - 1]];
    }
  }

  /** Where in the listing a cursor stands: after its row, or at the front. */
  predicate StandsAt(all: seq<Row>, cursor: Option<Cursor>, p: nat) {
    if cursor.None? then p == 0 else 0 < p <= |all| && cursor == Some(CursorOf(all[p - 1]))
  }

  /** The rows of the listing that a cursor leaves. */
  lemma LeftAfter(feed: Feed, kind: Wanted, cursor: Option<Cursor>, p: nat)
    requires StandsAt(Listing(feed, kind), cursor, p)
    ensures p <= |Listing(feed, kind)|
    ensures Sorted(Matching(ChaptersWanted(feed, kind), cursor) + Matching(SeriesWanted(feed, kind), cursor))
      == Listing(feed, kind)[p..]
  {
    var a, b := ChaptersWanted(feed, kind), SeriesWanted(feed, kind);
    FeedIsKeyed(feed, kind);
    MatchingBoth(a, b, cursor);
    if cursor.None? {
      MatchingAll(a + b);
      assert Sorted(a + b)[0..] == Sorted(a + b);
    } else {
      KeyedBoth(a, b);
      AfterCursor(a + b, p - 1);
    }
  }

  // ---- pages -----------------------------------------------------------------------------------------

  /** The page that shows size rows of the listing from p on. */
  function PageAt(all: seq<Row>, p: nat, size: nat): Page {
    Slice(all, p, size, |all|)
  }

  lemma ListingSize(feed: Feed, kind: Wanted)
    ensures |Listing(feed, kind)| == |ChaptersWanted(feed, kind)| + |SeriesWanted(feed, kind)|
  {
    FeedIsKeyed(feed, kind);
    KeyedBoth(ChaptersWanted(feed, kind), SeriesWanted(feed, kind));
    SortedDescends(ChaptersWanted(feed, kind) + SeriesWanted(feed, kind));
  }

  /** The listing holds each wanted row of the feed once, in order. */
  lemma ListingIsFeed(feed: Feed, kind: Wanted)
    ensures Descends(Listing(feed, kind)) && Keyed(Listing(feed, kind))
    ensures forall x :: x in Listing(feed, kind) <==> x in ChaptersWanted(feed, kind) || x in SeriesWanted(feed, kind)
  {
    FeedIsKeyed(feed, kind);
    KeyedBoth(ChaptersWanted(feed, kind), SeriesWanted(feed, kind));
    SortedDescends(ChaptersWanted(feed, kind) + SeriesWanted(feed, kind));
  }

  lemma SlicesAgree(merged: seq<Row>, left: seq<Row>, start: nat, size: nat, total: nat)
    requires Take(merged, start + size + 1) == Take(left, start + size + 1)
    requires |Take(left, start + size + 1)| <= |merged| <= |left|
    ensures Slice(merged, start, size, total) == Slice(left, start, size, total)
  {
    var n := start + size + 1;
    assert |merged| < n ==> merged == left;
    if n <= |merged| {
      assert merged[..n] == left[..n];
      assert merged[start..start + size] == merged[..n][start..start + size];
      assert left[start..start + size] == left[..n][start..start + size];
    }
  }

  lemma SliceAfter(all: seq<Row>, p: nat, size: nat, total: nat)
    requires p <= |all|
    ensures Slice(all[p..], 0, size, total) == Slice(all, p, size, total)
  {
    var end := if p + size < |all| then p + size else |all|;
    assert all[p..][0..end - p] == all[p..end];
  }

  /** A page cut from the merge of two bounded queries is the page cut from all the rows. */
  lemma MergeThenCut(a: seq<Row>, b: seq<Row>, start: nat, size: nat, total: nat)
    requires Keyed(a) && Keyed(b) && OfKind(a, ChapterSeen) && OfKind(b, SeriesAdded)
    ensures var n := start + size + 1;
      Slice(TopsMerged(a, b, n), start, size, total) == Slice(Sorted(a + b), start, size, total)
  {
    var n := start + size + 1;
    KeyedBoth(a, b);
    SortedDescends(a + b);
    TopOfUnion(a, b, n);
    SlicesAgree(TopsMerged(a, b, n), Sorted(a + b), start, size, total);
  }

  lemma MatchingIsKeyed(feed: Feed, kind: Wanted, cursor: Option<Cursor>)
    ensures var a, b := Matching(ChaptersWanted(feed, kind), cursor), Matching(SeriesWanted(feed, kind), cursor);
      Keyed(a) && Keyed(b) && OfKind(a, ChapterSeen) && OfKind(b, SeriesAdded)
  {
    FeedIsKeyed(feed, kind);
    MatchingMembers(ChaptersWanted(feed, kind), cursor);
    MatchingMembers(SeriesWanted(feed, kind), cursor);
  }

  lemma MergedIsTops(feed: Feed, kind: Wanted, cursor: Option<Cursor>, n: nat, a: seq<Row>, b: seq<Row>)
    requires a == Matching(ChaptersWanted(feed, kind), cursor) && b == Matching(SeriesWanted(feed, kind), cursor)
    ensures Merged(feed, kind, cursor, n) == TopsMerged(a, b, n)
  {
  }

  lemma PageIsCutOfMatching(feed: Feed, kind: Wanted, start: nat, size: nat, cursor: Option<Cursor>, a: seq<Row>, b: seq<Row>, total: nat)
    requires a == Matching(ChaptersWanted(feed, kind), cursor) && b == Matching(SeriesWanted(feed, kind), cursor)
    requires total == |ChaptersWanted(feed, kind)| + |SeriesWanted(feed, kind)|
    ensures PageFrom(feed, kind, start, size, cursor) == Slice(Sorted(a + b), start, size, total)
  {
    MergedIsTops(feed, kind, cursor, start + size + 1, a, b);
    MatchingIsKeyed(feed, kind, cursor);
    MergeThenCut(a, b, start, size, total);
  }

  /** Any page is cut from the rows its cursor leaves. */
  lemma PageIsCut(feed: Feed, kind: Wanted, start: nat, size: nat, cursor: Option<Cursor>, p: nat)
    requires StandsAt(Listing(feed, kind), cursor, p)
    ensures p <= |Listing(feed, kind)|
    ensures PageFrom(feed, kind, start, size, cursor) ==
      Slice(Listing(feed, kind)[p..], start, size, |Listing(feed, kind)|)
  {
    LeftAfter(feed, kind, cursor, p);
    ListingSize(feed, kind);
    PageOfLeft(feed, kind, start, size, cursor, Listing(feed, kind)[p..], |Listing(feed, kind)|);
  }

  lemma PageOfLeft(feed: Feed, kind: Wanted, start: nat, size: nat, cursor: Option<Cursor>, left: seq<Row>, total: nat)
    requires Sorted(Matching(ChaptersWanted(feed, kind), cursor) + Matching(SeriesWanted(feed, kind), cursor)) == left
    requires total == |ChaptersWanted(feed, kind)| + |SeriesWanted(feed, kind)|
    ensures PageFrom(feed, kind, start, size, cursor) == Slice(left, start, size, total)
  {
    PageIsCutOfMatching(feed, kind, start, size, cursor,
                        Matching(ChaptersWanted(feed, kind), cursor), Matching(SeriesWanted(feed, kind), cursor), total);
  }

  /** A cursor page shows the rows right after its cursor. */
  lemma CursorPage(feed: Feed, kind: Wanted, page: nat, size: nat, cursor: Option<Cursor>, p: nat)
    requires StandsAt(Listing(feed, kind), cursor, p) && (cursor.Some? || page <= 1)
    ensures PageOf(feed, kind, page, size, cursor) == PageAt(Listing(feed, kind), p, size)
  {
    PageIsCut(feed, kind, 0, size, cursor, p);
    SliceAfter(Listing(feed, kind), p, size, |Listing(feed, kind)|);
  }

  /** An offset page shows the rows at its offset. */
  lemma OffsetPage(feed: Feed, kind: Wanted, page: nat, size: nat, start: nat)
    requires page >= 1 && start == Start(page, size, None)
    ensures PageOf(feed, kind, page, size, None) == PageAt(Listing(feed, kind), start, size)
  {
    PageIsCut(feed, kind, start, size, None, 0);
    assert Listing(feed, kind)[0..] == Listing(feed, kind);
  }

  /** A cursor is returned exactly when rows remain, and it stands right after the page. */
  lemma NextExactly(all: seq<Row>, p: nat, size: nat)
    requires size >= 1
    ensures PageAt(all, p, size).next.Some? <==> p + size < |all|
    ensures p + size < |all| ==> StandsAt(all, PageAt(all, p, size).next, p + size)
    ensures p <= |all| ==> PageAt(all, p, size).rows == all[p..if p + size < |all| then p + size else |all|]
  {
  }

  // ---- chains ------------------------------------------------------------------------------------------

  /** What a client asks: a page of a size, with the cursor it has. */
  type Asked = (Option<Cursor>, nat) -> Page

  function Asking(feed: Feed, kind: Wanted): Asked {
    (cursor: Option<Cursor>, size: nat) => PageOf(feed, kind, 1, size, cursor)
  }

  /** The rows of the pages of the given sizes, each asked for with the cursor of the one before. */
  function Chain(ask: Asked, cursor: Option<Cursor>, sizes: seq<nat>): seq<Row>
    decreases |sizes|
  {
    if sizes == [] then [] else
      var page := ask(cursor, sizes[0]);
      if page.next.None? then page.rows else page.rows + Chain(ask, page.next, sizes[1..])
  }

  /** Whether the chain ran to a page without a cursor. */
  predicate Ends(ask: Asked, cursor: Option<Cursor>, sizes: seq<nat>)
    decreases |sizes|
  {
    sizes != [] && (var page := ask(cursor, sizes[0]); page.next.None? || Ends(ask, page.next, sizes[1..]))
  }

  function Sum(sizes: seq<nat>): nat {
    if sizes == [] then 0 else sizes[0] + Sum(sizes[1..])
  }

  /** Every answer is the next page of the list. */
  ghost predicate Serves(ask: Asked, all: seq<Row>) {
    forall cursor, p: nat, size: nat {:trigger StandsAt(all, cursor, p), ask(cursor, size)} ::
      StandsAt(all, cursor, p) ==> ask(cursor, size) == PageAt(all, p, size)
  }

  lemma FeedServes(feed: Feed, kind: Wanted)
    ensures Serves(Asking(feed, kind), Listing(feed, kind))
  {
    forall cursor, p: nat, size: nat {:trigger StandsAt(Listing(feed, kind), cursor, p), Asking(feed, kind)(cursor, size)}
      | StandsAt(Listing(feed, kind), cursor, p)
      ensures Asking(feed, kind)(cursor, size) == PageAt(Listing(feed, kind), p, size)
    {
      CursorPage(feed, kind, 1, size, cursor, p);
    }
  }

  /** Following cursors from any place gives the list from there, each row once, as far as the pages reach. */
  lemma {:induction false} ChainIsListing(ask: Asked, all: seq<Row>, cursor: Option<Cursor>, p: nat, sizes: seq<nat>)
    requires Serves(ask, all) && StandsAt(all, cursor, p) && p <= |all|
    requires forall i :: 0 <= i < |sizes| ==> sizes[i] >= 1
    ensures Chain(ask, cursor, sizes) == Take(all[p..], Sum(sizes))
    decreases |sizes|
  {
    if sizes != [] {
      var page := ask(cursor, sizes[0]);
      if p + sizes[0] < |all| {
        CursorMoves(ask, all, cursor, p, sizes[0]);
        ChainIsListing(ask, all, page.next, p + sizes[0], sizes[1..]);
      }
      ChainStep(all, p, sizes[0], Sum(sizes[1..]), page, if page.next.Some? then Chain(ask, page.next, sizes[1..]) else []);
    }
  }

  /** The last page comes exactly when the pages asked for reach the end. */
  lemma {:induction false} ChainEnds(ask: Asked, all: seq<Row>, cursor: Option<Cursor>, p: nat, sizes: seq<nat>)
    requires Serves(ask, all) && StandsAt(all, cursor, p) && p <= |all|
    requires forall i :: 0 <= i < |sizes| ==> sizes[i] >= 1
    ensures Ends(ask, cursor, sizes) <==> sizes != [] && p + Sum(sizes) >= |all|
    decreases |sizes|
  {
    if sizes != [] {
      var page := ask(cursor, sizes[0]);
      assert page == PageAt(all, p, sizes[0]);
      NextExactly(all, p, sizes[0]);
      if page.next.Some? {
        ChainEnds(ask, all, page.next, p + sizes[0], sizes[1..]);
      }
    }
  }

  lemma ChainStep(all: seq<Row>, p: nat, m: nat, n: nat, page: Page, rest: seq<Row>)
    requires p <= |all| && m >= 1 && page == PageAt(all, p, m)
    requires rest == if p + m < |all| then Take(all[p + m..], n) else []
    ensures page.rows + rest == Take(all[p..], m + n)
    ensures page.next.Some? <==> p + m < |all|
  {
    NextExactly(all, p, m);
    if p + m < |all| {
      TakeTwice(all, p, m, n);
    }
  }

  lemma TakeTwice(all: seq<Row>, p: nat, m: nat, n: nat)
    requires p + m <= |all|
    ensures all[p..p + m] + Take(all[p + m..], n) == Take(all[p..], m + n)
  {
  }

  /** Following nextCursor to the end, with any page sizes, gives every visible row once, in order. */
  lemma WholeFeed(feed: Feed, kind: Wanted, sizes: seq<nat>)
    requires forall i :: 0 <= i < |sizes| ==> sizes[i] >= 1
    requires Ends(Asking(feed, kind), None, sizes)
    ensures Chain(Asking(feed, kind), None, sizes) == Listing(feed, kind)
  {
    FeedServes(feed, kind);
    ChainIsListing(Asking(feed, kind), Listing(feed, kind), None, 0, sizes);
    ChainEnds(Asking(feed, kind), Listing(feed, kind), None, 0, sizes);
    assert Listing(feed, kind)[0..] == Listing(feed, kind);
  }

  /** The offset page k is the k-th page along the cursors. */
  lemma OffsetIsCursor(feed: Feed, kind: Wanted, page: nat, size: nat, cursor: Option<Cursor>, p: nat)
    requires page >= 1 && size >= 1 && p == Start(page, size, None)
    requires StandsAt(Listing(feed, kind), cursor, p)
    ensures PageOf(feed, kind, page, size, None) == PageOf(feed, kind, page, size, cursor)
  {
    OffsetPage(feed, kind, page, size, p);
    if cursor.Some? {
      CursorPage(feed, kind, page, size, cursor, p);
    }
  }

  /** The cursor that k pages of a size lead to, while rows remain. */
  function CursorAfter(ask: Asked, size: nat, k: nat): Option<Cursor> {
    if k == 0 then None else ask(CursorAfter(ask, size, k - 1), size).next
  }

  function Offset(size: nat, k: nat): (p: nat)
    ensures p == k * size
  {
    if k == 0 then 0 else Offset(size, k - 1) + size
  }

  lemma {:induction false} CursorsStand(ask: Asked, all: seq<Row>, size: nat, k: nat)
    requires Serves(ask, all) && size >= 1 && (k > 0 ==> Offset(size, k) < |all|)
    ensures StandsAt(all, CursorAfter(ask, size, k), Offset(size, k))
  {
    if k > 0 {
      CursorsStand(ask, all, size, k - 1);
      CursorMoves(ask, all, CursorAfter(ask, size, k - 1), Offset(size, k - 1), size);
    }
  }

  lemma CursorMoves(ask: Asked, all: seq<Row>, cursor: Option<Cursor>, p: nat, size: nat)
    requires Serves(ask, all) && size >= 1 && StandsAt(all, cursor, p) && p + size < |all|
    ensures StandsAt(all, ask(cursor, size).next, p + size)
  {
    assert ask(cursor, size) == PageAt(all, p, size);
    NextExactly(all, p, size);
  }

  /** While rows remain, offset page k + 1 equals the page after k cursors. */
  lemma OffsetPagesAreCursorPages(feed: Feed, kind: Wanted, size: nat, k: nat)
    requires size >= 1 && (k > 0 ==> k * size < |Listing(feed, kind)|)
    ensures PageOf(feed, kind, k + 1, size, None) == PageOf(feed, kind, k + 1, size, CursorAfter(Asking(feed, kind), size, k))
  {
    FeedServes(feed, kind);
    CursorsStand(Asking(feed, kind), Listing(feed, kind), size, k);
    OffsetIsCursor(feed, kind, k + 1, size, CursorAfter(Asking(feed, kind), size, k), Offset(size, k));
  }
}
