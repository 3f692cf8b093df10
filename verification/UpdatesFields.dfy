/** What a page of updates shows, told by the fields of the rows. */
module UpdatesFields {
  import opened Common
  import opened Sorting
  import opened Updates

  /** The filter leaves the rows of one table, or of both. */
  predicate Shown(feed: Feed, kind: Wanted, row: Row) {
    (row in feed.chapters && kind != OnlySeries) || (row in feed.series && kind != OnlyChapters)
  }

  /** Later rows are older; of one time, chapters stand before series and higher ids before lower. */
  ghost predicate NewestFirst(rows: seq<Row>) {
    forall i, j :: 0 <= i < j < |rows| ==>
      || rows[j].at < rows[i].at
      || (rows[j].at == rows[i].at && rows[i].kind == ChapterSeen && rows[j].kind == SeriesAdded)
      || (rows[j].at == rows[i].at && rows[i].kind == rows[j].kind && rows[j].id < rows[i].id)
  }

  /** A cursor names the place of a row: its time, 2 for a chapter or 1 for a series, and its id. */
  predicate Names(cursor: Cursor, row: Row) {
    cursor.at == row.at && cursor.kind == (if row.kind == ChapterSeen then 2 else 1) && cursor.id == row.id
  }

  /** The rows from a place on, at most so many, with the number of all and, while rows remain, a cursor of the last shown. */
  ghost predicate ShowsFrom(r: Page, all: seq<Row>, p: nat, size: nat) {
    && r.total == |all|
    && r.rows == (if p >= |all| then [] else if p + size < |all| then all[p..p + size] else all[p..])
    && (r.next.Some? <==> p + size < |all|)
    && (r.next.Some? && p + size < |all| ==> size >= 1 && Names(r.next.value, all[p + size - 1]))
  }

  lemma SliceShows(all: seq<Row>, p: nat, size: nat)
    requires size >= 1
    ensures ShowsFrom(PageAt(all, p, size), all, p, size)
  {
    NextExactly(all, p, size);
  }

  lemma DescendsIsNewest(rows: seq<Row>)
    requires Descends(rows)
    ensures NewestFirst(rows)
  {
    forall i, j | 0 <= i < j < |rows|
      ensures rows[j].at < rows[i].at
        || (rows[j].at == rows[i].at && rows[i].kind == ChapterSeen && rows[j].kind == SeriesAdded)
        || (rows[j].at == rows[i].at && rows[i].kind == rows[j].kind && rows[j].id < rows[i].id)
    {
      assert Newer(rows[i], rows[j]);
    }
  }

  lemma ListIs(feed: Feed, kind: Wanted, all: seq<Row>)
    requires all == Listing(feed, kind)
    ensures NewestFirst(all) && forall row :: row in all <==> Shown(feed, kind, row)
  {
    ListingIsFeed(feed, kind);
    DescendsIsNewest(all);
  }

  lemma OffsetShows(feed: Feed, kind: Wanted, page: nat, size: nat, all: seq<Row>)
    requires page >= 1 && size >= 1 && all == Listing(feed, kind)
    ensures ShowsFrom(PageOf(feed, kind, page, size, None), all, (page - 1) * size, size)
  {
    OffsetPage(feed, kind, page, size, Start(page, size, None));
    SliceShows(all, Start(page, size, None), size);
  }

  lemma CursorShows(feed: Feed, kind: Wanted, page: nat, size: nat, cursor: Cursor, p: nat, all: seq<Row>)
    requires size >= 1 && all == Listing(feed, kind) && 0 < p <= |all| && Names(cursor, all[p - 1])
    ensures ShowsFrom(PageOf(feed, kind, page, size, Some(cursor)), all, p, size)
  {
    assert StandsAt(all, Some(cursor), p);
    CursorPage(feed, kind, page, size, Some(cursor), p);
    SliceShows(all, p, size);
  }

  /**
   There is one list of the rows the filter leaves, newest first: the k-th page of a size shows the rows from
   (k - 1) * size on, and a page asked for with a row's cursor those right after it, whatever its number.
   */
  lemma PagesAreOfOneList(feed: Feed, kind: Wanted, page: nat, size: nat, cursor: Option<Cursor>, p: nat) returns (all: seq<Row>)
    requires page >= 1 && size >= 1
    ensures NewestFirst(all) && (forall row :: row in all <==> Shown(feed, kind, row))
    ensures cursor.None? ==> ShowsFrom(PageOf(feed, kind, page, size, cursor), all, (page - 1) * size, size)
    ensures cursor.Some? && 0 < p <= |all| && Names(cursor.value, all[p - 1]) ==>
      ShowsFrom(PageOf(feed, kind, page, size, cursor), all, p, size)
  {
    all := Listing(feed, kind);
    ListIs(feed, kind, all);
    if cursor.None? {
      OffsetShows(feed, kind, page, size, all);
    } else if 0 < p <= |all| && Names(cursor.value, all[p - 1]) {
      CursorShows(feed, kind, page, size, cursor.value, p, all);
    }
  }
}
