/** Every page of the popular shelf gets on, every shelf comes to its end, and what is on it, told by what the catalogs list. */
module DiscoverProgress {
  import opened Common
  import opened Discover
  import opened DiscoverWalk

  // ---- one request gets on ------------------------------------------------------------------------

  /** Nothing more can be done: all catalogs are read, or the next page needs a fetch. */
  predicate Stuck(env: Env, c: Cursor) {
    || c.catalog >= |env.catalogs|
    || (c.pending == [] && !(env.latest && !env.catalogs[c.catalog].supportsLatest))
  }

  lemma {:induction false} PageUsesItsBudget(env: Env, c: Cursor, room: nat, b: Budget)
    ensures var r := Page(env, c, room, b);
      && |r.items| <= room && r.fetches <= b.Total()
      && (|r.items| < room ==> Stuck(env, r.cursor) && (r.cursor.catalog < |env.catalogs| ==> r.fetches == b.Total()))
    decreases |env.catalogs| - c.catalog, b.left, |c.pending|
  {
    if c.catalog >= |env.catalogs| || room == 0 {
    } else if env.Skips(c.catalog) {
      PageUsesItsBudget(env, NextCatalog(c), room, b);
    } else if c.pending != [] {
      var t := Take(env, c.catalog, c.pending, c.seen, room);
      if t.rest == [] {
        PageUsesItsBudget(env, Reading(env, c, room), room - |t.items|, b);
      }
    } else if b.left > 0 {
      PageUsesItsBudget(env, Fetched(env, c), room, b.(left := b.left - 1));
    } else if b.cut {
      PageUsesItsBudget(env, NextCatalog(c), room, Budget(0, false));
    }
  }

  /**
   A page is full unless the catalogs are all read, or it has made eight fetches, or as many as its time let end and the
   one that was cut off, and needs another.
   */
  lemma PageFills(env: Env, c: Cursor, size: nat, time: Deadline)
    ensures var r := Page(env, c, size, Allowed(time));
      var most := if time.fetches >= 8 then 8 else if time.inside then time.fetches + 1 else time.fetches;
      && |r.items| <= size && r.fetches <= most
      && (|r.items| == size || r.cursor.catalog >= |env.catalogs| || (Stuck(env, r.cursor) && r.fetches == most))
  {
    PageUsesItsBudget(env, c, size, Allowed(time));
  }

  // ---- every shelf ends --------------------------------------------------------------------------

  /** The catalogs from a page on come to their end in n fetches. */
  predicate EndsIn(env: Env, catalog: nat, page: nat, n: nat)
    decreases |env.catalogs| - catalog, n
  {
    if catalog >= |env.catalogs| then true
    else if env.latest && !env.catalogs[catalog].supportsLatest then EndsIn(env, catalog + 1, 1, n)
    else if n == 0 then false
    else
      match env.answers(catalog, page)
      case Failed => EndsIn(env, catalog + 1, 1, n - 1)
      case Got(_, hasNext) => if hasNext then EndsIn(env, catalog, page + 1, n - 1) else EndsIn(env, catalog + 1, 1, n - 1)
  }

  lemma {:induction false} EndsInMore(env: Env, catalog: nat, page: nat, n: nat, m: nat)
    requires EndsIn(env, catalog, page, n) && n <= m
    ensures EndsIn(env, catalog, page, m)
    decreases |env.catalogs| - catalog, n
  {
    if catalog < |env.catalogs| {
      if env.latest && !env.catalogs[catalog].supportsLatest {
        EndsInMore(env, catalog + 1, 1, n, m);
      } else {
        var answer := env.answers(catalog, page);
        if answer.Got? && answer.hasNext {
          EndsInMore(env, catalog, page + 1, n - 1, m - 1);
        } else {
          EndsInMore(env, catalog + 1, 1, n - 1, m - 1);
        }
      }
    }
  }

  /** Leaving a catalog early makes the way no longer. */
  lemma {:induction false} EndsInSooner(env: Env, catalog: nat, page: nat, n: nat)
    requires EndsIn(env, catalog, page, n) && catalog < |env.catalogs| && !env.Skips(catalog)
    ensures n > 0 && EndsIn(env, catalog + 1, 1, n - 1)
    decreases n
  {
    var answer := env.answers(catalog, page);
    if answer.Got? && answer.hasNext {
      EndsInSooner(env, catalog, page + 1, n - 1);
      EndsInMore(env, catalog + 1, 1, n - 2, n - 1);
    }
  }

  /** The catalogs end n fetches after what the cursor has pending. */
  predicate Nears(env: Env, c: Cursor, n: int) {
    n >= 0 && EndsIn(env, NextSpot(c).catalog, NextSpot(c).page, n)
  }

  /** And are nearer by what was fetched. */
  predicate ComesNear(env: Env, r: Shown, n: int) {
    Nears(env, r.cursor, n - r.fetches)
  }

  lemma AfterTurn(env: Env, r: Shown, items: seq<Item>, problems: seq<Problem>, used: nat, n: int)
    requires ComesNear(env, r, n - used)
    ensures ComesNear(env, r.After(items, problems, used), n)
  {
  }

  lemma {:induction false} PageNears(env: Env, c: Cursor, room: nat, b: Budget, n: nat)
    requires Good(env, c) && Nears(env, c, n)
    ensures ComesNear(env, Page(env, c, room, b), n)
    decreases |env.catalogs| - c.catalog, b.left, |c.pending|
  {
    if c.catalog >= |env.catalogs| || room == 0 {
    } else if env.Skips(c.catalog) {
      var next := NextCatalog(c);
      PageNears(env, next, room, b, n);
      AfterTurn(env, Page(env, next, room, b), [], [NoLatest(c.catalog)], 0, n);
    } else if c.pending != [] {
      var t, next := Take(env, c.catalog, c.pending, c.seen, room), Reading(env, c, room);
      ReadNears(env, c, room, n);
      if t.rest == [] {
        PageNears(env, next, room - |t.items|, b, n);
        AfterTurn(env, Page(env, next, room - |t.items|, b), t.items, [], 0, n);
      }
    } else if b.left > 0 {
      var next, rest := Fetched(env, c), b.(left := b.left - 1);
      FetchNears(env, c, n);
      PageNears(env, next, room, rest, n - 1);
      AfterTurn(env, Page(env, next, room, rest), [], FetchProblems(env, c), 1, n);
    } else if b.cut {
      var next := NextCatalog(c);
      LeavingNears(env, c, n);
      PageNears(env, next, room, Budget(0, false), n - 1);
      AfterTurn(env, Page(env, next, room, Budget(0, false)), [], [CutOff(c.catalog, c.page)], 1, n);
    }
  }

  lemma LeavingNears(env: Env, c: Cursor, n: nat)
    requires c.catalog < |env.catalogs| && !env.Skips(c.catalog) && c.pending == [] && Nears(env, c, n)
    ensures n > 0 && Nears(env, NextCatalog(c), n - 1)
  {
    EndsInSooner(env, c.catalog, c.page, n);
  }

  lemma ReadNears(env: Env, c: Cursor, room: nat, n: nat)
    requires Good(env, c) && c.pending != [] && Nears(env, c, n)
    ensures Good(env, Reading(env, c, room)) && Nears(env, Reading(env, c, room), n)
  {
    ReadingIsPrefix(env, {}, c, room, 0);
  }

  lemma FetchNears(env: Env, c: Cursor, n: nat)
    requires c.catalog < |env.catalogs| && !env.Skips(c.catalog) && c.pending == [] && Nears(env, c, n)
    ensures n > 0 && Nears(env, Fetched(env, c), n - 1) && Good(env, Fetched(env, c))
  {
    FetchIsNext(env, {}, c, 1);
  }

  /** A request that can get on: it asks for a card and has time to begin a fetch. */
  predicate Useful(r: Request) {
    r.size > 0 && (r.time.fetches > 0 || r.time.inside)
  }

  ghost predicate AllUseful(requests: seq<Request>) {
    forall i :: 0 <= i < |requests| ==> Useful(requests[i])
  }

  lemma {:induction false} EndedStays(env: Env, c: Cursor, requests: seq<Request>)
    requires Ended(env, c)
    ensures Chain(env, c, requests) == Shown(c, [], [], 0)
    decreases |requests|
  {
    if requests != [] {
      EndedStays(env, c, requests[1..]);
    }
  }

  /** Each request that does not reach the end shows a card or makes a fetch. */
  lemma {:induction false} ChainPays(env: Env, c: Cursor, requests: seq<Request>, n: nat)
    requires Good(env, c) && AllUseful(requests) && Nears(env, c, n)
    ensures var r := Chain(env, c, requests);
      r.fetches <= n && (!Ended(env, r.cursor) ==> |requests| <= |r.items| + r.fetches)
    decreases |requests|
  {
    if requests != [] {
      var b := Allowed(requests[0].time);
      var r := Page(env, c, requests[0].size, b);
      PageUsesItsBudget(env, c, requests[0].size, b);
      PageKeepsGood(env, c, requests[0].size, b);
      PageNears(env, c, requests[0].size, b, n);
      ChainPays(env, r.cursor, requests[1..], n - r.fetches);
      if Ended(env, r.cursor) {
        EndedStays(env, r.cursor, requests[1..]);
      }
    }
  }

  /** No walk, whatever it is cut, passes more entries than one that is not. */
  lemma {:induction false} CutWalkIsShorter(env: Env, cuts: set<Spot>, catalog: nat, page: nat, m: nat, n: nat)
    requires EndsIn(env, catalog, page, n)
    ensures |Walk(env, cuts, catalog, page, m)| <= |Walk(env, {}, catalog, page, n)|
    decreases |env.catalogs| - catalog, m
  {
    if catalog < |env.catalogs| {
      if env.Skips(catalog) {
        CutWalkIsShorter(env, cuts, catalog + 1, 1, m, n);
      } else if m > 0 {
        EndsInSooner(env, catalog, page, n);
        var answer := env.answers(catalog, page);
        CutWalkIsShorter(env, cuts, catalog + 1, 1, m - 1, n - 1);
        if Spot(catalog, page) in cuts {
          LeavingIsShorter(env, catalog, page, n);
        } else if answer.Got? && answer.hasNext {
          CutWalkIsShorter(env, cuts, catalog, page + 1, m - 1, n - 1);
        }
      }
    }
  }

  lemma {:induction false} LeavingIsShorter(env: Env, catalog: nat, page: nat, n: nat)
    requires EndsIn(env, catalog, page, n) && catalog < |env.catalogs| && !env.Skips(catalog) && n > 0
    ensures |Walk(env, {}, catalog + 1, 1, n - 1)| <= |Walk(env, {}, catalog, page, n)|
    decreases n
  {
    var answer := env.answers(catalog, page);
    if answer.Got? && answer.hasNext {
      EndsInSooner(env, catalog, page + 1, n - 1);
      LeavingIsShorter(env, catalog, page + 1, n - 1);
      SameWalk(env, catalog + 1, 1, n - 2, n - 1);
    }
  }

  /** Fetches left over at the end find nothing. */
  lemma {:induction false} SameWalk(env: Env, catalog: nat, page: nat, n: nat, m: nat)
    requires EndsIn(env, catalog, page, n) && n <= m
    ensures Walk(env, {}, catalog, page, m) == Walk(env, {}, catalog, page, n)
    decreases |env.catalogs| - catalog, n
  {
    if catalog < |env.catalogs| {
      if env.Skips(catalog) {
        SameWalk(env, catalog + 1, 1, n, m);
      } else {
        var answer := env.answers(catalog, page);
        if answer.Got? && answer.hasNext {
          SameWalk(env, catalog, page + 1, n - 1, m - 1);
        } else {
          SameWalk(env, catalog + 1, 1, n - 1, m - 1);
        }
      }
    }
  }

  lemma {:induction false} FreshIsShorter(entries: seq<Entry>, seen: set<Key>)
    ensures |Fresh(entries, seen)| <= |entries|
  {
    if entries != [] {
      var key := entries[0].manga.key;
      FreshIsShorter(entries[1..], if key == "" || key in seen then seen else seen + {key});
    }
  }

  lemma {:induction false} CardsAreFewer(env: Env, entries: seq<Entry>)
    ensures |Cards(env, entries)| <= |entries|
  {
    if entries != [] {
      CardsAreFewer(env, entries[1..]);
    }
  }

  /**
   If the catalogs end at all, after n fetches, then more requests than these and the titles listed come to the end of the
   shelf, whatever their sizes and deadlines, as long as each asks for a card and begins a fetch.
   */
  lemma EveryShelfEnds(env: Env, requests: seq<Request>, n: nat)
    requires EndsIn(env, 0, 1, n) && AllUseful(requests) && |requests| > n + |Walk(env, {}, 0, 1, n)|
    ensures Ended(env, Chain(env, FIRST, requests).cursor)
  {
    var r, cuts, m := Chain(env, FIRST, requests), Cuts(env, requests), MAX_FETCHES * |requests|;
    ChainPays(env, FIRST, requests, n);
    ShelfBeginsSo(env, requests, m);
    var walk := Walk(env, cuts, 0, 1, m);
    FreshIsShorter(walk, {});
    CardsAreFewer(env, Fresh(walk, {}));
    CutWalkIsShorter(env, cuts, 0, 1, m, n);
  }
}
