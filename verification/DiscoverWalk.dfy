/** Following the popular shelf's cursors gives one walk over all the catalogs. */
module DiscoverWalk {
  import opened Discover

  // ---- the unpaged walk --------------------------------------------------------------------

  datatype Entry = Entry(catalog: nat, page: nat, manga: Manga)

  /** A page of a catalog. */
  datatype Spot = Spot(catalog: nat, page: nat)
  {
    predicate Before(other: Spot) {
      catalog < other.catalog || (catalog == other.catalog && page < other.page)
    }
  }

  function Tagged(catalog: nat, page: nat, mangas: seq<Manga>): (r: seq<Entry>)
    ensures |r| == |mangas|
  {
    if mangas == [] then [] else [Entry(catalog, page, mangas[0])] + Tagged(catalog, page, mangas[1..])
  }

  /** What a catalog gives for a page, when fetches of the cut pages get nothing. */
  function Given(env: Env, cuts: set<Spot>, catalog: nat, page: nat): Answer {
    if Spot(catalog, page) in cuts then Failed else env.answers(catalog, page)
  }

  /** Everything the catalogs list, in order, from a page on, in n fetches. */
  function Walk(env: Env, cuts: set<Spot>, catalog: nat, page: nat, n: nat): seq<Entry>
    decreases |env.catalogs| - catalog, n
  {
    if catalog >= |env.catalogs| then []
    else if env.Skips(catalog) then Walk(env, cuts, catalog + 1, 1, n)
    else if n == 0 then []
    else
      match Given(env, cuts, catalog, page)
      case Failed => Walk(env, cuts, catalog + 1, 1, n - 1)
      case Got(mangas, hasNext) =>
        Tagged(catalog, page, mangas) +
        if hasNext then Walk(env, cuts, catalog, page + 1, n - 1) else Walk(env, cuts, catalog + 1, 1, n - 1)
  }

  /** What goes wrong on that walk: a catalog that lists nothing new, and the fetch that a catalog is left for. */
  function Errors(env: Env, cuts: set<Spot>, catalog: nat, page: nat, n: nat): seq<Problem>
    decreases |env.catalogs| - catalog, n
  {
    if catalog >= |env.catalogs| then []
    else if env.Skips(catalog) then [NoLatest(catalog)] + Errors(env, cuts, catalog + 1, 1, n)
    else if n == 0 then []
    else if Spot(catalog, page) in cuts then [CutOff(catalog, page)] + Errors(env, cuts, catalog + 1, 1, n - 1)
    else
      match env.answers(catalog, page)
      case Failed => [FetchFailed(catalog, page)] + Errors(env, cuts, catalog + 1, 1, n - 1)
      case Got(_, hasNext) =>
        if hasNext then Errors(env, cuts, catalog, page + 1, n - 1) else Errors(env, cuts, catalog + 1, 1, n - 1)
  }

  /** The first entry of each title not seen before. */
  function Fresh(entries: seq<Entry>, seen: set<Key>): seq<Entry> {
    if entries == [] then [] else
      var key := entries[0].manga.key;
      if key == "" || key in seen then Fresh(entries[1..], seen)
      else [entries[0]] + Fresh(entries[1..], seen + {key})
  }

  function CardOf(env: Env, e: Entry): Item {
    Item(e.catalog, e.manga, env.IdOf(e.manga.key))
  }

  /** The entries that membership in the library lets through, as cards. */
  function Cards(env: Env, entries: seq<Entry>): seq<Item> {
    if entries == [] then [] else
      var rest := Cards(env, entries[1..]);
      if env.Wants(entries[0].manga.key) then [CardOf(env, entries[0])] + rest else rest
  }

  /** The whole shelf in n fetches: walk, keep each title's first entry, then filter. */
  function Shelf(env: Env, cuts: set<Spot>, n: nat): seq<Item> {
    Cards(env, Fresh(Walk(env, cuts, 0, 1, n), {}))
  }

  /** The k-th entry is the first of a title not seen before. */
  ghost predicate IsFirst(entries: seq<Entry>, seen: set<Key>, k: nat) {
    && k < |entries| && entries[k].manga.key != "" && entries[k].manga.key !in seen
    && forall i :: 0 <= i < k ==> entries[i].manga.key != entries[k].manga.key
  }

  /** f stands at the given places of entries: from a place on the first entries of titles, all of them, in order. */
  ghost predicate Firsts(f: seq<Entry>, places: seq<nat>, entries: seq<Entry>, seen: set<Key>, from: nat) {
    && |places| == |f|
    && (forall i :: 0 <= i < |f| ==> from <= places[i] && IsFirst(entries, seen, places[i]) && f[i] == entries[places[i]])
    && (forall i, j :: 0 <= i < j < |f| ==> places[i] < places[j])
    && (forall k: nat :: from <= k && IsFirst(entries, seen, k) ==> k in places)
  }

  /** The titles seen once the entries before a place are read. */
  function SeenBy(entries: seq<Entry>, seen: set<Key>, from: nat): set<Key>
    requires from <= |entries|
  {
    if from == 0 then seen
    else SeenBy(entries, seen, from - 1) + if entries[from - 1].manga.key == "" then {} else {entries[from - 1].manga.key}
  }

  lemma {:induction false} SeenByHas(entries: seq<Entry>, seen: set<Key>, from: nat, key: Key)
    requires from <= |entries| && key != ""
    ensures key in SeenBy(entries, seen, from) <==> key in seen || exists i :: 0 <= i < from && entries[i].manga.key == key
  {
    if from > 0 {
      SeenByHas(entries, seen, from - 1, key);
      assert entries[from - 1].manga.key == key ==> exists i :: 0 <= i < from && entries[i].manga.key == key;
    }
  }

  lemma FirstExactly(entries: seq<Entry>, seen: set<Key>, from: nat)
    requires from < |entries|
    ensures var key := entries[from].manga.key;
      IsFirst(entries, seen, from) <==> key != "" && key !in SeenBy(entries, seen, from)
  {
    if entries[from].manga.key != "" {
      SeenByHas(entries, seen, from, entries[from].manga.key);
    }
  }

  lemma FirstsSkip(f: seq<Entry>, places: seq<nat>, entries: seq<Entry>, seen: set<Key>, from: nat)
    requires !IsFirst(entries, seen, from) && Firsts(f, places, entries, seen, from + 1)
    ensures Firsts(f, places, entries, seen, from)
  {
  }

  lemma FirstsCons(f: seq<Entry>, places: seq<nat>, entries: seq<Entry>, seen: set<Key>, from: nat)
    requires IsFirst(entries, seen, from) && Firsts(f, places, entries, seen, from + 1)
    ensures Firsts([entries[from]] + f, [from] + places, entries, seen, from)
  {
    var g, all := [entries[from]] + f, [from] + places;
    forall i | 0 <= i < |g| ensures from <= all[i] && IsFirst(entries, seen, all[i]) && g[i] == entries[all[i]] {
    }
    forall k: nat | from <= k && IsFirst(entries, seen, k) ensures k in all {
      if k == from {
        assert all[0] == from;
      }
    }
  }

  lemma {:induction false} FirstsFrom(entries: seq<Entry>, seen: set<Key>, from: nat) returns (places: seq<nat>)
    requires from <= |entries|
    ensures Firsts(Fresh(entries[from..], SeenBy(entries, seen, from)), places, entries, seen, from)
    decreases |entries| - from
  {
    if from == |entries| {
      places := [];
    } else {
      places := FirstsFrom(entries, seen, from + 1);
      var before, rest := SeenBy(entries, seen, from), entries[from + 1..];
      var f := Fresh(rest, SeenBy(entries, seen, from + 1));
      FirstExactly(entries, seen, from);
      FreshStep(entries[from..], entries[from], rest, before);
      if IsFirst(entries, seen, from) {
        FirstsCons(f, places, entries, seen, from);
        places := [from] + places;
      } else {
        assert SeenBy(entries, seen, from + 1) == before;
        FirstsSkip(f, places, entries, seen, from);
      }
    }
  }

  lemma FreshStep(entries: seq<Entry>, e: Entry, rest: seq<Entry>, seen: set<Key>)
    requires entries == [e] + rest
    ensures Fresh(entries, seen) ==
      if e.manga.key == "" || e.manga.key in seen then Fresh(rest, seen) else [e] + Fresh(rest, seen + {e.manga.key})
  {
    assert entries[1..] == rest;
  }

  /** Of each title not seen before exactly the first entry is kept, in order. */
  lemma FreshIsFirst(entries: seq<Entry>, seen: set<Key>) returns (places: seq<nat>)
    ensures Firsts(Fresh(entries, seen), places, entries, seen, 0)
  {
    places := FirstsFrom(entries, seen, 0);
    assert entries[0..] == entries;
  }

  /** A title is in f. */
  predicate Has(f: seq<Entry>, key: Key) {
    exists i :: 0 <= i < |f| && f[i].manga.key == key
  }

  lemma {:induction false} FirstOf(entries: seq<Entry>, k: nat) returns (first: nat)
    requires k < |entries|
    ensures first <= k && entries[first].manga.key == entries[k].manga.key
    ensures forall i :: 0 <= i < first ==> entries[i].manga.key != entries[k].manga.key
  {
    if i: nat :| i < k && entries[i].manga.key == entries[k].manga.key {
      first := FirstOf(entries, i);
    } else {
      first := k;
    }
  }

  /** No title is left out. */
  lemma FreshHasAll(entries: seq<Entry>, seen: set<Key>, e: Entry)
    requires e in entries && e.manga.key != "" && e.manga.key !in seen
    ensures Has(Fresh(entries, seen), e.manga.key)
  {
    var k :| 0 <= k < |entries| && entries[k] == e;
    var first := FirstOf(entries, k);
    var places := FreshIsFirst(entries, seen);
    assert IsFirst(entries, seen, first);
    var i :| 0 <= i < |places| && places[i] == first;
    assert Fresh(entries, seen)[i].manga.key == e.manga.key;
  }

  // ---- what is ahead of a cursor -----------------------------------------------------------------

  /** Pending titles belong to a catalog that is browsed. */
  predicate Good(env: Env, c: Cursor) {
    c.pending != [] ==> c.catalog < |env.catalogs| && !env.Skips(c.catalog)
  }

  /** Where the walk goes on once the pending titles are read. */
  function NextSpot(c: Cursor): Spot {
    var past := if c.pending == [] then c else PastPage(c.(pending := []));
    Spot(past.catalog, past.page)
  }

  /** The entries still to be read from a cursor, in n more fetches. */
  function Ahead(env: Env, cuts: set<Spot>, c: Cursor, n: nat): seq<Entry> {
    Tagged(c.catalog, c.page, c.pending) + Walk(env, cuts, NextSpot(c).catalog, NextSpot(c).page, n)
  }

  /** The cards still to come. */
  function Coming(env: Env, cuts: set<Spot>, c: Cursor, n: nat): seq<Item> {
    Cards(env, Fresh(Ahead(env, cuts, c, n), c.seen))
  }

  /** What will go wrong. */
  function Wrong(env: Env, cuts: set<Spot>, c: Cursor, n: nat): seq<Problem> {
    Errors(env, cuts, NextSpot(c).catalog, NextSpot(c).page, n)
  }

  /** Taking from the pending titles takes the first of the cards to come. */
  lemma {:induction false} TakeIsPrefix(env: Env, catalog: nat, page: nat, pending: seq<Manga>, rest: seq<Entry>, seen: set<Key>, room: nat)
    ensures var t := Take(env, catalog, pending, seen, room);
      Cards(env, Fresh(Tagged(catalog, page, pending) + rest, seen)) ==
      t.items + Cards(env, Fresh(Tagged(catalog, page, t.rest) + rest, t.seen))
    decreases |pending|
  {
    if pending != [] && room > 0 {
      var m := pending[0];
      var entries := Tagged(catalog, page, pending) + rest;
      assert entries[0] == Entry(catalog, page, m) && entries[1..] == Tagged(catalog, page, pending[1..]) + rest;
      if m.key == "" || m.key in seen {
        TakeIsPrefix(env, catalog, page, pending[1..], rest, seen, room);
      } else {
        TakeIsPrefix(env, catalog, page, pending[1..], rest, seen + {m.key}, if env.Wants(m.key) then room - 1 else room);
        var firsts := Fresh(entries, seen);
        assert firsts[0] == Entry(catalog, page, m) && firsts[1..] == Fresh(entries[1..], seen + {m.key});
      }
    }
  }

  /** Reading the page at hand loses nothing of what is ahead. */
  lemma ReadingIsPrefix(env: Env, cuts: set<Spot>, c: Cursor, room: nat, n: nat)
    requires Good(env, c) && c.pending != []
    ensures var t := Take(env, c.catalog, c.pending, c.seen, room);
      Coming(env, cuts, c, n) == t.items + Coming(env, cuts, Reading(env, c, room), n)
    ensures Good(env, Reading(env, c, room)) && NextSpot(Reading(env, c, room)) == NextSpot(c)
  {
    var t := Take(env, c.catalog, c.pending, c.seen, room);
    var rest := Walk(env, cuts, NextSpot(c).catalog, NextSpot(c).page, n);
    TakeIsPrefix(env, c.catalog, c.page, c.pending, rest, c.seen, room);
    if t.rest == [] {
      assert Tagged(c.catalog, c.page, t.rest) + rest == rest;
      assert Tagged(Reading(env, c, room).catalog, Reading(env, c, room).page, []) + rest == rest;
    }
  }

  /** What r shows are the first of the cards to come from c, and its cursor has the others ahead. */
  ghost predicate Continues(env: Env, cuts: set<Spot>, c: Cursor, r: Shown, n: nat) {
    && r.fetches <= n && Good(env, r.cursor)
    && Coming(env, cuts, c, n) == r.items + Coming(env, cuts, r.cursor, n - r.fetches)
    && Wrong(env, cuts, c, n) == r.problems + Wrong(env, cuts, r.cursor, n - r.fetches)
  }

  lemma Stays(env: Env, cuts: set<Spot>, c: Cursor, n: nat)
    requires Good(env, c)
    ensures Continues(env, cuts, c, Shown(c, [], [], 0), n)
  {
    assert [] + Coming(env, cuts, c, n) == Coming(env, cuts, c, n);
    assert [] + Wrong(env, cuts, c, n) == Wrong(env, cuts, c, n);
  }

  lemma InThree<T>(x: seq<T>, y: seq<T>, z: seq<T>, a: seq<T>, b: seq<T>)
    requires x == a + y && y == b + z
    ensures x == (a + b) + z
  {
  }

  /** One turn and then the rest. */
  lemma TurnThen(env: Env, cuts: set<Spot>, c: Cursor, next: Cursor, items: seq<Item>, problems: seq<Problem>, used: nat, r: Shown, n: nat)
    requires used <= n && Coming(env, cuts, c, n) == items + Coming(env, cuts, next, n - used)
    requires Wrong(env, cuts, c, n) == problems + Wrong(env, cuts, next, n - used)
    requires Continues(env, cuts, next, r, n - used)
    ensures Continues(env, cuts, c, r.After(items, problems, used), n)
  {
    InThree(Coming(env, cuts, c, n), Coming(env, cuts, next, n - used), Coming(env, cuts, r.cursor, n - used - r.fetches), items, r.items);
    InThree(Wrong(env, cuts, c, n), Wrong(env, cuts, next, n - used), Wrong(env, cuts, r.cursor, n - used - r.fetches), problems, r.problems);
  }

  /** Nothing pending: the next entries are the walk's. */
  lemma AheadIsWalk(env: Env, cuts: set<Spot>, c: Cursor, n: nat)
    requires c.pending == []
    ensures Ahead(env, cuts, c, n) == Walk(env, cuts, c.catalog, c.page, n)
  {
    assert [] + Walk(env, cuts, c.catalog, c.page, n) == Walk(env, cuts, c.catalog, c.page, n);
  }

  /** Past a catalog that is skipped or cut off, the walk goes on at the next. */
  lemma PassedOver(env: Env, cuts: set<Spot>, c: Cursor, n: nat, used: nat)
    requires c.pending == [] && c.catalog < |env.catalogs| && used <= n
    requires if env.Skips(c.catalog) then used == 0 else used == 1 && Given(env, cuts, c.catalog, c.page).Failed?
    ensures Coming(env, cuts, c, n) == [] + Coming(env, cuts, NextCatalog(c), n - used) && Good(env, NextCatalog(c))
  {
    AheadIsWalk(env, cuts, c, n);
    AheadIsWalk(env, cuts, NextCatalog(c), n - used);
  }

  /** A fetched page is what the walk gives next. */
  lemma FetchIsNext(env: Env, cuts: set<Spot>, c: Cursor, n: nat)
    requires c.catalog < |env.catalogs| && !env.Skips(c.catalog) && c.pending == [] && n > 0
    requires Spot(c.catalog, c.page) !in cuts
    ensures Coming(env, cuts, c, n) == [] + Coming(env, cuts, Fetched(env, c), n - 1) && Good(env, Fetched(env, c))
  {
    var answer, next := env.answers(c.catalog, c.page), Fetched(env, c);
    AheadIsWalk(env, cuts, c, n);
    if answer.Failed? {
      PassedOver(env, cuts, c, n, 1);
    } else {
      var past := PastPage(c.(hasNext := answer.hasNext));
      var walked := Walk(env, cuts, past.catalog, past.page, n - 1);
      assert Walk(env, cuts, c.catalog, c.page, n) == Tagged(c.catalog, c.page, answer.mangas) + walked;
      if answer.mangas == [] {
        AheadIsWalk(env, cuts, next, n - 1);
        assert [] + walked == walked;
      }
    }
  }

  /** It is told when it fails. */
  lemma FetchIsTold(env: Env, cuts: set<Spot>, c: Cursor, n: nat)
    requires c.catalog < |env.catalogs| && !env.Skips(c.catalog) && c.pending == [] && n > 0
    requires Spot(c.catalog, c.page) !in cuts
    ensures Wrong(env, cuts, c, n) == FetchProblems(env, c) + Wrong(env, cuts, Fetched(env, c), n - 1)
  {
  }

  // ---- where cuts can be ---------------------------------------------------------------------------

  function SpotOf(p: Problem): Spot
    requires !p.NoLatest?
  {
    Spot(p.catalog, p.page)
  }

  /** The pages whose fetch was cut off. */
  function CutsOf(problems: seq<Problem>): set<Spot> {
    set p | p in problems && p.CutOff? :: SpotOf(p)
  }

  lemma CutsJoin(a: seq<Problem>, b: seq<Problem>)
    ensures CutsOf(a + b) == CutsOf(a) + CutsOf(b)
  {
  }

  /** r only goes forward from c, and cuts are on the way. */
  ghost predicate Forward(c: Cursor, r: Shown) {
    && !NextSpot(r.cursor).Before(NextSpot(c))
    && (forall x :: x in CutsOf(r.problems) ==> !x.Before(NextSpot(c)) && x.Before(NextSpot(r.cursor)))
    && (NextSpot(c).page >= 1 ==> NextSpot(r.cursor).page >= 1 && forall x :: x in CutsOf(r.problems) ==> x.page >= 1)
  }

  lemma StaysPut(c: Cursor)
    ensures Forward(c, Shown(c, [], [], 0))
  {
  }

  /** A turn that goes to next, having cut at most the spot it came from, and then the rest. */
  lemma TurnForward(c: Cursor, next: Cursor, items: seq<Item>, problems: seq<Problem>, used: nat, r: Shown)
    requires Forward(next, r) && !NextSpot(next).Before(NextSpot(c))
    requires NextSpot(c).page >= 1 ==> NextSpot(next).page >= 1
    requires CutsOf(problems) == {} || (CutsOf(problems) == {NextSpot(c)} && NextSpot(c).Before(NextSpot(next)))
    ensures Forward(c, r.After(items, problems, used))
  {
    CutsJoin(problems, r.problems);
  }

  lemma FetchForward(env: Env, c: Cursor)
    requires c.pending == []
    ensures NextSpot(c).Before(NextSpot(Fetched(env, c))) && CutsOf(FetchProblems(env, c)) == {}
    ensures NextSpot(c).page >= 1 ==> NextSpot(Fetched(env, c)).page >= 1
  {
  }

  lemma {:induction false} PageForward(env: Env, c: Cursor, room: nat, b: Budget)
    requires Good(env, c)
    ensures Forward(c, Page(env, c, room, b))
    decreases |env.catalogs| - c.catalog, b.left, |c.pending|
  {
    StaysPut(c);
    if c.catalog >= |env.catalogs| || room == 0 {
    } else if env.Skips(c.catalog) {
      PageForward(env, NextCatalog(c), room, b);
      TurnForward(c, NextCatalog(c), [], [NoLatest(c.catalog)], 0, Page(env, NextCatalog(c), room, b));
    } else if c.pending != [] {
      var t, next := Take(env, c.catalog, c.pending, c.seen, room), Reading(env, c, room);
      ReadingIsPrefix(env, {}, c, room, 0);
      if t.rest == [] {
        PageForward(env, next, room - |t.items|, b);
        TurnForward(c, next, t.items, [], 0, Page(env, next, room - |t.items|, b));
      }
    } else if b.left > 0 {
      FetchIsNext(env, {}, c, 1);
      FetchForward(env, c);
      var rest := b.(left := b.left - 1);
      PageForward(env, Fetched(env, c), room, rest);
      TurnForward(c, Fetched(env, c), [], FetchProblems(env, c), 1, Page(env, Fetched(env, c), room, rest));
    } else if b.cut {
      PageForward(env, NextCatalog(c), room, Budget(0, false));
      assert CutsOf([CutOff(c.catalog, c.page)]) == {NextSpot(c)} by {
        assert CutOff(c.catalog, c.page) in [CutOff(c.catalog, c.page)];
      }
      TurnForward(c, NextCatalog(c), [], [CutOff(c.catalog, c.page)], 1, Page(env, NextCatalog(c), room, Budget(0, false)));
    }
  }

  /** From c on, the cuts are those of r and then others after it. */
  ghost predicate Matches(cuts: set<Spot>, c: Cursor, r: Shown) {
    && CutsOf(r.problems) <= cuts
    && forall x :: x in cuts && !x.Before(NextSpot(c)) ==> x in CutsOf(r.problems) || !x.Before(NextSpot(r.cursor))
  }

  lemma RestMatches(cuts: set<Spot>, c: Cursor, next: Cursor, items: seq<Item>, problems: seq<Problem>, used: nat, r: Shown)
    requires Matches(cuts, c, r.After(items, problems, used)) && !NextSpot(next).Before(NextSpot(c))
    requires CutsOf(problems) == {} || (CutsOf(problems) == {NextSpot(c)} && NextSpot(c).Before(NextSpot(next)))
    ensures Matches(cuts, next, r) && CutsOf(problems) <= cuts
  {
    CutsJoin(problems, r.problems);
  }

  /** A page that was fetched is not a cut one. */
  lemma FetchedNotCut(cuts: set<Spot>, c: Cursor, next: Cursor, problems: seq<Problem>, r: Shown)
    requires Forward(next, r) && NextSpot(c).Before(NextSpot(next)) && CutsOf(problems) == {}
    requires Matches(cuts, c, r.After([], problems, 1))
    ensures NextSpot(c) !in cuts
  {
    CutsJoin(problems, r.problems);
  }

  lemma OneCut(c: Cursor)
    requires c.pending == []
    ensures CutsOf([CutOff(c.catalog, c.page)]) == {NextSpot(c)}
  {
    assert CutOff(c.catalog, c.page) in [CutOff(c.catalog, c.page)];
  }

  // ---- a page is a prefix ----------------------------------------------------------------------------

  /** One turn of the loop: where it goes, with what room and budget left, and what it shows. */
  datatype Move = Move(next: Cursor, room: nat, b: Budget, items: seq<Item>, problems: seq<Problem>, used: nat)
  {
    function Rest(env: Env): Shown { Page(env, next, room, b) }
  }

  /** The turn m takes the first of the cards to come, and the page goes on from there. */
  ghost predicate Moves(env: Env, cuts: set<Spot>, c: Cursor, r: Shown, n: nat, m: Move) {
    && r == m.Rest(env).After(m.items, m.problems, m.used)
    && Good(env, m.next) && m.used + m.b.Total() <= n
    && Coming(env, cuts, c, n) == m.items + Coming(env, cuts, m.next, n - m.used)
    && Wrong(env, cuts, c, n) == m.problems + Wrong(env, cuts, m.next, n - m.used)
    && Matches(cuts, m.next, m.Rest(env))
  }

  lemma SkipMoves(env: Env, cuts: set<Spot>, c: Cursor, room: nat, b: Budget, n: nat) returns (m: Move)
    requires Good(env, c) && b.Total() <= n && Matches(cuts, c, Page(env, c, room, b))
    requires c.catalog < |env.catalogs| && env.Skips(c.catalog) && room > 0
    ensures Moves(env, cuts, c, Page(env, c, room, b), n, m) && m.next.catalog > c.catalog
  {
    m := Move(NextCatalog(c), room, b, [], [NoLatest(c.catalog)], 0);
    RestMatches(cuts, c, m.next, [], m.problems, 0, m.Rest(env));
    PassedOver(env, cuts, c, n, 0);
  }

  lemma ReadMoves(env: Env, cuts: set<Spot>, c: Cursor, room: nat, b: Budget, n: nat) returns (m: Move)
    requires Good(env, c) && b.Total() <= n && Matches(cuts, c, Page(env, c, room, b))
    requires c.pending != [] && room > 0
    ensures Moves(env, cuts, c, Page(env, c, room, b), n, m)
    ensures m.b == b && (m.next.catalog > c.catalog || (m.next.catalog == c.catalog && |m.next.pending| < |c.pending|))
  {
    var t := Take(env, c.catalog, c.pending, c.seen, room);
    m := Move(Reading(env, c, room), room - |t.items|, b, t.items, [], 0);
    ReadingIsPrefix(env, cuts, c, room, n);
    if t.rest != [] {
      assert Shown(m.next, [], [], 0).After(t.items, [], 0) == Shown(m.next, t.items, [], 0);
    }
    assert Page(env, c, room, b) == m.Rest(env).After(m.items, [], 0);
    RestMatches(cuts, c, m.next, t.items, [], 0, m.Rest(env));
  }

  lemma FetchMoves(env: Env, cuts: set<Spot>, c: Cursor, room: nat, b: Budget, n: nat) returns (m: Move)
    requires Good(env, c) && b.Total() <= n && Matches(cuts, c, Page(env, c, room, b))
    requires c.catalog < |env.catalogs| && !env.Skips(c.catalog) && c.pending == [] && room > 0 && b.left > 0
    ensures Moves(env, cuts, c, Page(env, c, room, b), n, m) && m.b.left < b.left && m.next.catalog >= c.catalog
  {
    m := Move(Fetched(env, c), room, b.(left := b.left - 1), [], FetchProblems(env, c), 1);
    FetchForward(env, c);
    FetchIsNext(env, {}, c, 1);
    PageForward(env, m.next, room, m.b);
    FetchedNotCut(cuts, c, m.next, m.problems, m.Rest(env));
    RestMatches(cuts, c, m.next, [], m.problems, 1, m.Rest(env));
    FetchIsNext(env, cuts, c, n);
    FetchIsTold(env, cuts, c, n);
  }

  lemma CutMoves(env: Env, cuts: set<Spot>, c: Cursor, room: nat, n: nat) returns (m: Move)
    requires Good(env, c) && 1 <= n && Matches(cuts, c, Page(env, c, room, Budget(0, true)))
    requires c.catalog < |env.catalogs| && !env.Skips(c.catalog) && c.pending == [] && room > 0
    ensures Moves(env, cuts, c, Page(env, c, room, Budget(0, true)), n, m) && m.next.catalog > c.catalog
  {
    m := Move(NextCatalog(c), room, Budget(0, false), [], [CutOff(c.catalog, c.page)], 1);
    OneCut(c);
    RestMatches(cuts, c, m.next, [], m.problems, 1, m.Rest(env));
    PassedOver(env, cuts, c, n, 1);
  }

  lemma MoveThen(env: Env, cuts: set<Spot>, c: Cursor, r: Shown, n: nat, m: Move)
    requires Moves(env, cuts, c, r, n, m) && Continues(env, cuts, m.next, m.Rest(env), n - m.used)
    ensures Continues(env, cuts, c, r, n)
  {
    TurnThen(env, cuts, c, m.next, m.items, m.problems, m.used, m.Rest(env), n);
  }

  /** The catalogs, the room or the time are used up. */
  predicate Stops(env: Env, c: Cursor, room: nat, b: Budget) {
    c.catalog >= |env.catalogs| || room == 0 || (!env.Skips(c.catalog) && c.pending == [] && b == Budget(0, false))
  }

  lemma NextMove(env: Env, cuts: set<Spot>, c: Cursor, room: nat, b: Budget, n: nat) returns (m: Move)
    requires Good(env, c) && b.Total() <= n && Matches(cuts, c, Page(env, c, room, b)) && !Stops(env, c, room, b)
    ensures Moves(env, cuts, c, Page(env, c, room, b), n, m)
    ensures m.next.catalog > c.catalog || (m.next.catalog == c.catalog &&
      (m.b.left < b.left || (m.b.left == b.left && |m.next.pending| < |c.pending|)))
  {
    if env.Skips(c.catalog) {
      m := SkipMoves(env, cuts, c, room, b, n);
    } else if c.pending != [] {
      m := ReadMoves(env, cuts, c, room, b, n);
    } else if b.left > 0 {
      m := FetchMoves(env, cuts, c, room, b, n);
    } else {
      m := CutMoves(env, cuts, c, room, n);
    }
  }

  lemma StopsAt(env: Env, c: Cursor, room: nat, b: Budget)
    requires Stops(env, c, room, b)
    ensures Page(env, c, room, b) == Shown(c, [], [], 0)
  {
  }

  /** The cards of a page are the first of those to come, and its cursor has the others ahead. */
  lemma {:induction false} PageIsPrefix(env: Env, cuts: set<Spot>, c: Cursor, room: nat, b: Budget, n: nat)
    requires Good(env, c) && b.Total() <= n && Matches(cuts, c, Page(env, c, room, b))
    ensures Continues(env, cuts, c, Page(env, c, room, b), n)
    decreases |env.catalogs| - c.catalog, b.left, |c.pending|
  {
    if Stops(env, c, room, b) {
      StopsAt(env, c, room, b);
      Stays(env, cuts, c, n);
    } else {
      var m := NextMove(env, cuts, c, room, b, n);
      PageIsPrefix(env, cuts, m.next, m.room, m.b, n - m.used);
      MoveThen(env, cuts, c, Page(env, c, room, b), n, m);
    }
  }

  /** No request starts more fetches than it may. */
  lemma {:induction false} FetchesAllowed(env: Env, c: Cursor, room: nat, b: Budget)
    ensures Page(env, c, room, b).fetches <= b.Total()
    decreases |env.catalogs| - c.catalog, b.left, |c.pending|
  {
    if c.catalog >= |env.catalogs| || room == 0 {
    } else if env.Skips(c.catalog) {
      FetchesAllowed(env, NextCatalog(c), room, b);
    } else if c.pending != [] {
      var t := Take(env, c.catalog, c.pending, c.seen, room);
      if t.rest == [] {
        FetchesAllowed(env, Reading(env, c, room), room - |t.items|, b);
      }
    } else if b.left > 0 {
      FetchesAllowed(env, Fetched(env, c), room, b.(left := b.left - 1));
    } else if b.cut {
      FetchesAllowed(env, NextCatalog(c), room, Budget(0, false));
    }
  }

  // ---- chains ------------------------------------------------------------------------------------------

  /** A request's page size and time. */
  datatype Request = Request(size: nat, time: Deadline)

  /** The cards of requests that each continue from the cursor before, the last cursor and the fetches made. */
  function Chain(env: Env, c: Cursor, requests: seq<Request>): Shown
    decreases |requests|
  {
    if requests == [] then Shown(c, [], [], 0) else
      var r := Page(env, c, requests[0].size, Allowed(requests[0].time));
      Chain(env, r.cursor, requests[1..]).After(r.items, r.problems, r.fetches)
  }

  lemma PageKeepsGood(env: Env, c: Cursor, room: nat, b: Budget)
    requires Good(env, c)
    ensures Good(env, Page(env, c, room, b).cursor)
  {
    var r := Page(env, c, room, b);
    PageForward(env, c, room, b);
    PageIsPrefix(env, CutsOf(r.problems), c, room, b, b.Total());
  }

  lemma ForwardThen(c: Cursor, r: Shown, rest: Shown)
    requires Forward(c, r) && Forward(r.cursor, rest)
    ensures Forward(c, rest.After(r.items, r.problems, r.fetches))
  {
    CutsJoin(r.problems, rest.problems);
  }

  lemma {:induction false} ChainForward(env: Env, c: Cursor, requests: seq<Request>)
    requires Good(env, c)
    ensures Forward(c, Chain(env, c, requests))
    decreases |requests|
  {
    if requests == [] {
      StaysPut(c);
    } else {
      var b := Allowed(requests[0].time);
      var r := Page(env, c, requests[0].size, b);
      PageForward(env, c, requests[0].size, b);
      PageKeepsGood(env, c, requests[0].size, b);
      ChainForward(env, r.cursor, requests[1..]);
      ForwardThen(c, r, Chain(env, r.cursor, requests[1..]));
    }
  }

  lemma MatchesBoth(cuts: set<Spot>, c: Cursor, r: Shown, rest: Shown)
    requires Forward(c, r) && Forward(r.cursor, rest) && Matches(cuts, c, rest.After(r.items, r.problems, r.fetches))
    ensures Matches(cuts, c, r) && Matches(cuts, r.cursor, rest)
  {
    CutsJoin(r.problems, rest.problems);
  }

  /** The first request of a chain. */
  lemma ChainStarts(env: Env, cuts: set<Spot>, c: Cursor, first: Request, rest: Shown, r: Shown, n: nat)
    requires Good(env, c) && MAX_FETCHES <= n && r == Page(env, c, first.size, Allowed(first.time))
    requires Forward(r.cursor, rest) && Matches(cuts, c, rest.After(r.items, r.problems, r.fetches))
    ensures Continues(env, cuts, c, r, n) && Matches(cuts, r.cursor, rest) && r.fetches <= MAX_FETCHES
  {
    PageForward(env, c, first.size, Allowed(first.time));
    MatchesBoth(cuts, c, r, rest);
    PageIsPrefix(env, cuts, c, first.size, Allowed(first.time), n);
    FetchesAllowed(env, c, first.size, Allowed(first.time));
  }

  /** Any chain shows the first of the cards to come. */
  lemma {:induction false} ChainIsPrefix(env: Env, cuts: set<Spot>, c: Cursor, requests: seq<Request>, n: nat)
    requires Good(env, c) && MAX_FETCHES * |requests| <= n && Matches(cuts, c, Chain(env, c, requests))
    ensures Continues(env, cuts, c, Chain(env, c, requests), n)
    decreases |requests|
  {
    if requests == [] {
      Stays(env, cuts, c, n);
    } else {
      var r := Page(env, c, requests[0].size, Allowed(requests[0].time));
      var rest := Chain(env, r.cursor, requests[1..]);
      PageKeepsGood(env, c, requests[0].size, Allowed(requests[0].time));
      ChainForward(env, r.cursor, requests[1..]);
      ChainStarts(env, cuts, c, requests[0], rest, r, n);
      ChainIsPrefix(env, cuts, r.cursor, requests[1..], n - r.fetches);
      TurnThen(env, cuts, c, r.cursor, r.items, r.problems, r.fetches, rest, n);
    }
  }

  /** No cursor is given out once every catalog is done. */
  predicate Ended(env: Env, c: Cursor) { c.catalog >= |env.catalogs| }

  /** The fetches of a chain that the time cut off. */
  function Cuts(env: Env, requests: seq<Request>): set<Spot> {
    CutsOf(Chain(env, FIRST, requests).problems)
  }

  lemma FirstComing(env: Env, cuts: set<Spot>, n: nat)
    ensures Coming(env, cuts, FIRST, n) == Shelf(env, cuts, n)
  {
    AheadIsWalk(env, cuts, FIRST, n);
  }

  /** Before the end, what was shown so far is the beginning of the shelf without the cut fetches. */
  lemma ShelfBeginsSo(env: Env, requests: seq<Request>, n: nat)
    requires n >= MAX_FETCHES * |requests|
    ensures Chain(env, FIRST, requests).items <= Shelf(env, Cuts(env, requests), n)
  {
    ChainForward(env, FIRST, requests);
    ChainIsPrefix(env, Cuts(env, requests), FIRST, requests, n);
    FirstComing(env, Cuts(env, requests), n);
  }

  /** A chain that runs to its end shows the whole shelf without the cut fetches and all its errors, whatever the page sizes and deadlines. */
  lemma WholeShelf(env: Env, requests: seq<Request>, n: nat)
    requires Ended(env, Chain(env, FIRST, requests).cursor)
    requires n >= MAX_FETCHES * |requests|
    ensures Chain(env, FIRST, requests).items == Shelf(env, Cuts(env, requests), n)
    ensures Chain(env, FIRST, requests).problems == Errors(env, Cuts(env, requests), 0, 1, n)
  {
    var r, cuts := Chain(env, FIRST, requests), Cuts(env, requests);
    ChainForward(env, FIRST, requests);
    ChainIsPrefix(env, cuts, FIRST, requests, n);
    FirstComing(env, cuts, n);
    EndedShowsNothing(env, cuts, r.cursor, n - r.fetches);
    assert r.items + [] == r.items && r.problems + [] == r.problems;
  }

  lemma EndedShowsNothing(env: Env, cuts: set<Spot>, c: Cursor, n: nat)
    requires Ended(env, c) && Good(env, c)
    ensures Coming(env, cuts, c, n) == [] && Wrong(env, cuts, c, n) == []
  {
    AheadIsWalk(env, cuts, c, n);
  }

  /** Two chains that run to their ends, with the same fetches cut off or none, show the same cards. */
  lemma ChainsAgree(env: Env, a: seq<Request>, b: seq<Request>)
    requires Ended(env, Chain(env, FIRST, a).cursor) && Ended(env, Chain(env, FIRST, b).cursor)
    requires Cuts(env, a) == Cuts(env, b)
    ensures Chain(env, FIRST, a).items == Chain(env, FIRST, b).items
  {
    var n := MAX_FETCHES * |a| + MAX_FETCHES * |b|;
    WholeShelf(env, a, n);
    WholeShelf(env, b, n);
  }
}
