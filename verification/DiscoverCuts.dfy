/** What it costs a shelf that the time ran out while pages were being fetched. */
module DiscoverCuts {
  import opened Discover
  import opened DiscoverWalk

  /** The walk ends within n fetches. */
  predicate WalkEnds(env: Env, catalog: nat, page: nat, n: nat)
    decreases |env.catalogs| - catalog, n
  {
    if catalog >= |env.catalogs| then true
    else if env.Skips(catalog) then WalkEnds(env, catalog + 1, 1, n)
    else if n == 0 then false
    else
      match env.answers(catalog, page)
      case Failed => WalkEnds(env, catalog + 1, 1, n - 1)
      case Got(_, hasNext) => if hasNext then WalkEnds(env, catalog, page + 1, n - 1) else WalkEnds(env, catalog + 1, 1, n - 1)
  }

  /** Then more fetches add nothing. */
  lemma {:induction false} WalkMore(env: Env, catalog: nat, page: nat, n: nat, m: nat)
    requires WalkEnds(env, catalog, page, n) && n <= m
    ensures WalkEnds(env, catalog, page, m) && Walk(env, {}, catalog, page, m) == Walk(env, {}, catalog, page, n)
    decreases |env.catalogs| - catalog, n
  {
    if catalog >= |env.catalogs| {
    } else if env.Skips(catalog) {
      WalkMore(env, catalog + 1, 1, n, m);
    } else {
      var answer := env.answers(catalog, page);
      if answer.Got? && answer.hasNext {
        WalkMore(env, catalog, page + 1, n - 1, m - 1);
      } else {
        WalkMore(env, catalog + 1, 1, n - 1, m - 1);
      }
    }
  }

  // ---- the entries lost ----------------------------------------------------------------------

  /** A cut page, or one after it in its catalog. */
  predicate LostPage(cuts: set<Spot>, catalog: nat, page: nat) {
    exists x :: x in cuts && x.catalog == catalog && x.page <= page
  }

  predicate Lost(cuts: set<Spot>, e: Entry) { LostPage(cuts, e.catalog, e.page) }

  function Kept(cuts: set<Spot>, entries: seq<Entry>): seq<Entry> {
    if entries == [] then [] else
      (if Lost(cuts, entries[0]) then [] else [entries[0]]) + Kept(cuts, entries[1..])
  }

  lemma {:induction false} KeptMembers(cuts: set<Spot>, entries: seq<Entry>)
    ensures forall e :: e in Kept(cuts, entries) ==> e in entries && !Lost(cuts, e)
  {
    if entries != [] {
      KeptMembers(cuts, entries[1..]);
    }
  }

  lemma {:induction false} KeptJoin(cuts: set<Spot>, a: seq<Entry>, b: seq<Entry>)
    ensures Kept(cuts, a + b) == Kept(cuts, a) + Kept(cuts, b)
  {
    if a == [] {
      assert a + b == b;
    } else {
      assert (a + b)[0] == a[0] && (a + b)[1..] == a[1..] + b;
      KeptJoin(cuts, a[1..], b);
    }
  }

  lemma {:induction false} KeptTagged(cuts: set<Spot>, catalog: nat, page: nat, mangas: seq<Manga>)
    ensures Kept(cuts, Tagged(catalog, page, mangas)) == if LostPage(cuts, catalog, page) then [] else Tagged(catalog, page, mangas)
  {
    if mangas != [] {
      var all := Tagged(catalog, page, mangas);
      assert all[0] == Entry(catalog, page, mangas[0]) && all[1..] == Tagged(catalog, page, mangas[1..]);
      KeptTagged(cuts, catalog, page, mangas[1..]);
    }
  }

  /** After a cut nothing of the catalog is kept. */
  lemma {:induction false} CatalogLost(env: Env, cuts: set<Spot>, catalog: nat, page: nat, n: nat) returns (m: nat)
    requires WalkEnds(env, catalog, page, n) && catalog < |env.catalogs| && !env.Skips(catalog)
    requires LostPage(cuts, catalog, page)
    ensures m < n && WalkEnds(env, catalog + 1, 1, m)
    ensures Kept(cuts, Walk(env, {}, catalog, page, n)) == Kept(cuts, Walk(env, {}, catalog + 1, 1, m))
    decreases n
  {
    var answer := env.answers(catalog, page);
    m := n - 1;
    if answer.Got? {
      var rest := if answer.hasNext then Walk(env, {}, catalog, page + 1, n - 1) else Walk(env, {}, catalog + 1, 1, n - 1);
      KeptJoin(cuts, Tagged(catalog, page, answer.mangas), rest);
      KeptTagged(cuts, catalog, page, answer.mangas);
      if answer.hasNext {
        m := CatalogLost(env, cuts, catalog, page + 1, n - 1);
      }
    }
  }

  /** No cut of the catalog is behind the page. */
  ghost predicate CutsFrom(cuts: set<Spot>, catalog: nat, page: nat) {
    forall x :: x in cuts ==> x.page >= 1 && (x.catalog == catalog ==> x.page >= page)
  }

  /** With fetches cut off, the walk keeps what is not lost. */
  lemma {:induction false} CutWalk(env: Env, cuts: set<Spot>, catalog: nat, page: nat, n: nat)
    requires WalkEnds(env, catalog, page, n) && CutsFrom(cuts, catalog, page)
    ensures Walk(env, cuts, catalog, page, n) == Kept(cuts, Walk(env, {}, catalog, page, n))
    decreases |env.catalogs| - catalog, n
  {
    if catalog >= |env.catalogs| {
    } else if env.Skips(catalog) {
      CutWalk(env, cuts, catalog + 1, 1, n);
    } else if Spot(catalog, page) in cuts {
      var m := CatalogLost(env, cuts, catalog, page, n);
      WalkMore(env, catalog + 1, 1, m, n - 1);
      CutWalk(env, cuts, catalog + 1, 1, n - 1);
    } else {
      UncutPage(env, cuts, catalog, page, n);
    }
  }

  lemma {:induction false} UncutPage(env: Env, cuts: set<Spot>, catalog: nat, page: nat, n: nat)
    requires WalkEnds(env, catalog, page, n) && CutsFrom(cuts, catalog, page)
    requires catalog < |env.catalogs| && !env.Skips(catalog) && Spot(catalog, page) !in cuts
    ensures Walk(env, cuts, catalog, page, n) == Kept(cuts, Walk(env, {}, catalog, page, n))
    decreases |env.catalogs| - catalog, n, 0
  {
    var answer := env.answers(catalog, page);
    if answer.Failed? || !answer.hasNext {
      CutWalk(env, cuts, catalog + 1, 1, n - 1);
    } else {
      CutWalk(env, cuts, catalog, page + 1, n - 1);
    }
    if answer.Got? {
      var rest := if answer.hasNext then Walk(env, {}, catalog, page + 1, n - 1) else Walk(env, {}, catalog + 1, 1, n - 1);
      KeptJoin(cuts, Tagged(catalog, page, answer.mangas), rest);
      KeptTagged(cuts, catalog, page, answer.mangas);
    }
  }

  // ---- the cards lost ------------------------------------------------------------------------

  /** What was seen on the longer list only is wanted by nobody. */
  ghost predicate UnwantedOnly(env: Env, fewer: set<Key>, more: set<Key>) {
    fewer <= more && forall key :: key in more && key !in fewer ==> !env.Wants(key)
  }

  /** None of the entries that make cards is lost. */
  ghost predicate CardsKept(env: Env, cuts: set<Spot>, f: seq<Entry>) {
    forall i :: 0 <= i < |f| && env.Wants(f[i].manga.key) ==> !Lost(cuts, f[i])
  }

  lemma CardsKeptTail(env: Env, cuts: set<Spot>, e: Entry, f: seq<Entry>)
    requires CardsKept(env, cuts, [e] + f)
    ensures CardsKept(env, cuts, f) && (env.Wants(e.manga.key) ==> !Lost(cuts, e))
  {
    assert ([e] + f)[0] == e;
    forall i | 0 <= i < |f| && env.Wants(f[i].manga.key) ensures !Lost(cuts, f[i]) {
      assert ([e] + f)[i + 1] == f[i];
    }
  }

  /** If every card's entry is kept, dropping the lost entries leaves the cards as they are. */
  lemma {:induction false} SameCards(env: Env, cuts: set<Spot>, entries: seq<Entry>, fewer: set<Key>, more: set<Key>)
    requires UnwantedOnly(env, fewer, more) && CardsKept(env, cuts, Fresh(entries, more))
    ensures Cards(env, Fresh(Kept(cuts, entries), fewer)) == Cards(env, Fresh(entries, more))
    decreases |entries|
  {
    if entries != [] {
      var e, rest, kept := entries[0], entries[1..], Kept(cuts, entries[1..]);
      var key := e.manga.key;
      var isFresh := key != "" && key !in more;
      assert entries == [e] + rest;
      FreshStep(entries, e, rest, more);
      if isFresh {
        CardsKeptTail(env, cuts, e, Fresh(rest, more + {key}));
        CardsStep(env, e, Fresh(rest, more + {key}));
      }
      assert Kept(cuts, entries) == if Lost(cuts, e) then kept else [e] + kept;
      if !Lost(cuts, e) {
        FreshStep([e] + kept, e, kept, fewer);
        if key != "" && key !in fewer {
          CardsStep(env, e, Fresh(kept, fewer + {key}));
        }
      }
      var keptFewer := if Lost(cuts, e) || key == "" || key in fewer then fewer else fewer + {key};
      SameCards(env, cuts, rest, keptFewer, if isFresh then more + {key} else more);
    }
  }

  lemma CardsStep(env: Env, e: Entry, f: seq<Entry>)
    ensures Cards(env, [e] + f) == (if env.Wants(e.manga.key) then [CardOf(env, e)] else []) + Cards(env, f)
  {
    assert ([e] + f)[1..] == f;
  }

  // ---- exactly -------------------------------------------------------------------------------

  function SpotAt(e: Entry): Spot { Spot(e.catalog, e.page) }

  /** No entry stands after one of a later page. */
  ghost predicate PagesInOrder(entries: seq<Entry>) {
    forall i, j :: 0 <= i < j < |entries| ==> !SpotAt(entries[j]).Before(SpotAt(entries[i]))
  }

  ghost predicate AllFrom(entries: seq<Entry>, spot: Spot) {
    forall i :: 0 <= i < |entries| ==> !SpotAt(entries[i]).Before(spot)
  }

  lemma {:induction false} TaggedHere(catalog: nat, page: nat, mangas: seq<Manga>)
    ensures forall i :: 0 <= i < |mangas| ==> SpotAt(Tagged(catalog, page, mangas)[i]) == Spot(catalog, page)
  {
    if mangas != [] {
      TaggedHere(catalog, page, mangas[1..]);
    }
  }

  lemma JoinInOrder(a: seq<Entry>, b: seq<Entry>, spot: Spot, next: Spot)
    requires forall i :: 0 <= i < |a| ==> SpotAt(a[i]) == spot
    requires PagesInOrder(b) && AllFrom(b, next) && spot.Before(next)
    ensures PagesInOrder(a + b) && AllFrom(a + b, spot)
  {
  }

  lemma {:induction false} WalkInOrder(env: Env, catalog: nat, page: nat, n: nat)
    ensures PagesInOrder(Walk(env, {}, catalog, page, n)) && AllFrom(Walk(env, {}, catalog, page, n), Spot(catalog, page))
    decreases |env.catalogs| - catalog, n
  {
    if catalog >= |env.catalogs| {
    } else if env.Skips(catalog) {
      WalkInOrder(env, catalog + 1, 1, n);
    } else if n > 0 {
      var answer := env.answers(catalog, page);
      if answer.Got? && answer.hasNext {
        WalkInOrder(env, catalog, page + 1, n - 1);
        TaggedHere(catalog, page, answer.mangas);
        JoinInOrder(Tagged(catalog, page, answer.mangas), Walk(env, {}, catalog, page + 1, n - 1), Spot(catalog, page), Spot(catalog, page + 1));
      } else {
        WalkInOrder(env, catalog + 1, 1, n - 1);
        if answer.Got? {
          TaggedHere(catalog, page, answer.mangas);
          JoinInOrder(Tagged(catalog, page, answer.mangas), Walk(env, {}, catalog + 1, 1, n - 1), Spot(catalog, page), Spot(catalog + 1, 1));
        }
      }
    }
  }

  lemma {:induction false} CardsMembers(env: Env, f: seq<Entry>, item: Item)
    ensures item in Cards(env, f) <==> exists i :: 0 <= i < |f| && env.Wants(f[i].manga.key) && CardOf(env, f[i]) == item
  {
    if f != [] {
      assert f == [f[0]] + f[1..];
      CardsMembers(env, f[1..], item);
      if i :| 0 <= i < |f| && env.Wants(f[i].manga.key) && CardOf(env, f[i]) == item {
        assert i > 0 ==> f[1..][i - 1] == f[i];
      }
      if i :| 0 <= i < |f[1..]| && env.Wants(f[1..][i].manga.key) && CardOf(env, f[1..][i]) == item {
        assert f[i + 1] == f[1..][i];
      }
    }
  }

  /** An entry of the catalog that is not lost stands before the cut, and so has another title than a lost first one. */
  lemma OtherTitle(cuts: set<Spot>, entries: seq<Entry>, k: nat, j: nat)
    requires PagesInOrder(entries) && IsFirst(entries, {}, k) && Lost(cuts, entries[k])
    requires j < |entries| && !Lost(cuts, entries[j]) && entries[j].catalog == entries[k].catalog
    ensures entries[j].manga.key != entries[k].manga.key
  {
    var x :| x in cuts && x.catalog == entries[k].catalog && x.page <= entries[k].page;
    assert entries[j].page < x.page;
    assert SpotAt(entries[j]).Before(SpotAt(entries[k]));
    assert j < k;
  }

  /** So its card is not on the cut shelf. */
  lemma LostCardMissing(env: Env, cuts: set<Spot>, entries: seq<Entry>, k: nat)
    requires PagesInOrder(entries) && IsFirst(entries, {}, k) && Lost(cuts, entries[k])
    ensures CardOf(env, entries[k]) !in Cards(env, Fresh(Kept(cuts, entries), {}))
  {
    var kept := Kept(cuts, entries);
    var f := Fresh(kept, {});
    var places := FreshIsFirst(kept, {});
    KeptMembers(cuts, entries);
    forall i | 0 <= i < |f| ensures CardOf(env, f[i]) != CardOf(env, entries[k]) {
      assert f[i] in kept;
      var j :| 0 <= j < |entries| && entries[j] == f[i];
      if entries[j].catalog == entries[k].catalog {
        OtherTitle(cuts, entries, k, j);
      }
    }
    CardsMembers(env, f, CardOf(env, entries[k]));
  }

  /** Dropping the lost entries leaves the cards as they are exactly when no card's entry is lost. */
  lemma SameCardsExactly(env: Env, cuts: set<Spot>, entries: seq<Entry>)
    requires PagesInOrder(entries)
    ensures Cards(env, Fresh(Kept(cuts, entries), {})) == Cards(env, Fresh(entries, {})) <==> CardsKept(env, cuts, Fresh(entries, {}))
  {
    var f := Fresh(entries, {});
    if CardsKept(env, cuts, f) {
      SameCards(env, cuts, entries, {}, {});
    } else {
      var i :| 0 <= i < |f| && env.Wants(f[i].manga.key) && Lost(cuts, f[i]);
      var places := FreshIsFirst(entries, {});
      LostCardMissing(env, cuts, entries, places[i]);
      CardsMembers(env, f, CardOf(env, f[i]));
    }
  }

  /**
   A chain that runs to its end shows the shelf exactly when every card of the shelf has its entry on a page
   before any cut of its catalog.
   */
  lemma WholeShelfExactly(env: Env, requests: seq<Request>, n: nat)
    requires Ended(env, Chain(env, FIRST, requests).cursor)
    requires n >= MAX_FETCHES * |requests| && WalkEnds(env, 0, 1, n)
    ensures Chain(env, FIRST, requests).items == Shelf(env, {}, n) <==>
      CardsKept(env, Cuts(env, requests), Fresh(Walk(env, {}, 0, 1, n), {}))
  {
    var cuts := Cuts(env, requests);
    WholeShelf(env, requests, n);
    ChainForward(env, FIRST, requests);
    CutWalk(env, cuts, 0, 1, n);
    WalkInOrder(env, 0, 1, n);
    SameCardsExactly(env, cuts, Walk(env, {}, 0, 1, n));
  }

  /** With no fetch cut off, a chain that runs to its end shows the shelf. */
  lemma UncutIsWhole(env: Env, requests: seq<Request>, n: nat)
    requires Ended(env, Chain(env, FIRST, requests).cursor)
    requires n >= MAX_FETCHES * |requests| && Cuts(env, requests) == {}
    ensures Chain(env, FIRST, requests).items == Shelf(env, {}, n)
  {
    WholeShelf(env, requests, n);
  }

  /** One catalog of one title, and a request whose time runs out inside its first fetch: the shelf stays empty. */
  lemma CutShelfEmpty() returns (env: Env, request: Request)
    ensures Ended(env, Chain(env, FIRST, [request]).cursor) && WalkEnds(env, 0, 1, MAX_FETCHES)
    ensures Chain(env, FIRST, [request]).items == [] && |Shelf(env, {}, MAX_FETCHES)| == 1
  {
    var m := Manga("a", "/a");
    env := Env([Catalog("c", true)], false, (catalog, page) => Got([m], false), map[], Any);
    request := Request(1, Deadline(0, true));
    var c := NextCatalog(FIRST);
    assert Page(env, c, 1, Budget(0, false)) == Shown(c, [], [], 0);
    assert Page(env, FIRST, 1, Budget(0, true)) == Shown(c, [], [], 0).After([], [CutOff(0, 1)], 1);
    assert [request][1..] == [];
    assert Walk(env, {}, 0, 1, MAX_FETCHES) == Tagged(0, 1, [m]) + Walk(env, {}, 1, 1, MAX_FETCHES - 1);
    assert Tagged(0, 1, [m]) == [Entry(0, 1, m)] + Tagged(0, 1, []);
    var e := Entry(0, 1, m);
    assert Walk(env, {}, 0, 1, MAX_FETCHES) == [e];
    FreshStep([e], e, [], {});
    CardsStep(env, e, []);
  }
}
