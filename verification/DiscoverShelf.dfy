/** What stands on the popular shelf, told by what the catalogs list and the library holds. */
module DiscoverShelf {
  import opened Common
  import opened Discover
  import opened DiscoverWalk
  import opened DiscoverProgress

  // ---- what the catalogs list ------------------------------------------------------------------

  /** The place of a listed title: its catalog, the page and where on the page it stands. */
  datatype Place = Place(catalog: nat, page: nat, index: nat)
  {
    predicate Precedes(other: Place) {
      || catalog < other.catalog
      || (catalog == other.catalog && (page < other.page || (page == other.page && index < other.index)))
    }
  }

  /** The page was had and another follows it. */
  predicate LeadsOn(env: Env, cuts: set<Spot>, catalog: nat, page: nat) {
    Spot(catalog, page) !in cuts && env.answers(catalog, page).Got? && env.answers(catalog, page).hasNext
  }

  /** A catalog that is browsed, and a page of it to which every earlier one, from the first on, leads. */
  ghost predicate Reached(env: Env, cuts: set<Spot>, first: nat, catalog: nat, page: nat) {
    && catalog < |env.catalogs| && (env.latest ==> env.catalogs[catalog].supportsLatest)
    && first <= page && forall p: nat :: first <= p < page ==> LeadsOn(env, cuts, catalog, p)
  }

  /** A title stands there on a page that was had, no earlier than the page given. */
  ghost predicate ListedFrom(env: Env, cuts: set<Spot>, catalog: nat, page: nat, x: Place) {
    && catalog <= x.catalog && Reached(env, cuts, if x.catalog == catalog then page else 1, x.catalog, x.page)
    && Spot(x.catalog, x.page) !in cuts && env.answers(x.catalog, x.page).Got?
    && x.index < |env.answers(x.catalog, x.page).mangas|
  }

  ghost predicate StandsAt(env: Env, e: Entry, x: Place) {
    && e.catalog == x.catalog && e.page == x.page
    && env.answers(x.catalog, x.page).Got? && x.index < |env.answers(x.catalog, x.page).mangas|
    && e.manga == env.answers(x.catalog, x.page).mangas[x.index]
  }

  /** The entries are those of all listed places, in order. */
  ghost predicate Lists(env: Env, cuts: set<Spot>, catalog: nat, page: nat, walk: seq<Entry>, at: seq<Place>) {
    && |at| == |walk| && (forall i :: 0 <= i < |at| ==> StandsAt(env, walk[i], at[i]))
    && (forall i, j :: 0 <= i < j < |at| ==> at[i].Precedes(at[j]))
    && (forall x :: x in at <==> ListedFrom(env, cuts, catalog, page, x))
  }

  /** Nothing more of a catalog that is not browsed, or from a page that was not had. */
  lemma PassedLists(env: Env, cuts: set<Spot>, catalog: nat, page: nat, x: Place)
    requires catalog < |env.catalogs| && (env.Skips(catalog) || Given(env, cuts, catalog, page).Failed?)
    ensures ListedFrom(env, cuts, catalog, page, x) <==> ListedFrom(env, cuts, catalog + 1, 1, x)
  {
    assert !env.Skips(catalog) ==> !LeadsOn(env, cuts, catalog, page);
  }

  predicate OnPage(catalog: nat, page: nat, mangas: seq<Manga>, x: Place) {
    x.catalog == catalog && x.page == page && x.index < |mangas|
  }

  /** A page that was had, and what comes after it. */
  lemma PageLists(env: Env, cuts: set<Spot>, catalog: nat, page: nat, x: Place)
    requires catalog < |env.catalogs| && !env.Skips(catalog) && Given(env, cuts, catalog, page).Got?
    ensures var answer := env.answers(catalog, page);
      ListedFrom(env, cuts, catalog, page, x) <==>
        || OnPage(catalog, page, answer.mangas, x)
        || (if answer.hasNext then ListedFrom(env, cuts, catalog, page + 1, x) else ListedFrom(env, cuts, catalog + 1, 1, x))
  {
    var answer := env.answers(catalog, page);
    if ListedFrom(env, cuts, catalog, page, x) && x.catalog == catalog && x.page > page {
      assert LeadsOn(env, cuts, catalog, page);
    }
    if answer.hasNext && ListedFrom(env, cuts, catalog, page + 1, x) && x.catalog == catalog {
      forall p: nat | page <= p < x.page ensures LeadsOn(env, cuts, catalog, p) {
        assert p == page ==> LeadsOn(env, cuts, catalog, p);
      }
    }
  }

  function PlacesOn(catalog: nat, page: nat, n: nat): (r: seq<Place>)
    ensures |r| == n && forall i :: 0 <= i < n ==> r[i] == Place(catalog, page, i)
  {
    seq(n, i requires 0 <= i < n => Place(catalog, page, i))
  }

  lemma {:induction false} TaggedAt(catalog: nat, page: nat, mangas: seq<Manga>)
    ensures forall i :: 0 <= i < |mangas| ==> Tagged(catalog, page, mangas)[i] == Entry(catalog, page, mangas[i])
  {
    if mangas != [] {
      TaggedAt(catalog, page, mangas[1..]);
    }
  }

  lemma OnPageIn(catalog: nat, page: nat, mangas: seq<Manga>, x: Place)
    ensures x in PlacesOn(catalog, page, |mangas|) <==> OnPage(catalog, page, mangas, x)
  {
    if OnPage(catalog, page, mangas, x) {
      assert PlacesOn(catalog, page, |mangas|)[x.index] == x;
    }
  }

  /** Where the walk goes after a page that was had. */
  function Next(env: Env, catalog: nat, page: nat): Spot {
    var answer := env.answers(catalog, page);
    if answer.Got? && answer.hasNext then Spot(catalog, page + 1) else Spot(catalog + 1, 1)
  }

  lemma PageThenRest(env: Env, cuts: set<Spot>, catalog: nat, page: nat, rest: seq<Entry>, at: seq<Place>, mangas: seq<Manga>)
    requires catalog < |env.catalogs| && !env.Skips(catalog) && Given(env, cuts, catalog, page).Got?
    requires mangas == env.answers(catalog, page).mangas
    requires Lists(env, cuts, Next(env, catalog, page).catalog, Next(env, catalog, page).page, rest, at)
    ensures Lists(env, cuts, catalog, page, Tagged(catalog, page, mangas) + rest, PlacesOn(catalog, page, |mangas|) + at)
  {
    var first, next := PlacesOn(catalog, page, |mangas|), Next(env, catalog, page);
    TaggedAt(catalog, page, mangas);
    forall x ensures x in first + at <==> ListedFrom(env, cuts, catalog, page, x) {
      PageLists(env, cuts, catalog, page, x);
      OnPageIn(catalog, page, mangas, x);
    }
    PagesApart(first, at, catalog, page, next, env, cuts);
  }

  lemma PagesApart(first: seq<Place>, at: seq<Place>, catalog: nat, page: nat, next: Spot, env: Env, cuts: set<Spot>)
    requires first == PlacesOn(catalog, page, |first|)
    requires next == Spot(catalog, page + 1) || next == Spot(catalog + 1, 1)
    requires forall x :: x in at ==> ListedFrom(env, cuts, next.catalog, next.page, x)
    requires forall i, j :: 0 <= i < j < |at| ==> at[i].Precedes(at[j])
    ensures forall i, j :: 0 <= i < j < |first + at| ==> (first + at)[i].Precedes((first + at)[j])
  {
    forall i, j | 0 <= i < j < |first + at| ensures (first + at)[i].Precedes((first + at)[j]) {
      if j >= |first| {
        assert at[j - |first|] in at;
      }
    }
  }

  lemma PassedThenRest(env: Env, cuts: set<Spot>, catalog: nat, page: nat, rest: seq<Entry>, at: seq<Place>)
    requires catalog < |env.catalogs| && (env.Skips(catalog) || Given(env, cuts, catalog, page).Failed?)
    requires Lists(env, cuts, catalog + 1, 1, rest, at)
    ensures Lists(env, cuts, catalog, page, rest, at)
  {
    forall x ensures x in at <==> ListedFrom(env, cuts, catalog, page, x) {
      PassedLists(env, cuts, catalog, page, x);
    }
  }

  /** The walk of a shelf that ends passes all that the catalogs list, page by page. */
  lemma {:induction false} WalkLists(env: Env, cuts: set<Spot>, catalog: nat, page: nat, n: nat) returns (at: seq<Place>)
    requires EndsIn(env, catalog, page, n)
    ensures Lists(env, cuts, catalog, page, Walk(env, cuts, catalog, page, n), at)
    decreases |env.catalogs| - catalog, n
  {
    if catalog >= |env.catalogs| {
      at := [];
    } else if env.Skips(catalog) {
      at := WalkLists(env, cuts, catalog + 1, 1, n);
      PassedThenRest(env, cuts, catalog, page, Walk(env, cuts, catalog + 1, 1, n), at);
    } else {
      EndsInSooner(env, catalog, page, n);
      if Given(env, cuts, catalog, page).Failed? {
        at := WalkLists(env, cuts, catalog + 1, 1, n - 1);
        PassedThenRest(env, cuts, catalog, page, Walk(env, cuts, catalog + 1, 1, n - 1), at);
      } else {
        var next := Next(env, catalog, page);
        at := WalkLists(env, cuts, next.catalog, next.page, n - 1);
        PageThenRest(env, cuts, catalog, page, Walk(env, cuts, next.catalog, next.page, n - 1), at, env.answers(catalog, page).mangas);
        at := PlacesOn(catalog, page, |env.answers(catalog, page).mangas|) + at;
      }
    }
  }

  // ---- what of it is shown ----------------------------------------------------------------------

  /** The library's series of a title, 0 for none. */
  predicate SeriesIs(env: Env, key: Key, id: nat) {
    if key in env.existing then id == env.existing[key] else id == 0
  }

  /** What was asked for: any title, or those with a series in the library, or those without. */
  ghost predicate AskedFor(env: Env, key: Key) {
    env.wanted == Any || exists id :: SeriesIs(env, key, id) && (id != 0 <==> env.wanted == InLibrary)
  }

  lemma WantsIsAskedFor(env: Env, key: Key)
    ensures env.Wants(key) <==> AskedFor(env, key)
  {
    assert SeriesIs(env, key, env.IdOf(key));
  }

  /** The cards are of those places of the entries, with each title's series. */
  ghost predicate CardsAt(env: Env, cards: seq<Item>, entries: seq<Entry>, picks: seq<nat>) {
    && |picks| == |cards| && (forall i, j :: 0 <= i < j < |picks| ==> picks[i] < picks[j])
    && forall i :: 0 <= i < |picks| ==> picks[i] < |entries| && CardIs(env, cards[i], entries[picks[i]])
  }

  ghost predicate CardIs(env: Env, card: Item, e: Entry) {
    card.catalog == e.catalog && card.manga == e.manga && SeriesIs(env, e.manga.key, card.existing)
  }

  lemma {:induction false} CardPicks(env: Env, entries: seq<Entry>, from: nat) returns (picks: seq<nat>)
    requires from <= |entries|
    ensures CardsAt(env, Cards(env, entries[from..]), entries, picks)
    ensures forall k: nat :: k in picks <==> from <= k < |entries| && AskedFor(env, entries[k].manga.key)
    decreases |entries| - from
  {
    picks := [];
    if from < |entries| {
      picks := CardPicks(env, entries, from + 1);
      assert entries[from..][1..] == entries[from + 1..];
      WantsIsAskedFor(env, entries[from].manga.key);
      if env.Wants(entries[from].manga.key) {
        PickFirst(env, Cards(env, entries[from + 1..]), entries, picks, from, CardOf(env, entries[from]));
        picks := [from] + picks;
      }
    }
  }

  lemma PickFirst(env: Env, cards: seq<Item>, entries: seq<Entry>, picks: seq<nat>, from: nat, card: Item)
    requires from < |entries| && CardsAt(env, cards, entries, picks) && CardIs(env, card, entries[from])
    requires forall k: nat :: k in picks <==> from + 1 <= k < |entries| && AskedFor(env, entries[k].manga.key)
    requires AskedFor(env, entries[from].manga.key)
    ensures CardsAt(env, [card] + cards, entries, [from] + picks)
    ensures forall k: nat :: k in [from] + picks <==> from <= k < |entries| && AskedFor(env, entries[k].manga.key)
  {
    forall i, j | 0 <= i < j < |picks| + 1 ensures ([from] + picks)[i] < ([from] + picks)[j] {
      assert picks[j - 1] in picks;
    }
  }

  lemma PickFound(env: Env, firsts: seq<Entry>, inner: seq<nat>, places: seq<nat>, walk: seq<Entry>, k: nat) returns (i: nat)
    requires Firsts(firsts, places, walk, {}, 0) && IsFirst(walk, {}, k) && AskedFor(env, walk[k].manga.key)
    requires forall f: nat :: f in inner <==> f < |firsts| && AskedFor(env, firsts[f].manga.key)
    ensures i < |inner| && inner[i] < |places| && places[inner[i]] == k
  {
    assert k in places;
    var f: nat :| f < |places| && places[f] == k;
    assert f in inner;
    i :| 0 <= i < |inner| && inner[i] == f;
  }

  /** Picks of picks. */
  lemma PicksThrough(env: Env, cards: seq<Item>, firsts: seq<Entry>, inner: seq<nat>, places: seq<nat>, walk: seq<Entry>) returns (picks: seq<nat>)
    requires Firsts(firsts, places, walk, {}, 0) && CardsAt(env, cards, firsts, inner)
    requires forall k: nat :: k in inner <==> k < |firsts| && AskedFor(env, firsts[k].manga.key)
    ensures CardsAt(env, cards, walk, picks)
    ensures forall k: nat :: k in picks <==> IsFirst(walk, {}, k) && AskedFor(env, walk[k].manga.key)
  {
    picks := seq(|inner|, i requires 0 <= i < |inner| => places[inner[i]]);
    forall k: nat ensures k in picks <==> IsFirst(walk, {}, k) && AskedFor(env, walk[k].manga.key) {
      if k in picks {
        var i :| 0 <= i < |picks| && picks[i] == k;
        assert inner[i] in inner;
      }
      if IsFirst(walk, {}, k) && AskedFor(env, walk[k].manga.key) {
        var i := PickFound(env, firsts, inner, places, walk, k);
        assert picks[i] == k;
      }
    }
  }

  /**
   The whole shelf: of all that the catalogs list, page by page, it shows the first listing of each title that was asked
   for, in order, with the title's series in the library.
   */
  lemma ShelfShows(env: Env, requests: seq<Request>, n: nat) returns (walk: seq<Entry>, at: seq<Place>, picks: seq<nat>)
    requires EndsIn(env, 0, 1, n) && Ended(env, Chain(env, FIRST, requests).cursor)
    ensures Lists(env, Cuts(env, requests), 0, 1, walk, at)
    ensures CardsAt(env, Chain(env, FIRST, requests).items, walk, picks)
    ensures forall k: nat :: k in picks <==> IsFirst(walk, {}, k) && AskedFor(env, walk[k].manga.key)
  {
    var cuts, m := Cuts(env, requests), n + MAX_FETCHES * |requests|;
    EndsInMore(env, 0, 1, n, m);
    WholeShelf(env, requests, m);
    walk := Walk(env, cuts, 0, 1, m);
    at := WalkLists(env, cuts, 0, 1, m);
    var places := FreshIsFirst(walk, {});
    var firsts := Fresh(walk, {});
    var inner := CardPicks(env, firsts, 0);
    assert firsts[0..] == firsts;
    picks := PicksThrough(env, Chain(env, FIRST, requests).items, firsts, inner, places, walk);
  }
}
