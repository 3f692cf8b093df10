/** The popular shelf: pages of a deduplicating walk over the pages of several catalogs. */
module Discover {

  type Key = string

  /** A listed title; key is its normalized title, "" for none. */
  datatype Manga = Manga(key: Key, url: string)

  datatype Answer = Failed | Got(mangas: seq<Manga>, hasNext: bool)

  datatype Catalog = Catalog(name: string, supportsLatest: bool)

  datatype Membership = Any | InLibrary | NotInLibrary

  /** A request's fixed surroundings: catalogs in order, what each answers for a page, and the visible library. */
  datatype Env = Env(
    catalogs: seq<Catalog>, latest: bool, answers: (nat, nat) -> Answer, existing: map<Key, nat>, wanted: Membership)
  {
    function IdOf(key: Key): nat { if key in existing then existing[key] else 0 }

    predicate Wants(key: Key) {
      match wanted
      case Any => true
      case InLibrary => IdOf(key) != 0
      case NotInLibrary => IdOf(key) == 0
    }

    predicate Skips(catalog: nat) {
      catalog < |catalogs| && latest && !catalogs[catalog].supportsLatest
    }
  }

  /** The cursor's state. Pending titles belong to the current catalog and page. */
  datatype Cursor = Cursor(catalog: nat, page: nat, pending: seq<Manga>, hasNext: bool, seen: set<Key>)

  const FIRST: Cursor := Cursor(0, 1, [], false, {})

  const MAX_FETCHES: nat := 8

  datatype Item = Item(catalog: nat, manga: Manga, existing: nat)

  /** CutOff: the time ran out while the page was being fetched. */
  datatype Problem = NoLatest(catalog: nat) | FetchFailed(catalog: nat, page: nat) | CutOff(catalog: nat, page: nat)

  /** How many fetches the time lets end, and whether it then runs out inside the next one or between two. */
  datatype Deadline = Deadline(fetches: nat, inside: bool)

  /** What is left of that and of the eight fetches. */
  datatype Budget = Budget(left: nat, cut: bool)
  {
    function Total(): nat { left + if cut then 1 else 0 }
  }

  function Allowed(time: Deadline): Budget {
    if time.fetches < MAX_FETCHES then Budget(time.fetches, time.inside) else Budget(MAX_FETCHES, false)
  }

  /** What a request gives: the next cursor state, the cards, the errors, and how many pages it fetched. */
  datatype Shown = Shown(cursor: Cursor, items: seq<Item>, problems: seq<Problem>, fetches: nat)
  {
    function After(items: seq<Item>, problems: seq<Problem>, fetches: nat): Shown {
      Shown(cursor, items + this.items, problems + this.problems, fetches + this.fetches)
    }
  }

  // ---- one request ----------------------------------------------------------------------------

  datatype Taken = Taken(items: seq<Item>, rest: seq<Manga>, seen: set<Key>)

  /** The inner loop: pending titles until the page is full. */
  function Take(env: Env, catalog: nat, pending: seq<Manga>, seen: set<Key>, room: nat): (t: Taken)
    ensures |t.items| <= room && (t.rest == [] || |t.items| == room) && |t.rest| <= |pending|
    ensures pending != [] && room > 0 ==> |t.rest| < |pending|
    decreases |pending|
  {
    if pending == [] || room == 0 then Taken([], pending, seen) else
      var m := pending[0];
      if m.key == "" || m.key in seen then Take(env, catalog, pending[1..], seen, room)
      else if !env.Wants(m.key) then Take(env, catalog, pending[1..], seen + {m.key}, room)
      else
        var t := Take(env, catalog, pending[1..], seen + {m.key}, room - 1);
        t.(items := [Item(catalog, m, env.IdOf(m.key))] + t.items)
  }

  function NextCatalog(c: Cursor): Cursor {
    c.(catalog := c.catalog + 1, page := 1)
  }

  /** Past a page whose titles are all read. */
  function PastPage(c: Cursor): Cursor {
    if c.pending != [] then c else if c.hasNext then c.(page := c.page + 1) else NextCatalog(c)
  }

  function Reading(env: Env, c: Cursor, room: nat): Cursor {
    var t := Take(env, c.catalog, c.pending, c.seen, room);
    PastPage(c.(pending := t.rest, seen := t.seen))
  }

  /** discoverPopularPage, with room for so many cards. */
  function Page(env: Env, c: Cursor, room: nat, b: Budget): Shown
    decreases |env.catalogs| - c.catalog, b.left, |c.pending|
  {
    if c.catalog >= |env.catalogs| || room == 0 then Shown(c, [], [], 0)
    else if env.Skips(c.catalog) then Page(env, NextCatalog(c), room, b).After([], [NoLatest(c.catalog)], 0)
    else if c.pending != [] then
      var t := Take(env, c.catalog, c.pending, c.seen, room);
      if t.rest != [] then Shown(Reading(env, c, room), t.items, [], 0)
      else Page(env, Reading(env, c, room), room - |t.items|, b).After(t.items, [], 0)
    else if b.left == 0 && !b.cut then Shown(c, [], [], 0)
    else if b.left == 0 then
      Page(env, NextCatalog(c), room, Budget(0, false)).After([], [CutOff(c.catalog, c.page)], 1)
    else
      Page(env, Fetched(env, c), room, b.(left := b.left - 1)).After([], FetchProblems(env, c), 1)
  }

  /** After a fetch that was not cut off. */
  function Fetched(env: Env, c: Cursor): Cursor {
    match env.answers(c.catalog, c.page)
    case Failed => NextCatalog(c)
    case Got(mangas, hasNext) => PastPage(c.(pending := mangas, hasNext := hasNext))
  }

  function FetchProblems(env: Env, c: Cursor): seq<Problem> {
    if env.answers(c.catalog, c.page).Failed? then [FetchFailed(c.catalog, c.page)] else []
  }

  // ---- the loops, over a state whose seen titles are shared by reference --------------------------

  /** A map of titles seen, as the cursor state points to it. */
  class Titles {
    var keys: set<Key>

    constructor (keys: set<Key>)
      ensures this.keys == keys
    {
      this.keys := keys;
    }
  }

  datatype State = State(catalog: nat, page: nat, pending: seq<Manga>, hasNext: bool, seen: Titles)

  function View(s: State): Cursor
    reads s.seen
  {
    Cursor(s.catalog, s.page, s.pending, s.hasNext, s.seen.keys)
  }

  method TakePending(env: Env, catalog: nat, pending: seq<Manga>, seen: Titles, room: nat)
    returns (items: seq<Item>, rest: seq<Manga>)
    modifies seen
    ensures Taken(items, rest, seen.keys) == Take(env, catalog, pending, old(seen.keys), room)
  {
    items, rest := [], pending;
    ghost var before := seen.keys;
    while rest != [] && |items| < room
      invariant |items| <= room
      invariant Take(env, catalog, pending, before, room)
        == Prefixed(items, Take(env, catalog, rest, seen.keys, room - |items|))
      decreases |rest|
    {
      var m := rest[0];
      rest := rest[1..];
      if m.key != "" && m.key !in seen.keys {
        seen.keys := seen.keys + {m.key};
        if env.Wants(m.key) {
          PrefixedOne(items, Item(catalog, m, env.IdOf(m.key)), Take(env, catalog, rest, seen.keys, room - |items| - 1));
          items := items + [Item(catalog, m, env.IdOf(m.key))];
        }
      }
    }
  }

  function Prefixed(items: seq<Item>, t: Taken): Taken {
    t.(items := items + t.items)
  }

  lemma PrefixedOne(items: seq<Item>, item: Item, t: Taken)
    ensures Prefixed(items, t.(items := [item] + t.items)) == Prefixed(items + [item], t)
  {
  }

  /** The outer loop. */
  method PopularPage(env: Env, start: State, pageSize: nat, time: Deadline)
    returns (s: State, items: seq<Item>, problems: seq<Problem>, fetches: nat)
    modifies start.seen
    ensures s.seen == start.seen
    ensures Shown(View(s), items, problems, fetches) == Page(env, old(View(start)), pageSize, Allowed(time))
  {
    var b := Allowed(time);
    ghost var first := View(start);
    s, items, problems, fetches := start, [], [], 0;
    Starting(env, first, pageSize, b);
    while !Finished(env, pageSize, b, s, |items|)
      invariant s.seen == start.seen
      invariant SoFar(env, first, pageSize, Allowed(time), b, Shown(View(s), items, problems, fetches))
      decreases |env.catalogs| - s.catalog, b.left, |s.pending|
    {
      s, b, items, problems, fetches := NextTurn(env, first, pageSize, Allowed(time), b, s, items, problems, fetches);
    }
    Finishing(env, first, pageSize, Allowed(time), b, Shown(View(s), items, problems, fetches));
  }

  method NextTurn(env: Env, ghost first: Cursor, size: nat, ghost all: Budget, b: Budget,
                  s: State, items: seq<Item>, problems: seq<Problem>, fetches: nat)
    returns (next: State, left: Budget, items': seq<Item>, problems': seq<Problem>, fetches': nat)
    requires !Finished(env, size, b, s, |items|)
    requires SoFar(env, first, size, all, b, Shown(View(s), items, problems, fetches))
    modifies s.seen
    ensures next.seen == s.seen
    ensures SoFar(env, first, size, all, left, Shown(View(next), items', problems', fetches'))
    ensures next.catalog > s.catalog || (next.catalog == s.catalog &&
      (left.left < b.left || (left.left == b.left && |next.pending| < |s.pending|)))
  {
    var more, others, used;
    ghost var was := Shown(View(s), items, problems, fetches);
    next, left, more, others, used := PopularTurn(env, s, size - |items|, b);
    TurnAdds(env, first, size, all, b, was, View(next), left, more, others, used);
    items', problems', fetches' := items + more, problems + others, fetches + used;
  }

  /** The catalogs, the room or the fetches are used up. */
  predicate Finished(env: Env, size: nat, b: Budget, s: State, shown: nat) {
    || s.catalog >= |env.catalogs| || shown >= size
    || (!env.Skips(s.catalog) && s.pending == [] && b == Budget(0, false))
  }

  /** The rest of the page, from where the loop is, completes it. */
  ghost predicate SoFar(env: Env, cursor: Cursor, size: nat, all: Budget, b: Budget, s: Shown) {
    && |s.items| <= size
    && Page(env, cursor, size, all) == Page(env, s.cursor, size - |s.items|, b).After(s.items, s.problems, s.fetches)
  }

  /** A turn shows more, and the page goes on from next. */
  ghost predicate Onwards(env: Env, c: Cursor, room: nat, b: Budget,
                          next: Cursor, left: Budget, more: seq<Item>, others: seq<Problem>, used: nat)
  {
    |more| <= room && Page(env, c, room, b) == Page(env, next, room - |more|, left).After(more, others, used)
  }

  lemma Starting(env: Env, cursor: Cursor, size: nat, b: Budget)
    ensures SoFar(env, cursor, size, b, b, Shown(cursor, [], [], 0))
  {
    var r := Page(env, cursor, size, b);
    assert r.After([], [], 0) == r;
  }

  /** Then nothing is added. */
  lemma Finishing(env: Env, cursor: Cursor, size: nat, all: Budget, b: Budget, s: Shown)
    requires SoFar(env, cursor, size, all, b, s)
    requires s.cursor.catalog >= |env.catalogs| || |s.items| >= size ||
      (!env.Skips(s.cursor.catalog) && s.cursor.pending == [] && b == Budget(0, false))
    ensures Page(env, cursor, size, all) == s
  {
    assert Page(env, s.cursor, size - |s.items|, b) == Shown(s.cursor, [], [], 0);
    assert Shown(s.cursor, [], [], 0).After(s.items, s.problems, s.fetches) == s;
  }

  lemma TurnAdds(env: Env, cursor: Cursor, size: nat, all: Budget, b: Budget, s: Shown,
                 next: Cursor, left: Budget, more: seq<Item>, others: seq<Problem>, used: nat)
    requires SoFar(env, cursor, size, all, b, s) && |s.items| + |more| <= size
    requires Onwards(env, s.cursor, size - |s.items|, b, next, left, more, others, used)
    ensures SoFar(env, cursor, size, all, left, Shown(next, s.items + more, s.problems + others, s.fetches + used))
  {
    Joined(s.items, s.problems, s.fetches, more, others, used, Page(env, next, size - |s.items| - |more|, left));
  }

  lemma Joined(items: seq<Item>, problems: seq<Problem>, fetches: nat, more: seq<Item>, others: seq<Problem>, n: nat, r: Shown)
    ensures r.After(more, others, n).After(items, problems, fetches) == r.After(items + more, problems + others, fetches + n)
  {
  }

  /** One turn of the outer loop. */
  method PopularTurn(env: Env, s: State, room: nat, b: Budget)
    returns (next: State, left: Budget, more: seq<Item>, others: seq<Problem>, used: nat)
    requires s.catalog < |env.catalogs| && room > 0
    requires env.Skips(s.catalog) || s.pending != [] || b != Budget(0, false)
    modifies s.seen
    ensures next.seen == s.seen && |more| <= room
    ensures Onwards(env, old(View(s)), room, b, View(next), left, more, others, used)
    ensures next.catalog > s.catalog || (next.catalog == s.catalog &&
      (left.left < b.left || (left.left == b.left && |next.pending| < |s.pending|)))
  {
    if env.Skips(s.catalog) || s.pending == [] {
      more := [];
      next, left, others, used := FetchTurn(env, s, room, b);
    } else {
      left, others, used := b, [], 0;
      next, more := ReadTurn(env, s, room, b);
    }
  }

  method FetchTurn(env: Env, s: State, room: nat, b: Budget)
    returns (next: State, left: Budget, others: seq<Problem>, used: nat)
    requires s.catalog < |env.catalogs| && room > 0
    requires env.Skips(s.catalog) || (s.pending == [] && b != Budget(0, false))
    ensures next.seen == s.seen
    ensures Onwards(env, View(s), room, b, View(next), left, [], others, used)
    ensures next.catalog > s.catalog || (next.catalog == s.catalog && left.left < b.left)
  {
    var past := s.(catalog := s.catalog + 1, page := 1);
    assert View(past) == NextCatalog(View(s));
    if env.Skips(s.catalog) {
      return past, b, [NoLatest(s.catalog)], 0;
    }
    if b.left == 0 {
      return past, Budget(0, false), [CutOff(s.catalog, s.page)], 1;
    }
    left := b.(left := b.left - 1);
    var answer := env.answers(s.catalog, s.page);
    if answer.Failed? {
      return past, left, [FetchFailed(s.catalog, s.page)], 1;
    }
    next := Onward(s.(pending := answer.mangas, hasNext := answer.hasNext));
    assert View(next) == Fetched(env, View(s));
    return next, left, [], 1;
  }

  method ReadTurn(env: Env, s: State, room: nat, b: Budget) returns (next: State, more: seq<Item>)
    requires s.catalog < |env.catalogs| && room > 0 && !env.Skips(s.catalog) && s.pending != []
    modifies s.seen
    ensures next.seen == s.seen && |more| <= room
    ensures Onwards(env, old(View(s)), room, b, View(next), b, more, [], 0)
    ensures next.catalog > s.catalog || (next.catalog == s.catalog && |next.pending| < |s.pending|)
  {
    ghost var before := View(s);
    var rest;
    more, rest := TakePending(env, s.catalog, s.pending, s.seen, room);
    next := Onward(s.(pending := rest));
    assert View(next) == Reading(env, before, room);
    ghost var t := Take(env, before.catalog, before.pending, before.seen, room);
    if t.rest != [] {
      assert Shown(View(next), [], [], 0).After(more, [], 0) == Shown(View(next), more, [], 0);
    }
  }

  function Onward(s: State): (t: State)
    ensures t.seen == s.seen
  {
    if s.pending != [] then s else if s.hasNext then s.(page := s.page + 1) else s.(catalog := s.catalog + 1, page := 1)
  }
}
