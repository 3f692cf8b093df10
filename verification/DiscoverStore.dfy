/** Where cursors are kept between requests, and why a cursor may be used again. */
module DiscoverStore {
  import opened Common
  import opened Discover

  type Token = string

  /** Fifteen minutes, in seconds. */
  const TTL: int := 900

  /** The stored state of a cursor, by value. */
  datatype Stored = Stored(query: string, expires: int, catalogs: seq<Catalog>, cursor: Cursor)

  /** And as it is kept: its map of seen titles is shared by reference. */
  datatype Record = Record(query: string, expires: int, catalogs: seq<Catalog>, state: State)

  /**
   A request: what it asks for as one string, its cursor if any, page size and time, the clock, the token drawn for
   the next cursor, and whether the cache takes one more entry.
   */
  datatype Ask = Ask(query: string, token: Option<Token>, size: nat, time: Deadline, now: int, drawn: Token, room: bool)

  datatype Answered = Invalid | Gone | Full | Answered(items: seq<Item>, problems: seq<Problem>, next: Option<Token>)

  predicate Hex(c: char) { '0' <= c <= '9' || 'a' <= c <= 'f' || 'A' <= c <= 'F' }

  predicate WellFormed(t: Token) {
    |t| == 32 && forall i :: 0 <= i < |t| ==> Hex(t[i])
  }

  // ---- on values --------------------------------------------------------------------------------

  datatype Loaded = Loads(stored: Stored) | Refuses(answer: Answered)

  /** The state a request starts from. */
  function Load(store: map<Token, Stored>, env: Env, ask: Ask): Loaded {
    if ask.token.None? then Loads(Stored(ask.query, ask.now + TTL, env.catalogs, FIRST))
    else
      var t := ask.token.value;
      if !WellFormed(t) then Refuses(Invalid)
      else if t !in store then Refuses(Gone)
      else if store[t].query != ask.query then Refuses(Invalid)
      else if ask.now > store[t].expires then Refuses(Gone)
      else Loads(store[t])
  }

  /** The page it shows: the catalogs are those of the first request. */
  function Shows(env: Env, from: Stored, ask: Ask): Shown {
    Page(env.(catalogs := from.catalogs), from.cursor, ask.size, Allowed(ask.time))
  }

  predicate HasNext(from: Stored, shown: Shown) { shown.cursor.catalog < |from.catalogs| }

  function Answers(store: map<Token, Stored>, env: Env, ask: Ask): Answered {
    var load := Load(store, env, ask);
    if load.Refuses? then load.answer else
      var r := Shows(env, load.stored, ask);
      if !HasNext(load.stored, r) then Answered(r.items, r.problems, None)
      else if !ask.room then Full
      else Answered(r.items, r.problems, Some(ask.drawn))
  }

  /** The store afterwards: the next cursor under the token drawn. */
  function After(store: map<Token, Stored>, env: Env, ask: Ask): map<Token, Stored> {
    var load := Load(store, env, ask);
    if load.Refuses? then store else
      var r := Shows(env, load.stored, ask);
      if HasNext(load.stored, r) && ask.room then store[ask.drawn := load.stored.(cursor := r.cursor)] else store
  }

  // ---- the cache ----------------------------------------------------------------------------------

  class Cache {
    var records: map<Token, Record>
    ghost var maps: set<Titles>

    ghost predicate Valid()
      reads this
    {
      forall t :: t in records ==> records[t].state.seen in maps
    }

    ghost function Contents(): map<Token, Stored>
      requires Valid()
      reads this, maps
    {
      map t | t in records :: Value(records[t])
    }

    constructor ()
      ensures Valid() && Contents() == map[]
    {
      records, maps := map[], {};
    }

    /** The state a request starts from, with seen titles of its own. */
    method Open(env: Env, ask: Ask) returns (from: Record, refused: Option<Answered>)
      requires Valid()
      ensures Load(Contents(), env, ask) == if refused.Some? then Refuses(refused.value) else Loads(Value(from))
      ensures fresh(from.state.seen)
    {
      var seen := new Titles({});
      from := Record(ask.query, ask.now + TTL, env.catalogs, State(0, 1, [], false, seen));
      if ask.token.None? {
        return from, None;
      }
      var t := ask.token.value;
      if !WellFormed(t) {
        return from, Some(Invalid);
      }
      if t !in records {
        return from, Some(Gone);
      }
      if records[t].query != ask.query {
        return from, Some(Invalid);
      }
      if ask.now > records[t].expires {
        return from, Some(Gone);
      }
      seen := new Titles(records[t].state.seen.keys);
      return records[t].(state := records[t].state.(seen := seen)), None;
    }

    method Save(t: Token, r: Record)
      requires Valid()
      modifies this
      ensures Valid() && Contents() == old(Contents())[t := old(Value(r))]
    {
      records, maps := records[t := r], maps + {r.state.seen};
    }

    /** A page with titles left to show is saved, if there is room for it. */
    method Finish(env: Env, ask: Ask, ghost store: map<Token, Stored>, from: Record, ghost stored: Stored, r: Shown, s: State)
      returns (answer: Answered)
      requires Valid() && Contents() == store && Load(store, env, ask) == Loads(stored) && Shows(env, stored, ask) == r
      requires View(s) == r.cursor && Value(from.(state := s)) == stored.(cursor := r.cursor)
      modifies this
      ensures answer == Answers(store, env, ask)
      ensures Valid() && Contents() == After(store, env, ask)
    {
      ServedBy(store, env, ask, stored, r);
      if s.catalog >= |from.catalogs| {
        return Answered(r.items, r.problems, None);
      }
      if !ask.room {
        return Full;
      }
      Save(ask.drawn, from.(state := s));
      return Answered(r.items, r.problems, Some(ask.drawn));
    }

    /** discoverShelf for the popular shelf. */
    method Serve(env: Env, ask: Ask) returns (answer: Answered)
      requires Valid()
      modifies this
      ensures answer == Answers(old(Contents()), env, ask)
      ensures Valid() && Contents() == After(old(Contents()), env, ask)
    {
      var from, refused := Open(env, ask);
      if refused.Some? {
        return refused.value;
      }
      ghost var store, stored := Contents(), Value(from);
      var r, s := Show(env, from, ask);
      answer := Finish(env, ask, store, from, stored, r, s);
    }

    /** Entries can be dropped at any time. */
    method Evict(t: Token)
      requires Valid()
      modifies this
      ensures Valid() && Contents() == old(Contents()) - {t}
    {
      records := records - {t};
    }
  }

  method Show(env: Env, from: Record, ask: Ask) returns (r: Shown, s: State)
    modifies from.state.seen
    ensures r == Shows(env, old(Value(from)), ask) && View(s) == r.cursor
    ensures Value(from.(state := s)) == old(Value(from)).(cursor := r.cursor)
  {
    var items, problems, fetches;
    s, items, problems, fetches := PopularPage(env.(catalogs := from.catalogs), from.state, ask.size, ask.time);
    r := Shown(Cursor(s.catalog, s.page, s.pending, s.hasNext, s.seen.keys), items, problems, fetches);
  }

  lemma ServedBy(store: map<Token, Stored>, env: Env, ask: Ask, from: Stored, r: Shown)
    requires Load(store, env, ask) == Loads(from) && Shows(env, from, ask) == r
    ensures Answers(store, env, ask) == if !HasNext(from, r) then Answered(r.items, r.problems, None)
      else if !ask.room then Full
      else Answered(r.items, r.problems, Some(ask.drawn))
    ensures After(store, env, ask) == if HasNext(from, r) && ask.room then store[ask.drawn := from.(cursor := r.cursor)] else store
  {
  }

  ghost function Value(r: Record): Stored
    reads r.state.seen
  {
    Stored(r.query, r.expires, r.catalogs, View(r.state))
  }

  // ---- over time ------------------------------------------------------------------------------------

  datatype Event = Asked(env: Env, ask: Ask) | Evicted(token: Token)

  function AfterAll(store: map<Token, Stored>, events: seq<Event>): map<Token, Stored> {
    if events == [] then store else
      var before := AfterAll(store, events[..|events| - 1]);
      match events[|events| - 1]
      case Asked(env, ask) => After(before, env, ask)
      case Evicted(t) => before - {t}
  }

  /** The token is not drawn a second time. */
  predicate DrawnOnce(events: seq<Event>, t: Token) {
    forall i :: 0 <= i < |events| && events[i].Asked? ==> events[i].ask.drawn != t
  }

  /** Whatever is asked, a stored cursor stays as it was until it is dropped. */
  lemma {:induction false} CursorsStay(store: map<Token, Stored>, events: seq<Event>, t: Token)
    requires DrawnOnce(events, t) && t in AfterAll(store, events)
    ensures t in store && AfterAll(store, events)[t] == store[t]
  {
    if events != [] {
      CursorsStay(store, events[..|events| - 1], t);
    }
  }

  /** So a cursor used again answers the same page. */
  lemma ReplayShowsTheSame(store: map<Token, Stored>, events: seq<Event>, env: Env, ask: Ask)
    requires ask.token.Some? && DrawnOnce(events, ask.token.value) && ask.token.value in AfterAll(store, events)
    ensures Answers(AfterAll(store, events), env, ask) == Answers(store, env, ask)
  {
    CursorsStay(store, events, ask.token.value);
  }

  /** And the token of a page, used while it lasts, goes on where that page ended. */
  lemma NextGoesOn(store: map<Token, Stored>, events: seq<Event>, env: Env, ask: Ask, env': Env, next: Ask)
    requires Load(store, env, ask).Loads? && Answers(store, env, ask).Answered?
    requires Answers(store, env, ask).next.Some? && next.token == Answers(store, env, ask).next
    requires DrawnOnce(events, ask.drawn) && ask.drawn in AfterAll(After(store, env, ask), events)
    requires WellFormed(ask.drawn) && next.query == Load(store, env, ask).stored.query
    requires next.now <= Load(store, env, ask).stored.expires
    ensures var from := Load(store, env, ask).stored;
      Load(AfterAll(After(store, env, ask), events), env', next) == Loads(from.(cursor := Shows(env, from, ask).cursor))
  {
    CursorsStay(After(store, env, ask), events, ask.drawn);
  }
}
