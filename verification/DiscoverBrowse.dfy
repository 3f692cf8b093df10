/** Browsing the popular shelf through the cache: each request with the token of the answer before it. */
module DiscoverBrowse {
  import opened Common
  import opened Discover
  import opened DiscoverWalk
  import opened DiscoverStore

  /** A request of one reader, and what others ask and the cache drops before the next. */
  datatype Visit = Visit(ask: Ask, between: seq<Event>)

  function StoreAfter(store: map<Token, Stored>, env: Env, v: Visit): map<Token, Stored> {
    AfterAll(After(store, env, v.ask), v.between)
  }

  /** Each request is answered, asks for the same, and has the token of the answer before, drawn for it alone. */
  ghost predicate Browses(store: map<Token, Stored>, env: Env, query: string, token: Option<Token>, visits: seq<Visit>)
    decreases |visits|
  {
    visits == [] || (
      var v := visits[0];
      var answer := Answers(store, env, v.ask);
      && v.ask.token == token && v.ask.query == query && answer.Answered?
      && DrawnOnce(v.between, v.ask.drawn)
      && (|visits| > 1 ==> answer.next.Some? && Browses(StoreAfter(store, env, v), env, query, answer.next, visits[1..])))
  }

  /** The cards of all answers. */
  function CardsSeen(store: map<Token, Stored>, env: Env, visits: seq<Visit>): seq<Item>
    decreases |visits|
  {
    if visits == [] then [] else
      var answer := Answers(store, env, visits[0].ask);
      (if answer.Answered? then answer.items else []) + CardsSeen(StoreAfter(store, env, visits[0]), env, visits[1..])
  }

  /** The last answer has no token for more. */
  predicate Complete(store: map<Token, Stored>, env: Env, visits: seq<Visit>)
    requires visits != []
    decreases |visits|
  {
    if |visits| > 1 then Complete(StoreAfter(store, env, visits[0]), env, visits[1..])
    else Answers(store, env, visits[0].ask).Answered? && Answers(store, env, visits[0].ask).next.None?
  }

  function RequestsOf(visits: seq<Visit>): (r: seq<Request>)
    ensures |r| == |visits|
  {
    seq(|visits|, i requires 0 <= i < |visits| => Request(visits[i].ask.size, visits[i].ask.time))
  }

  /** What a request is refused for, by its token and the clock; without a token it starts from the first page. */
  lemma RefusedExactly(store: map<Token, Stored>, env: Env, ask: Ask)
    ensures ask.token.None? ==> Load(store, env, ask) == Loads(Stored(ask.query, ask.now + 900, env.catalogs, Cursor(0, 1, [], false, {})))
    ensures ask.token.Some? ==> var t := ask.token.value;
      var valid := |t| == 32 && (forall i :: 0 <= i < |t| ==> Hex(t[i])) && (t in store ==> store[t].query == ask.query);
      && (Answers(store, env, ask) == Invalid <==> !valid)
      && (Answers(store, env, ask) == Gone <==> valid && (t !in store || store[t].expires < ask.now))
      && (valid && t in store && ask.now <= store[t].expires ==> Load(store, env, ask) == Loads(store[t]))
  {
  }

  /** The next request of the reader goes on from the cursor that this one left. */
  lemma GoesOn(store: map<Token, Stored>, env: Env, query: string, token: Option<Token>, visits: seq<Visit>, from: Stored)
    requires |visits| > 1 && Browses(store, env, query, token, visits) && Load(store, env, visits[0].ask) == Loads(from)
    ensures Load(StoreAfter(store, env, visits[0]), env, visits[1].ask) == Loads(from.(cursor := Shows(env, from, visits[0].ask).cursor))
  {
    var v := visits[0];
    assert visits[1..][0] == visits[1];
    CursorsStay(After(store, env, v.ask), v.between, v.ask.drawn);
  }

  lemma RequestsFirst(visits: seq<Visit>)
    requires visits != []
    ensures RequestsOf(visits)[0] == Request(visits[0].ask.size, visits[0].ask.time)
    ensures RequestsOf(visits)[1..] == RequestsOf(visits[1..])
  {
  }

  lemma {:induction false} BrowsesOn(store: map<Token, Stored>, env: Env, query: string, token: Option<Token>, visits: seq<Visit>, from: Stored)
    requires visits != [] && Browses(store, env, query, token, visits)
    requires Load(store, env, visits[0].ask) == Loads(from) && from.catalogs == env.catalogs
    ensures CardsSeen(store, env, visits) == Chain(env, from.cursor, RequestsOf(visits)).items
    ensures Complete(store, env, visits) <==> Ended(env, Chain(env, from.cursor, RequestsOf(visits)).cursor)
    decreases |visits|
  {
    var v, r := visits[0], Shows(env, from, visits[0].ask);
    assert env.(catalogs := from.catalogs) == env;
    RequestsFirst(visits);
    if |visits| > 1 {
      GoesOn(store, env, query, token, visits, from);
      BrowsesOn(StoreAfter(store, env, v), env, query, Answers(store, env, v.ask).next, visits[1..], from.(cursor := r.cursor));
    } else {
      assert visits[1..] == [];
      assert r.items + [] == r.items;
    }
  }

  /**
   Whatever others do meanwhile, and as long as each request is answered, a reader sees the beginning of the shelf, and
   all of it exactly once no token for more is given.
   */
  lemma BrowsingShowsTheShelf(store: map<Token, Stored>, env: Env, query: string, visits: seq<Visit>, n: nat)
    requires visits != [] && Browses(store, env, query, None, visits) && n >= MAX_FETCHES * |visits|
    ensures CardsSeen(store, env, visits) <= Shelf(env, Cuts(env, RequestsOf(visits)), n)
    ensures Complete(store, env, visits) ==> CardsSeen(store, env, visits) == Shelf(env, Cuts(env, RequestsOf(visits)), n)
    ensures Complete(store, env, visits) <==> Ended(env, Chain(env, FIRST, RequestsOf(visits)).cursor)
  {
    var from := Stored(query, visits[0].ask.now + TTL, env.catalogs, FIRST);
    BrowsesOn(store, env, query, None, visits, from);
    ShelfBeginsSo(env, RequestsOf(visits), n);
    if Complete(store, env, visits) {
      WholeShelf(env, RequestsOf(visits), n);
    }
  }
}
