/** What the Mihon reader makes of a whole backup, told by its fields: the categories by their order, and who refers to them. */
module MihonCategories {
  import opened Common
  import opened Varint
  import opened Wire
  import opened Decimal
  import opened Sorting
  import opened Mihon
  import opened MihonFields

  // ---- sorting, by places --------------------------------------------------------------------

  /** r is s in another arrangement: the i-th of r stood at places[i]. */
  ghost predicate Arranged<T>(s: seq<T>, r: seq<T>, places: seq<nat>) {
    && |r| == |s| == |places|
    && (forall i :: 0 <= i < |r| ==> places[i] < |s| && r[i] == s[places[i]])
    && (forall i, j :: 0 <= i < j < |places| ==> places[i] != places[j])
  }

  /** In rising order of numbers, and those of one number as they stood. */
  ghost predicate InOrder(r: seq<Tagged>, places: seq<nat>) {
    |r| == |places| && forall i, j :: 0 <= i < j < |r| ==> r[i].n < r[j].n || (r[i].n == r[j].n && places[i] < places[j])
  }

  /** One more goes behind all that are not above it. */
  ghost predicate Fits(x: Tagged, r: seq<Tagged>, at: nat) {
    at <= |r| && (forall i :: 0 <= i < at ==> r[i].n <= x.n) && (at < |r| ==> x.n < r[at].n)
  }

  lemma {:induction false} InsertAt(x: Tagged, r: seq<Tagged>) returns (at: nat)
    ensures Fits(x, r, at) && Insert(x, r, ByOrder) == r[..at] + [x] + r[at..]
  {
    if r == [] || ByOrder(x, r[0]) {
      at := 0;
      assert r[..0] + [x] + r[0..] == [x] + r;
    } else {
      var rest := InsertAt(x, r[1..]);
      InsertLater(x, r[0], r[1..], rest);
      assert [r[0]] + r[1..] == r;
      at := rest + 1;
    }
  }

  lemma InsertLater(x: Tagged, first: Tagged, rest: seq<Tagged>, at: nat)
    requires Fits(x, rest, at) && first.n <= x.n
    ensures Fits(x, [first] + rest, at + 1)
    ensures [first] + (rest[..at] + [x] + rest[at..]) == ([first] + rest)[..at + 1] + [x] + ([first] + rest)[at + 1..]
  {
  }

  lemma InsertedInOrder(r: seq<Tagged>, places: seq<nat>, x: Tagged, n: nat, at: nat)
    requires InOrder(r, places) && (forall i :: 0 <= i < |places| ==> places[i] < n) && at <= |r|
    requires (forall i :: 0 <= i < at ==> r[i].n <= x.n) && (at < |r| ==> x.n < r[at].n)
    ensures InOrder(r[..at] + [x] + r[at..], places[..at] + [n] + places[at..])
  {
    var q, p := r[..at] + [x] + r[at..], places[..at] + [n] + places[at..];
    forall i, j | 0 <= i < j < |q| ensures q[i].n < q[j].n || (q[i].n == q[j].n && p[i] < p[j]) {
      var i', j' := if i < at then i else i - 1, if j < at then j else j - 1;
      assert i < at ==> q[i] == r[i] && p[i] == places[i];
      assert i > at ==> q[i] == r[i - 1] && p[i] == places[i - 1];
      assert j < at ==> q[j] == r[j] && p[j] == places[j];
      assert j > at ==> q[j] == r[j - 1] && p[j] == places[j - 1];
      if i == at && j > at + 1 {
        assert r[at].n <= r[j - 1].n;
      }
    }
  }

  lemma InsertedArranged(s: seq<Tagged>, r: seq<Tagged>, places: seq<nat>, x: Tagged, at: nat)
    requires Arranged(s, r, places) && at <= |r|
    ensures Arranged(s + [x], r[..at] + [x] + r[at..], places[..at] + [|s|] + places[at..])
  {
    var q, p := r[..at] + [x] + r[at..], places[..at] + [|s|] + places[at..];
    forall i | 0 <= i < |q| ensures p[i] < |s| + 1 && q[i] == (s + [x])[p[i]] {
      assert i > at ==> p[i] == places[i - 1] && q[i] == r[i - 1];
    }
    forall i, j | 0 <= i < j < |p| ensures p[i] != p[j] {
      assert i < at ==> p[i] == places[i];
      assert i > at ==> p[i] == places[i - 1];
      assert j < at ==> p[j] == places[j];
      assert j > at ==> p[j] == places[j - 1];
    }
  }

  lemma {:induction false} SortedAt(s: seq<Tagged>) returns (places: seq<nat>)
    ensures Arranged(s, StableSort(s, ByOrder), places) && InOrder(StableSort(s, ByOrder), places)
  {
    places := [];
    if s != [] {
      var front, x := s[..|s| - 1], s[|s| - 1];
      assert s == front + [x];
      places := SortedAt(front);
      var r := StableSort(front, ByOrder);
      var at := InsertAt(x, r);
      InsertedInOrder(r, places, x, |front|, at);
      InsertedArranged(front, r, places, x, at);
      places := places[..at] + [|front|] + places[at..];
    }
  }

  // ---- names of orders -------------------------------------------------------------------------

  /** The k-th category is the last of its order. */
  predicate LastOfOrder(cats: seq<Tagged>, order: I64, k: nat) {
    k < |cats| && cats[k].n == order && forall j :: k < j < |cats| ==> cats[j].n != order
  }

  /** Each order that a category has names the last such category, and no other order names any. */
  ghost predicate NamesLast(cats: seq<Tagged>, names: map<I64, Text>) {
    && (forall k :: 0 <= k < |cats| ==> cats[k].n in names)
    && (forall order :: order in names ==> exists k: nat :: LastOfOrder(cats, order, k) && names[order] == cats[k].text)
  }

  lemma NamesSnoc(front: seq<Tagged>, last: Tagged, names: map<I64, Text>)
    requires NamesLast(front, names)
    ensures NamesLast(front + [last], names[last.n := last.text])
  {
    var cats, after := front + [last], names[last.n := last.text];
    forall order | order in after ensures exists k: nat :: LastOfOrder(cats, order, k) && after[order] == cats[k].text {
      if order == last.n {
        assert LastOfOrder(cats, order, |front|);
      } else {
        var k: nat :| LastOfOrder(front, order, k) && names[order] == front[k].text;
        assert LastOfOrder(cats, order, k);
      }
    }
  }

  lemma {:induction false} CatByOrderNames(cats: seq<Tagged>)
    ensures NamesLast(cats, CatByOrder(cats))
  {
    if cats != [] {
      var front, last := cats[..|cats| - 1], cats[|cats| - 1];
      assert cats == front + [last];
      CatByOrderNames(front);
      NamesSnoc(front, last, CatByOrder(front));
    }
  }

  /** The last of an order after the sort is the last that was read. */
  lemma SortedNames(cats: seq<Tagged>, sorted: seq<Tagged>, places: seq<nat>, names: map<I64, Text>)
    requires Arranged(cats, sorted, places) && InOrder(sorted, places) && NamesLast(sorted, names)
    ensures NamesLast(cats, names)
  {
    forall k | 0 <= k < |cats| ensures cats[k].n in names {
      Covers(places, |cats|, k);
    }
    forall order | order in names ensures exists k: nat :: LastOfOrder(cats, order, k) && names[order] == cats[k].text {
      var i: nat :| LastOfOrder(sorted, order, i) && names[order] == sorted[i].text;
      SortedLast(cats, sorted, places, order, i);
    }
  }

  lemma SortedLast(cats: seq<Tagged>, sorted: seq<Tagged>, places: seq<nat>, order: I64, i: nat)
    requires Arranged(cats, sorted, places) && InOrder(sorted, places) && LastOfOrder(sorted, order, i)
    ensures LastOfOrder(cats, order, places[i]) && cats[places[i]] == sorted[i]
  {
    forall j | places[i] < j < |cats| ensures cats[j].n != order {
      Covers(places, |cats|, j);
      var m :| 0 <= m < |places| && places[m] == j;
      NoneAfter(cats, sorted, places, order, i, m);
    }
  }

  lemma NoneAfter(cats: seq<Tagged>, sorted: seq<Tagged>, places: seq<nat>, order: I64, i: nat, m: nat)
    requires Arranged(cats, sorted, places) && InOrder(sorted, places) && LastOfOrder(sorted, order, i)
    requires m < |sorted|
    ensures sorted[m].n == order ==> places[m] <= places[i]
  {
  }

  /** As many different places as there are cover all. */
  lemma Covers(places: seq<nat>, n: nat, k: nat)
    requires |places| == n && k < n && (forall i :: 0 <= i < n ==> places[i] < n)
    requires forall i, j :: 0 <= i < j < n ==> places[i] != places[j]
    ensures exists m :: 0 <= m < n && places[m] == k
  {
    var used, all := set m | 0 <= m < n :: places[m], Below(n);
    BelowHas(n);
    DifferentPlaces(places);
    assert used <= all;
    assert used == all by {
      if used != all {
        PartIsSmaller(used, all);
      }
    }
    assert k in used;
  }

  function Below(n: nat): set<nat> {
    if n == 0 then {} else Below(n - 1) + {n - 1}
  }

  lemma {:induction false} BelowHas(n: nat)
    ensures |Below(n)| == n && forall m: nat :: m in Below(n) <==> m < n
  {
    if n > 0 {
      BelowHas(n - 1);
    }
  }

  lemma {:induction false} DifferentPlaces(places: seq<nat>)
    requires forall i, j :: 0 <= i < j < |places| ==> places[i] != places[j]
    ensures |set m | 0 <= m < |places| :: places[m]| == |places|
  {
    var used := set m | 0 <= m < |places| :: places[m];
    if places != [] {
      var n := |places| - 1;
      var front := places[..n];
      DifferentPlaces(front);
      var fewer := set m | 0 <= m < |front| :: front[m];
      assert used == fewer + {places[n]};
      assert places[n] !in fewer;
    } else {
      assert used == {};
    }
  }

  // ---- the top of a backup -------------------------------------------------------------------------

  /** The messages of a number at the top, in order. */
  function MessagesOf(fs: seq<Field>, num: nat): seq<Field> {
    if fs == [] then [] else
      var f, rest := fs[|fs| - 1], MessagesOf(fs[..|fs| - 1], num);
      if f.num == num && f.typ == 2 then rest + [f] else rest
  }

  lemma MessagesSnoc(fs: seq<Field>, f: Field, num: nat)
    ensures MessagesOf(fs + [f], num) == MessagesOf(fs, num) + if f.num == num && f.typ == 2 then [f] else []
  {
    assert (fs + [f])[..|fs|] == fs;
  }

  ghost predicate MangaMessages(fs: seq<Field>, s: Top) {
    s.manga == TextsOf(MessagesOf(fs, 1))
  }

  ghost predicate CategoryMessages(fs: seq<Field>, cats: seq<Tagged>) {
    var ms := MessagesOf(fs, 2);
    |cats| == |ms| && forall i :: 0 <= i < |cats| ==> TaggedAs(ms[i].bytes, cats[i])
  }

  /** The k-th source message is the last of its id. */
  ghost predicate LastSource(ms: seq<Field>, id: Text, name: Text, k: nat) {
    && k < |ms| && SourceAs(ms[k].bytes, id, name)
    && forall j :: k < j < |ms| ==> forall other :: !SourceAs(ms[j].bytes, id, other)
  }

  /** A source message: its number in decimal, and its name. */
  ghost predicate SourceAs(b: Bytes, id: Text, name: Text) {
    exists t :: TaggedAs(b, t) && id == FormatInt(t.n) && name == t.text
  }

  ghost predicate SourceMessages(fs: seq<Field>, sources: map<Text, Text>) {
    var ms := MessagesOf(fs, 101);
    && (forall id :: id in sources ==> exists k: nat :: LastSource(ms, id, sources[id], k))
    && (forall k, id, name :: 0 <= k < |ms| && SourceAs(ms[k].bytes, id, name) ==> id in sources)
  }

  ghost predicate TopSoFar(fs: seq<Field>, s: Top) {
    MangaMessages(fs, s) && CategoryMessages(fs, s.cats) && SourceMessages(fs, s.sources)
  }

  lemma MangaNext(fs: seq<Field>, f: Field, s: Top)
    requires MangaMessages(fs, s) && TopStep(s, f).Ok?
    ensures MangaMessages(fs + [f], TopStep(s, f).value)
  {
    MessagesSnoc(fs, f, 1);
    assert TextsOf(MessagesOf(fs + [f], 1)) == TextsOf(MessagesOf(fs, 1)) + if f.num == 1 && f.typ == 2 then [f.bytes] else [];
  }

  lemma CategoriesNext(fs: seq<Field>, f: Field, s: Top)
    requires CategoryMessages(fs, s.cats) && TopStep(s, f).Ok?
    ensures CategoryMessages(fs + [f], TopStep(s, f).value.cats)
  {
    MessagesSnoc(fs, f, 2);
    if f.num == 2 && f.typ == 2 {
      TaggedIs(f.bytes, ParseTagged(f.bytes).value);
    }
  }

  lemma OneSource(b: Bytes, t: Tagged, id: Text, name: Text)
    requires TaggedAs(b, t)
    ensures SourceAs(b, id, name) <==> id == FormatInt(t.n) && name == t.text
  {
    if id == FormatInt(t.n) && name == t.text {
      assert TaggedAs(b, t) && id == FormatInt(t.n) && name == t.text;
    }
  }

  lemma SourcesSnoc(ms: seq<Field>, f: Field, t: Tagged, fs: seq<Field>, gs: seq<Field>, sources: map<Text, Text>)
    requires ms == MessagesOf(fs, 101) && MessagesOf(gs, 101) == ms + [f] && TaggedAs(f.bytes, t)
    requires SourceMessages(fs, sources)
    ensures SourceMessages(gs, sources[FormatInt(t.n) := t.text])
  {
    var all, after := ms + [f], sources[FormatInt(t.n) := t.text];
    forall id | id in after ensures exists k: nat :: LastSource(all, id, after[id], k) {
      OneSource(f.bytes, t, id, after[id]);
      if id == FormatInt(t.n) {
        assert LastSource(all, id, after[id], |ms|);
      } else {
        var k: nat :| LastSource(ms, id, sources[id], k);
        forall other ensures !SourceAs(f.bytes, id, other) {
          OneSource(f.bytes, t, id, other);
        }
        assert LastSource(all, id, after[id], k);
      }
    }
    forall k, id, name | 0 <= k < |all| && SourceAs(all[k].bytes, id, name) ensures id in after {
      SourceKept(ms, f, t, sources, k, id, name);
    }
  }

  lemma SourceKept(ms: seq<Field>, f: Field, t: Tagged, sources: map<Text, Text>, k: nat, id: Text, name: Text)
    requires TaggedAs(f.bytes, t) && k <= |ms| && SourceAs((ms + [f])[k].bytes, id, name)
    requires forall i, id, name :: 0 <= i < |ms| && SourceAs(ms[i].bytes, id, name) ==> id in sources
    ensures id in sources[FormatInt(t.n) := t.text]
  {
    if k == |ms| {
      OneSource(f.bytes, t, id, name);
    } else {
      assert SourceAs(ms[k].bytes, id, name);
    }
  }

  lemma SourceStepped(s: Top, f: Field)
    requires TopStep(s, f).Ok? && f.num == 101 && f.typ == 2
    ensures ParseTagged(f.bytes).Ok?
    ensures var t := ParseTagged(f.bytes).value; TopStep(s, f).value.sources == s.sources[FormatInt(t.n) := t.text]
  {
  }

  lemma SourcesSame(fs: seq<Field>, gs: seq<Field>, sources: map<Text, Text>)
    requires SourceMessages(fs, sources) && MessagesOf(gs, 101) == MessagesOf(fs, 101)
    ensures SourceMessages(gs, sources)
  {
  }

  lemma SourceNext(fs: seq<Field>, f: Field, t: Tagged, sources: map<Text, Text>)
    requires SourceMessages(fs, sources) && f.num == 101 && f.typ == 2 && ParseTagged(f.bytes) == Ok(t)
    ensures SourceMessages(fs + [f], sources[FormatInt(t.n) := t.text])
  {
    MessagesSnoc(fs, f, 101);
    TaggedIs(f.bytes, t);
    SourcesSnoc(MessagesOf(fs, 101), f, t, fs, fs + [f], sources);
  }

  lemma OtherNext(fs: seq<Field>, f: Field, sources: map<Text, Text>)
    requires SourceMessages(fs, sources) && !(f.num == 101 && f.typ == 2)
    ensures SourceMessages(fs + [f], sources)
  {
    MessagesSnoc(fs, f, 101);
    assert MessagesOf(fs, 101) + [] == MessagesOf(fs, 101);
    SourcesSame(fs, fs + [f], sources);
  }

  lemma OtherStepped(s: Top, f: Field)
    requires TopStep(s, f).Ok? && !(f.num == 101 && f.typ == 2)
    ensures TopStep(s, f).value.sources == s.sources
  {
  }

  lemma SourcesNext(fs: seq<Field>, f: Field, s: Top)
    requires SourceMessages(fs, s.sources) && TopStep(s, f).Ok?
    ensures SourceMessages(fs + [f], TopStep(s, f).value.sources)
  {
    if f.num == 101 && f.typ == 2 {
      SourceStepped(s, f);
      SourceNext(fs, f, ParseTagged(f.bytes).value, s.sources);
    } else {
      OtherStepped(s, f);
      OtherNext(fs, f, s.sources);
    }
  }

  lemma {:induction false} TopFold(fs: seq<Field>)
    requires Fold(fs, Top([], [], map[]), TopStep).Ok?
    ensures TopSoFar(fs, Fold(fs, Top([], [], map[]), TopStep).value)
  {
    if fs != [] {
      var front, f := fs[..|fs| - 1], fs[|fs| - 1];
      assert fs == front + [f];
      FoldFront(front, f, Top([], [], map[]), TopStep);
      TopFold(front);
      Snoc(front, f, Top([], [], map[]), TopStep);
      var s := Fold(front, Top([], [], map[]), TopStep).value;
      MangaNext(front, f, s);
      CategoriesNext(front, f, s);
      SourcesNext(front, f, s);
    }
  }

  // ---- the whole backup ------------------------------------------------------------------------------

  /** Each manga message in order is an entry, as ParseManga reads it with these names, and with its source's name. */
  ghost predicate EntriesRead(raws: seq<Bytes>, names: map<I64, Text>, sources: map<Text, Text>, entries: seq<Manga>) {
    && |entries| == |raws|
    && forall i :: 0 <= i < |entries| ==> EntryRead(raws[i], names, sources, entries[i])
  }

  ghost predicate EntryRead(raw: Bytes, names: map<I64, Text>, sources: map<Text, Text>, e: Manga) {
    && MangaFrom(raw, names).Ok? && e == MangaFrom(raw, names).value.(sourceName := e.sourceName)
    && e.sourceName == if e.sourceId in sources then sources[e.sourceId] else []
  }

  lemma {:induction false} EntriesAre(raws: seq<Bytes>, names: map<I64, Text>, sources: map<Text, Text>)
    requires EntriesFrom(raws, names, sources).Ok?
    ensures EntriesRead(raws, names, sources, EntriesFrom(raws, names, sources).value)
  {
    if raws != [] {
      var front, last := raws[..|raws| - 1], raws[|raws| - 1];
      assert raws == front + [last];
      EntriesLast(front, last, names, sources);
      EntriesAre(front, names, sources);
      EntriesSnoc(front, last, names, sources, EntriesFrom(front, names, sources).value, EntriesFrom(raws, names, sources).value);
    }
  }

  lemma EntriesLast(front: seq<Bytes>, last: Bytes, names: map<I64, Text>, sources: map<Text, Text>)
    requires EntriesFrom(front + [last], names, sources).Ok?
    ensures EntriesFrom(front, names, sources).Ok?
    ensures var entries, all := EntriesFrom(front, names, sources).value, EntriesFrom(front + [last], names, sources).value;
      |all| == |entries| + 1 && all[..|entries|] == entries && EntryRead(last, names, sources, all[|entries|])
  {
    assert (front + [last])[..|front|] == front;
  }

  lemma EntriesSnoc(front: seq<Bytes>, last: Bytes, names: map<I64, Text>, sources: map<Text, Text>, entries: seq<Manga>, all: seq<Manga>)
    requires EntriesRead(front, names, sources, entries) && |all| == |entries| + 1 && all[..|entries|] == entries
    requires EntryRead(last, names, sources, all[|entries|])
    ensures EntriesRead(front + [last], names, sources, all)
  {
    var raws := front + [last];
    forall i | 0 <= i < |all| ensures EntryRead(raws[i], names, sources, all[i]) {
      assert i < |entries| ==> all[i] == entries[i];
    }
  }

  /**
   A backup is read as its fields say: its categories are the category messages in rising order of their numbers, equal
   ones as they came; an order stands for the name of the last message that has it; and the entries are its manga, at
   least one.
   */
  lemma BackupIs(data: Bytes, b: Backup) returns (cats: seq<Tagged>, sorted: seq<Tagged>, places: seq<nat>, names: map<I64, Text>)
    requires BackupFrom(data) == Ok(b)
    ensures Decoded(data).Ok? && CategoryMessages(Decoded(data).value, cats) && SourceMessages(Decoded(data).value, b.sources)
    ensures Arranged(cats, sorted, places) && InOrder(sorted, places)
    ensures |b.categories| == |sorted| && forall i :: 0 <= i < |sorted| ==> b.categories[i] == sorted[i].text
    ensures NamesLast(cats, names)
    ensures EntriesRead(TextsOf(MessagesOf(Decoded(data).value, 1)), names, b.sources, b.entries) && b.entries != []
  {
    var init := Top([], [], map[]);
    RunIsFold(data, init, TopStep);
    TopFold(Decoded(data).value);
    var s := Run(data, init, TopStep).value;
    cats, sorted := s.cats, StableSort(s.cats, ByOrder);
    places := SortedAt(cats);
    names := CatByOrder(sorted);
    CatByOrderNames(sorted);
    SortedNames(cats, sorted, places, names);
    EntriesAre(s.manga, names, s.sources);
  }

  /** A backup whose top level reads is turned down for having no manga, or else for the first that does not read. */
  lemma BackupFails(data: Bytes, e: Error) returns (cats: seq<Tagged>, names: map<I64, Text>, k: nat)
    requires BackupFrom(data) == Err(e) && Run(data, Top([], [], map[]), TopStep).Ok?
    ensures Decoded(data).Ok? && CategoryMessages(Decoded(data).value, cats) && NamesLast(cats, names)
    ensures var raws := TextsOf(MessagesOf(Decoded(data).value, 1));
      if raws == [] then e == NoManga
      else k < |raws| && !Reads(raws[k], names) && AllReadBefore(raws, names, k) && e == InManga(k + 1, Why(raws[k], names))
  {
    RunIsFold(data, Top([], [], map[]), TopStep);
    TopFold(Decoded(data).value);
    var s := Run(data, Top([], [], map[]), TopStep).value;
    cats, k := s.cats, 0;
    names := NamesOf(cats);
    if EntriesFrom(s.manga, CatByOrder(StableSort(s.cats, ByOrder)), s.sources).Ok? {
      EntriesAre(s.manga, names, s.sources);
    } else {
      k := FirstFails(s.manga, names, s.sources);
    }
  }

  lemma NamesOf(cats: seq<Tagged>) returns (names: map<I64, Text>)
    ensures names == CatByOrder(StableSort(cats, ByOrder)) && NamesLast(cats, names)
  {
    var sorted := StableSort(cats, ByOrder);
    names := CatByOrder(sorted);
    var places := SortedAt(cats);
    CatByOrderNames(sorted);
    SortedNames(cats, sorted, places, names);
  }

  predicate Reads(raw: Bytes, names: map<I64, Text>) {
    MangaFrom(raw, names).Ok?
  }

  function Why(raw: Bytes, names: map<I64, Text>): Error
    requires !Reads(raw, names)
  {
    MangaFrom(raw, names).error
  }

  lemma EntriesStep(front: seq<Bytes>, last: Bytes, names: map<I64, Text>, sources: map<Text, Text>)
    ensures EntriesFrom(front, names, sources).Err? ==> EntriesFrom(front + [last], names, sources) == EntriesFrom(front, names, sources)
    ensures EntriesFrom(front, names, sources).Ok? && Reads(last, names) ==> EntriesFrom(front + [last], names, sources).Ok?
    ensures EntriesFrom(front, names, sources).Ok? && !Reads(last, names) ==>
      EntriesFrom(front + [last], names, sources) == Err(InManga(|front| + 1, Why(last, names)))
  {
    assert (front + [last])[..|front|] == front;
  }

  ghost predicate AllReadBefore(raws: seq<Bytes>, names: map<I64, Text>, k: nat) {
    forall i :: 0 <= i < k && i < |raws| ==> Reads(raws[i], names)
  }

  lemma OneMoreReads(front: seq<Bytes>, last: Bytes, names: map<I64, Text>)
    requires AllReadBefore(front, names, |front|) && Reads(last, names)
    ensures AllReadBefore(front + [last], names, |front| + 1)
  {
  }

  lemma {:induction false} AllRead(raws: seq<Bytes>, names: map<I64, Text>, sources: map<Text, Text>)
    requires EntriesFrom(raws, names, sources).Ok?
    ensures AllReadBefore(raws, names, |raws|)
  {
    if raws != [] {
      var front, last := raws[..|raws| - 1], raws[|raws| - 1];
      assert raws == front + [last];
      EntriesStep(front, last, names, sources);
      AllRead(front, names, sources);
      OneMoreReads(front, last, names);
    }
  }

  lemma {:induction false} FirstFails(raws: seq<Bytes>, names: map<I64, Text>, sources: map<Text, Text>) returns (k: nat)
    requires EntriesFrom(raws, names, sources).Err?
    ensures k < |raws| && !Reads(raws[k], names) && AllReadBefore(raws, names, k)
    ensures EntriesFrom(raws, names, sources).error == InManga(k + 1, Why(raws[k], names))
  {
    var front, last := raws[..|raws| - 1], raws[|raws| - 1];
    assert raws == front + [last];
    EntriesStep(front, last, names, sources);
    if EntriesFrom(front, names, sources).Err? {
      k := FirstFails(front, names, sources);
    } else {
      k := |front|;
      AllRead(front, names, sources);
    }
  }
}
