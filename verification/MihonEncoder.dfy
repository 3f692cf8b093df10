/** MarshalMihon: the append-only buffer and the loops that fill it. */
module MihonEncoder {
  import opened Common
  import opened Varint
  import opened Float
  import opened Wire
  import opened Decimal
  import opened Sorting
  import opened Mihon
  import opened MihonWriter
  import opened MihonBackup
  import opened MihonPortable

  lemma Together(before: Bytes, key: Bytes, size: Bytes, s: Bytes)
    ensures before + key + size + s == before + (key + (size + s))
  {
  }

  /** A growing message. */
  class Enc {
    var b: Bytes

    constructor ()
      ensures b == []
    {
      b := [];
    }

    method Key(num: nat, typ: nat)
      modifies this
      ensures b == old(b) + Wire.Key(num, typ)
    {
      b := b + AppendUvarint(num * 8 + typ);
    }

    /** Required scalar fields are written even when zero. */
    method VarintAlways(num: nat, v: I64)
      modifies this
      ensures b == old(b) + EncFields([VarintField(num, v)])
    {
      EncOne(VarintField(num, v));
      Key(num, WIRE_VARINT);
      b := b + AppendUvarint(ToU64(v));
    }

    method Varint(num: nat, v: I64)
      modifies this
      ensures b == old(b) + EncFields(OptVarint(num, v))
    {
      if v != 0 {
        VarintAlways(num, v);
      }
    }

    method Bool(num: nat, v: bool)
      modifies this
      ensures b == old(b) + EncFields(OptBool(num, v))
    {
      if v {
        Varint(num, 1);
      }
    }

    method StrAlways(num: nat, s: Text)
      modifies this
      ensures b == old(b) + EncFields([StrField(num, s)])
    {
      EncOne(StrField(num, s));
      Together(b, Wire.Key(num, WIRE_BYTES), AppendUvarint(|s|), s);
      Key(num, WIRE_BYTES);
      b := b + AppendUvarint(|s|);
      b := b + s;
    }

    method Str(num: nat, s: Text)
      modifies this
      ensures b == old(b) + EncFields(OptStr(num, s))
    {
      if s != [] {
        StrAlways(num, s);
      }
    }

    method Msg(num: nat, m: Enc)
      modifies this
      ensures b == old(b) + EncFields([StrField(num, old(m.b))])
    {
      StrAlways(num, m.b);
    }

    method Float(num: nat, bits: U32)
      modifies this
      ensures b == old(b) + EncFields(OptFloat(num, bits))
    {
      if bits != 0 && bits != NEGATIVE_ZERO {
        EncOne(Field(num, WIRE_32, bits, []));
        Key(num, WIRE_32);
        b := b + LittleEndian(bits, 4);
      }
    }
  }

  lemma FromNothing(x: Bytes)
    ensures [] + x == x
  {
  }

  /** Appending two groups of fields is appending their list. */
  lemma Append(before: Bytes, a: seq<Field>, c: seq<Field>)
    ensures before + EncFields(a) + EncFields(c) == before + EncFields(a + c)
  {
    EncFieldsConcat(a, c);
  }

  method WriteChapter(c: Chapter) returns (ch: Enc)
    ensures fresh(ch) && ch.b == EncFields(ChapterFields(c))
  {
    ch := new Enc();
    ch.StrAlways(1, c.url);
    ch.StrAlways(2, c.name);
    Append([], [StrField(1, c.url)], [StrField(2, c.name)]);
    assert [StrField(1, c.url)] + [StrField(2, c.name)] == [StrField(1, c.url), StrField(2, c.name)];
    WriteChapterRest(ch, c, [StrField(1, c.url), StrField(2, c.name)]);
  }

  method WriteChapterRest(ch: Enc, c: Chapter, ghost head: seq<Field>)
    requires ch.b == EncFields(head)
    modifies ch
    ensures ch.b == EncFields(head + OptStr(3, c.scanlator) + OptBool(4, c.read) + OptVarint(6, c.lastPageRead)
                              + OptFloat(9, ToSingle(c.number)))
  {
    ch.Str(3, c.scanlator);
    EncFieldsConcat(head, OptStr(3, c.scanlator));
    ch.Bool(4, c.read);
    EncFieldsConcat(head + OptStr(3, c.scanlator), OptBool(4, c.read));
    ch.Varint(6, c.lastPageRead);
    EncFieldsConcat(head + OptStr(3, c.scanlator) + OptBool(4, c.read), OptVarint(6, c.lastPageRead));
    ch.Float(9, ToSingle(c.number));
    EncFieldsConcat(head + OptStr(3, c.scanlator) + OptBool(4, c.read) + OptVarint(6, c.lastPageRead),
                    OptFloat(9, ToSingle(c.number)));
  }

  method WriteHead(m: Enc, e: Manga)
    requires m.b == []
    modifies m
    ensures m.b == EncFields(HeadFields(e))
  {
    var f1, f2 := VarintField(1, ParseInt(e.sourceId)), StrField(2, e.url);
    m.VarintAlways(1, ParseInt(e.sourceId));
    m.StrAlways(2, e.url);
    EncFieldsConcat([f1], [f2]);
    assert [f1] + [f2] == [f1, f2];
    WriteTexts(m, [f1, f2], e.title, e.artist, e.author, e.description);
  }

  method WriteTexts(m: Enc, ghost head: seq<Field>, title: Text, artist: Text, author: Text, description: Text)
    requires m.b == EncFields(head)
    modifies m
    ensures m.b == EncFields(head + OptStr(3, title) + OptStr(4, artist) + OptStr(5, author) + OptStr(6, description))
  {
    m.Str(3, title);
    EncFieldsConcat(head, OptStr(3, title));
    m.Str(4, artist);
    EncFieldsConcat(head + OptStr(3, title), OptStr(4, artist));
    m.Str(5, author);
    EncFieldsConcat(head + OptStr(3, title) + OptStr(4, artist), OptStr(5, author));
    m.Str(6, description);
    EncFieldsConcat(head + OptStr(3, title) + OptStr(4, artist) + OptStr(5, author), OptStr(6, description));
  }

  method WriteStrs(m: Enc, num: nat, ss: seq<Text>)
    modifies m
    ensures m.b == old(m.b) + EncFields(OptStrs(num, ss))
  {
    for i := 0 to |ss|
      invariant m.b == old(m.b) + EncFields(OptStrs(num, ss[..i]))
    {
      assert ss[..i + 1][..i] == ss[..i];
      Append(old(m.b), OptStrs(num, ss[..i]), OptStr(num, ss[i]));
      m.Str(num, ss[i]);
    }
    assert ss[..|ss|] == ss;
  }

  method WriteStatus(m: Enc, e: Manga)
    modifies m
    ensures m.b == old(m.b) + EncFields(StatusFields(e))
  {
    m.Varint(8, StatusCode(e.status));
    m.Str(9, e.thumbnailUrl);
    Append(old(m.b), OptVarint(8, StatusCode(e.status)), OptStr(9, e.thumbnailUrl));
    if !IsZero(e.addedAt) {
      m.Varint(13, UnixMilli(e.addedAt));
    }
    Append(old(m.b), OptVarint(8, StatusCode(e.status)) + OptStr(9, e.thumbnailUrl), AddedFields(e));
  }

  method WriteChapters(m: Enc, cs: seq<Chapter>)
    modifies m
    ensures m.b == old(m.b) + EncFields(ChaptersFields(cs))
  {
    for i := 0 to |cs|
      invariant m.b == old(m.b) + EncFields(ChaptersFields(cs[..i]))
    {
      assert cs[..i + 1][..i] == cs[..i];
      Append(old(m.b), ChaptersFields(cs[..i]), [MsgField(16, ChapterFields(cs[i]))]);
      var ch := WriteChapter(cs[i]);
      m.Msg(16, ch);
    }
    assert cs[..|cs|] == cs;
  }

  method WriteCategoryRefs(m: Enc, names: seq<Text>, orders: map<Text, I64>)
    modifies m
    ensures m.b == old(m.b) + EncFields(CategoryRefs(names, orders))
  {
    for i := 0 to |names|
      invariant m.b == old(m.b) + EncFields(CategoryRefs(names[..i], orders))
    {
      assert names[..i + 1][..i] == names[..i];
      Append(old(m.b), CategoryRefs(names[..i], orders), if names[i] in orders then OptVarint(17, orders[names[i]]) else []);
      if names[i] in orders {
        m.Varint(17, orders[names[i]]);
      }
    }
    assert names[..|names|] == names;
  }

  method WriteTracker(m: Enc, t: Tracker, id: Text)
    modifies m
    ensures m.b == old(m.b) + EncFields(TrackerField(t, id))
  {
    var sync, n := SyncId(t), ParseInt(id);
    if sync != 0 && n != 0 {
      var msg := WriteSync(sync);
      msg.Varint(100, n);
      EncFieldsConcat([VarintField(1, sync), VarintField(2, 0)], OptVarint(100, n));
      m.Msg(18, msg);
    } else if t.MangaUpdates? && id != [] {
      var msg := WriteSync(sync);
      msg.Str(4, SeriesUrl(id));
      EncFieldsConcat([VarintField(1, sync), VarintField(2, 0)], OptStr(4, SeriesUrl(id)));
      m.Msg(18, msg);
    }
  }

  method WriteSync(sync: I64) returns (msg: Enc)
    ensures fresh(msg) && msg.b == EncFields([VarintField(1, sync), VarintField(2, 0)])
  {
    msg := new Enc();
    msg.VarintAlways(1, sync);
    msg.VarintAlways(2, 0);
    EncFieldsConcat([VarintField(1, sync)], [VarintField(2, 0)]);
    assert [VarintField(1, sync)] + [VarintField(2, 0)] == [VarintField(1, sync), VarintField(2, 0)];
  }

  /** One more key walked. */
  lemma WalksNext<K(!new)>(order: seq<K>, keys: set<K>, left: set<K>, x: K)
    requires left <= keys && x in left && Walks(order, keys - left)
    ensures Walks(order + [x], keys - (left - {x})) && x !in order
  {
    assert keys - (left - {x}) == (keys - left) + {x};
    assert forall i :: 0 <= i < |order| ==> order[i] in order;
  }

  lemma TrackersNext(before: Bytes, trackers: map<Tracker, Text>, order: seq<Tracker>, t: Tracker)
    ensures before + EncFields(TrackerFields(trackers, order)) + EncFields(TrackerField(t, IdOf(trackers, t)))
      == before + EncFields(TrackerFields(trackers, order + [t]))
  {
    assert (order + [t])[..|order|] == order;
    Append(before, TrackerFields(trackers, order), TrackerField(t, IdOf(trackers, t)));
  }

  /** Go walks a map in no particular order. */
  method WriteTrackers(m: Enc, trackers: map<Tracker, Text>) returns (ghost order: seq<Tracker>)
    modifies m
    ensures Walks(order, trackers.Keys)
    ensures m.b == old(m.b) + EncFields(TrackerFields(trackers, order))
  {
    order := [];
    var left := trackers.Keys;
    while left != {}
      invariant left <= trackers.Keys && Walks(order, trackers.Keys - left)
      invariant m.b == old(m.b) + EncFields(TrackerFields(trackers, order))
      decreases |left|
    {
      var t :| t in left;
      TrackersNext(old(m.b), trackers, order, t);
      WalksNext(order, trackers.Keys, left, t);
      WriteTracker(m, t, trackers[t]);
      order, left := order + [t], left - {t};
    }
  }

  method WriteRead(url: Text, ms: I64) returns (h: Enc)
    ensures fresh(h) && h.b == EncFields([StrField(1, url), VarintField(2, ms)])
  {
    h := new Enc();
    h.StrAlways(1, url);
    h.VarintAlways(2, ms);
    EncFieldsConcat([StrField(1, url)], [VarintField(2, ms)]);
    assert [StrField(1, url)] + [VarintField(2, ms)] == [StrField(1, url), VarintField(2, ms)];
  }

  lemma HistoryNext(before: Bytes, cs: seq<Chapter>, i: nat)
    requires i < |cs|
    ensures before + EncFields(HistoryFields(cs[..i])) + EncFields(HistoryField(cs[i]))
      == before + EncFields(HistoryFields(cs[..i + 1]))
  {
    assert cs[..i + 1][..i] == cs[..i];
    Append(before, HistoryFields(cs[..i]), HistoryField(cs[i]));
  }

  method WriteHistory(m: Enc, cs: seq<Chapter>)
    modifies m
    ensures m.b == old(m.b) + EncFields(HistoryFields(cs))
  {
    for i := 0 to |cs|
      invariant m.b == old(m.b) + EncFields(HistoryFields(cs[..i]))
    {
      HistoryNext(old(m.b), cs, i);
      if cs[i].readAt.Some? {
        var h := WriteRead(cs[i].url, UnixMilli(cs[i].readAt.value));
        m.Msg(104, h);
      }
    }
    assert cs[..|cs|] == cs;
  }

  method WriteFavorite(m: Enc, e: Manga)
    modifies m
    ensures m.b == old(m.b) + EncFields(FavoriteFields(e))
  {
    if !e.favorite {
      EncOne(VarintField(100, 0));
      m.Key(100, WIRE_VARINT);
      m.b := m.b + [0];
    }
  }

  method WriteManga(e: Manga, orders: map<Text, I64>) returns (m: Enc, ghost order: seq<Tracker>)
    ensures fresh(m) && Walks(order, e.trackers.Keys)
    ensures m.b == EncFields(MangaFields(e, orders, order))
  {
    m := new Enc();
    WriteHead(m, e);
    ghost var a := HeadFields(e);
    WriteStrs(m, 7, e.genres);
    EncFieldsConcat(a, OptStrs(7, e.genres));
    a := a + OptStrs(7, e.genres);
    WriteStatus(m, e);
    EncFieldsConcat(a, StatusFields(e));
    a := a + StatusFields(e);
    WriteChapters(m, e.chapters);
    EncFieldsConcat(a, ChaptersFields(e.chapters));
    a := a + ChaptersFields(e.chapters);
    WriteCategoryRefs(m, e.categories, orders);
    EncFieldsConcat(a, CategoryRefs(e.categories, orders));
    a := a + CategoryRefs(e.categories, orders);
    order := WriteTrackers(m, e.trackers);
    EncFieldsConcat(a, TrackerFields(e.trackers, order));
    a := a + TrackerFields(e.trackers, order);
    WriteFavorite(m, e);
    EncFieldsConcat(a, FavoriteFields(e));
    a := a + FavoriteFields(e);
    WriteHistory(m, e.chapters);
    EncFieldsConcat(a, HistoryFields(e.chapters));
    a := a + HistoryFields(e.chapters);
    WriteStrs(m, 108, e.excludedScanlators);
    EncFieldsConcat(a, OptStrs(108, e.excludedScanlators));
  }

  method NumberCategories(categories: seq<Text>) returns (orders: map<Text, I64>)
    ensures orders == Orders(categories)
  {
    orders := map[];
    for i := 0 to |categories|
      invariant orders == Orders(categories[..i])
    {
      assert categories[..i + 1][..i] == categories[..i];
      orders := orders[categories[i] := Wrap(i + 1)];
    }
    assert categories[..|categories|] == categories;
  }

  method WriteEntries(out: Enc, es: seq<Manga>, orders: map<Text, I64>) returns (ghost trackers: seq<seq<Tracker>>)
    modifies out
    ensures TrackersWalked(es, trackers)
    ensures out.b == old(out.b) + EncFields(EntriesFields(es, orders, trackers))
  {
    trackers := [];
    for i := 0 to |es|
      invariant TrackersWalked(es[..i], trackers)
      invariant out.b == old(out.b) + EncFields(EntriesFields(es[..i], orders, trackers))
    {
      var m, order := WriteManga(es[i], orders);
      out.Msg(1, m);
      EntriesNext(old(out.b), es, orders, trackers, order, i);
      trackers := trackers + [order];
    }
    assert es[..|es|] == es;
  }

  lemma EntriesNext(before: Bytes, es: seq<Manga>, orders: map<Text, I64>, trackers: seq<seq<Tracker>>, order: seq<Tracker>, i: nat)
    requires i < |es| && TrackersWalked(es[..i], trackers) && Walks(order, es[i].trackers.Keys)
    ensures TrackersWalked(es[..i + 1], trackers + [order])
    ensures before + EncFields(EntriesFields(es[..i], orders, trackers)) + EncFields([MsgField(1, MangaFields(es[i], orders, order))])
      == before + EncFields(EntriesFields(es[..i + 1], orders, trackers + [order]))
  {
    WalkedNext(es, trackers, order, i);
    EntriesFieldsNext(es[..i + 1], orders, trackers + [order], i);
    assert es[..i + 1][..i] == es[..i] && (trackers + [order])[..i] == trackers;
    Append(before, EntriesFields(es[..i], orders, trackers), [MsgField(1, MangaFields(es[i], orders, order))]);
  }

  lemma EntriesFieldsNext(es: seq<Manga>, orders: map<Text, I64>, trackers: seq<seq<Tracker>>, n: nat)
    requires |trackers| == |es| == n + 1
    ensures EntriesFields(es, orders, trackers) ==
      EntriesFields(es[..n], orders, trackers[..n]) + [MsgField(1, MangaFields(es[n], orders, trackers[n]))]
  {
  }

  lemma WalkedNext(es: seq<Manga>, trackers: seq<seq<Tracker>>, order: seq<Tracker>, i: nat)
    requires i < |es| && TrackersWalked(es[..i], trackers) && Walks(order, es[i].trackers.Keys)
    ensures TrackersWalked(es[..i + 1], trackers + [order])
  {
    var all := trackers + [order];
    forall k | 0 <= k < i + 1 ensures Walks(all[k], es[..i + 1][k].trackers.Keys) {
      assert k < i ==> all[k] == trackers[k] && es[..i + 1][k] == es[..i][k];
    }
  }

  method WriteCategories(out: Enc, cs: seq<Text>)
    modifies out
    ensures out.b == old(out.b) + EncFields(CategoriesFields(cs))
  {
    for i := 0 to |cs|
      invariant out.b == old(out.b) + EncFields(CategoriesFields(cs[..i]))
    {
      assert cs[..i + 1][..i] == cs[..i];
      Append(old(out.b), CategoriesFields(cs[..i]), [CategoryField(cs[i], i + 1)]);
      var m := WriteCategory(cs[i], Wrap(i + 1));
      out.Msg(2, m);
    }
    assert cs[..|cs|] == cs;
  }

  method WriteCategory(name: Text, n: I64) returns (m: Enc)
    ensures fresh(m) && m.b == EncFields([StrField(1, name)] + OptVarint(2, n))
  {
    m := new Enc();
    m.StrAlways(1, name);
    m.Varint(2, n);
    EncFieldsConcat([StrField(1, name)], OptVarint(2, n));
  }

  method WriteSource(name: Text, n: I64) returns (m: Enc)
    ensures fresh(m) && m.b == EncFields(OptStr(1, name) + [VarintField(2, n)])
  {
    m := new Enc();
    m.Str(1, name);
    m.VarintAlways(2, n);
    Append([], OptStr(1, name), [VarintField(2, n)]);
    FromNothing(EncFields(OptStr(1, name) + [VarintField(2, n)]));
  }

  method WriteSourceMsg(out: Enc, name: Text, n: I64)
    modifies out
    ensures out.b == old(out.b) + EncFields([MsgField(101, OptStr(1, name) + [VarintField(2, n)])])
  {
    var m := WriteSource(name, n);
    out.Msg(101, m);
  }

  lemma SourcesNext(before: Bytes, sources: map<Text, Text>, order: seq<Text>, id: Text)
    ensures before + EncFields(SourcesFields(sources, order))
        + EncFields([MsgField(101, OptStr(1, NameOf(sources, id)) + [VarintField(2, ParseInt(id))])])
      == before + EncFields(SourcesFields(sources, order + [id]))
  {
    assert (order + [id])[..|order|] == order;
    Append(before, SourcesFields(sources, order), [MsgField(101, OptStr(1, NameOf(sources, id)) + [VarintField(2, ParseInt(id))])]);
  }

  method WriteSources(out: Enc, sources: map<Text, Text>) returns (ghost order: seq<Text>)
    modifies out
    ensures Walks(order, sources.Keys)
    ensures out.b == old(out.b) + EncFields(SourcesFields(sources, order))
  {
    order := [];
    var left := sources.Keys;
    while left != {}
      invariant left <= sources.Keys && Walks(order, sources.Keys - left)
      invariant out.b == old(out.b) + EncFields(SourcesFields(sources, order))
      decreases |left|
    {
      var id :| id in left;
      SourcesNext(old(out.b), sources, order, id);
      WalksNext(order, sources.Keys, left, id);
      WriteSourceMsg(out, sources[id], ParseInt(id));
      order, left := order + [id], left - {id};
    }
  }

  // ---- preferences --------------------------------------------------------------------------

  lemma {:induction false} TextLessTotal(a: Text, b: Text)
    ensures !(TextLess(a, b) && TextLess(b, a)) && !TextLess(a, a)
  {
    if a != [] {
      TextLessTotal(a[1..], a[1..]);
      if b != [] {
        TextLessTotal(a[1..], b[1..]);
      }
    }
  }

  lemma {:induction false} TextLessChains(a: Text, b: Text, c: Text)
    ensures TextLess(a, b) && TextLess(b, c) ==> TextLess(a, c)
    ensures TextLess(a, c) ==> TextLess(a, b) || TextLess(b, c)
  {
    if a != [] && b != [] && c != [] {
      TextLessChains(a[1..], b[1..], c[1..]);
    }
  }

  lemma TextLessWeak()
    ensures StrictWeak(TextLess)
  {
    forall x, y, z ensures !TextLess(x, x)
      && (TextLess(x, y) && TextLess(y, z) ==> TextLess(x, z)) && (TextLess(x, z) ==> TextLess(x, y) || TextLess(y, z))
    {
      TextLessTotal(x, x);
      TextLessChains(x, y, z);
    }
  }

  /** Sorting the keys of a map, however it was walked. */
  lemma SortedKeys(keys: seq<Text>, domain: set<Text>)
    requires Walks(keys, domain)
    ensures Walks(StableSort(keys, TextLess), domain) && NoInversion(StableSort(keys, TextLess), TextLess)
  {
    var sorted := StableSort(keys, TextLess);
    TextLessWeak();
    StableSortMembers(keys, TextLess);
    StableSortSorts(keys, TextLess, (a, b) => true);
    NoDuplicates(keys, sorted);
    forall i, j | 0 <= i < j < |sorted| ensures !TextLess(sorted[j], sorted[i]) {
      assert Then(TextLess, (a, b) => true)(sorted[i], sorted[j]);
      TextLessTotal(sorted[i], sorted[j]);
    }
  }

  lemma NoDuplicates<T>(s: seq<T>, r: seq<T>)
    requires multiset(s) == multiset(r)
    requires forall i, j :: 0 <= i < j < |s| ==> s[i] != s[j]
    ensures forall i, j :: 0 <= i < j < |r| ==> r[i] != r[j]
  {
    forall i, j | 0 <= i < j < |r| ensures r[i] != r[j] {
      if r[i] == r[j] {
        TwiceIn(r, i, j);
        OnceIn(s, r[i]);
      }
    }
  }

  lemma TwiceIn<T>(r: seq<T>, i: nat, j: nat)
    requires i < j < |r| && r[i] == r[j]
    ensures multiset(r)[r[i]] >= 2
  {
    assert r == r[..j] + [r[j]] + r[j + 1..];
    assert r[i] == r[..j][i];
    assert r[i] in multiset(r[..j]);
  }

  lemma {:induction false} OnceIn<T>(s: seq<T>, x: T)
    requires forall i, j :: 0 <= i < j < |s| ==> s[i] != s[j]
    ensures multiset(s)[x] <= 1
  {
    if s != [] {
      OnceIn(s[1..], x);
      assert s == [s[0]] + s[1..];
      if x == s[0] {
        assert forall j :: 0 <= j < |s[1..]| ==> s[1..][j] != x;
        assert x !in multiset(s[1..]);
      }
    }
  }

  method MapKeys(m: map<Text, Text>) returns (keys: seq<Text>)
    ensures Walks(keys, m.Keys)
  {
    keys := [];
    var left := m.Keys;
    while left != {}
      invariant left <= m.Keys && Walks(keys, m.Keys - left)
      decreases |left|
    {
      var k :| k in left;
      keys, left := keys + [k], left - {k};
    }
  }

  method WriteText(s: Text) returns (m: Enc)
    ensures fresh(m) && m.b == EncFields([StrField(1, s)])
  {
    m := new Enc();
    m.StrAlways(1, s);
  }

  method WritePair(s: Text, inner: Enc) returns (m: Enc)
    ensures fresh(m) && m.b == EncFields([StrField(1, s), StrField(2, old(inner.b))])
  {
    m := WriteText(s);
    m.Msg(2, inner);
    EncFieldsConcat([StrField(1, s)], [StrField(2, inner.b)]);
    assert [StrField(1, s)] + [StrField(2, inner.b)] == [StrField(1, s), StrField(2, inner.b)];
  }

  method WritePreference(sp: Enc, key: Text, value: Text)
    modifies sp
    ensures sp.b == old(sp.b) + EncFields([PreferenceField(key, value)])
  {
    var text := WriteText(value);
    var typed := WritePair(Ascii("eu.kanade.tachiyomi.data.backup.models.StringPreferenceValue"), text);
    var pair := WritePair(key, typed);
    sp.Msg(2, pair);
  }

  method SortedMapKeys(m: map<Text, Text>) returns (keys: seq<Text>)
    ensures Walks(keys, m.Keys) && NoInversion(keys, TextLess)
  {
    keys := MapKeys(m);
    SortedKeys(keys, m.Keys);
    keys := StableSort(keys, TextLess);
  }

  method WriteStrings(sp: Enc, strings: map<Text, Text>, keys: seq<Text>)
    modifies sp
    ensures sp.b == old(sp.b) + EncFields(PreferenceFields(strings, keys))
  {
    for i := 0 to |keys|
      invariant sp.b == old(sp.b) + EncFields(PreferenceFields(strings, keys[..i]))
    {
      assert keys[..i + 1][..i] == keys[..i];
      Append(old(sp.b), PreferenceFields(strings, keys[..i]), [PreferenceField(keys[i], NameOf(strings, keys[i]))]);
      WritePreference(sp, keys[i], NameOf(strings, keys[i]));
    }
    assert keys[..|keys|] == keys;
  }

  method WriteSourcePreferences(p: Preferences) returns (sp: Enc, ghost f: Field)
    ensures fresh(sp) && IsPreference(f, p) && f == StrField(105, sp.b)
  {
    var keys := SortedMapKeys(p.strings);
    var name := StrField(1, Ascii("source_") + p.sourceId);
    sp := WriteText(name.bytes);
    WriteStrings(sp, p.strings, keys);
    EncFieldsConcat([name], PreferenceFields(p.strings, keys));
    f := MsgField(105, [name] + PreferenceFields(p.strings, keys));
  }

  method WritePreferences(out: Enc, prefs: seq<Preferences>) returns (ghost fs: seq<Field>)
    modifies out
    ensures IsPreferences(fs, prefs) && out.b == old(out.b) + EncFields(fs)
  {
    fs := [];
    for i := 0 to |prefs|
      invariant IsPreferences(fs, prefs[..i]) && out.b == old(out.b) + EncFields(fs)
    {
      var sp, f := WriteSourcePreferences(prefs[i]);
      out.Msg(105, sp);
      PreferencesNext(old(out.b), fs, f, prefs, i);
      fs := fs + [f];
    }
    assert prefs[..|prefs|] == prefs;
  }

  lemma PreferencesNext(before: Bytes, fs: seq<Field>, f: Field, prefs: seq<Preferences>, i: nat)
    requires i < |prefs| && IsPreferences(fs, prefs[..i]) && IsPreference(f, prefs[i])
    ensures IsPreferences(fs + [f], prefs[..i + 1])
    ensures before + EncFields(fs) + EncFields([f]) == before + EncFields(fs + [f])
  {
    Append(before, fs, [f]);
    forall k | 0 <= k < i + 1 ensures IsPreference((fs + [f])[k], prefs[..i + 1][k]) {
      assert k < i ==> IsPreference(fs[k], prefs[..i][k]);
    }
  }

  /** MarshalMihon before compression. */
  method MarshalMihon(b: Backup, prefs: seq<Preferences>) returns (data: Bytes, ghost w: Walk, ghost fs: seq<Field>)
    ensures ValidWalk(w, b) && IsPreferences(fs, prefs)
    ensures data == EncFields(BackupFields(b, w) + fs)
  {
    var out := new Enc();
    w := WriteBackup(out, b);
    fs := WritePreferences(out, prefs);
    EncFieldsConcat(BackupFields(b, w), fs);
    data := out.b;
  }

  method WriteBackup(out: Enc, b: Backup) returns (ghost w: Walk)
    requires out.b == []
    modifies out
    ensures ValidWalk(w, b) && out.b == EncFields(BackupFields(b, w))
  {
    var orders := NumberCategories(b.categories);
    ghost var trackers := WriteEntries(out, b.entries, orders);
    WriteCategories(out, b.categories);
    ghost var order := WriteSources(out, b.sources);
    w := Walk(order, trackers);
    ThreeGroups(EntriesFields(b.entries, orders, trackers), CategoriesFields(b.categories), SourcesFields(b.sources, order));
  }

  lemma ThreeGroups(a: seq<Field>, b: seq<Field>, c: seq<Field>)
    ensures [] + EncFields(a) + EncFields(b) + EncFields(c) == EncFields(a + b + c)
  {
    Append([], a, b);
    Append([], a + b, c);
    FromNothing(EncFields(a + b + c));
  }

  /** Writing a portable backup and reading the bytes gives the backup. */
  method WriteAndRead(b: Backup, prefs: seq<Preferences>) returns (r: Result<Backup>, size: nat)
    ensures size < TWO63 ==> (r == Ok(Kept(b)) <==> Readable(b) && Portable(b))
  {
    var data, w, fs := MarshalMihon(b, prefs);
    r := ParseMihon(data);
    size := |data|;
    if size < TWO63 {
      RoundTrip(b, w, prefs, fs);
    }
  }
}
