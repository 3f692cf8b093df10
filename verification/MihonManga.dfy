/** Reading one written manga. */
module MihonManga {
  import opened Common
  import opened Varint
  import opened Wire
  import opened Decimal
  import opened Mihon
  import opened MihonWriter
  import opened MihonRoundTrip

  lemma TextReads(f: Field, s: MangaState, cats: map<I64, Text>)
    requires Writable(f) && f.num != 16 && f.num != 17 && f.num != 18 && f.num != 104
    ensures Reads([f], s, MangaReader(cats), s.(e := TextStep(s.e, f)))
  {
    ReadsOne(f, s, MangaReader(cats));
  }

  /** An optional text of a field other than the four message fields. */
  lemma OptStrReads(num: nat, x: Text, s: MangaState, t: MangaState, cats: map<I64, Text>)
    requires num < 16 || num == 108
    requires if x == [] then t == s else t == s.(e := TextStep(s.e, StrField(num, x)))
    ensures Reads(OptStr(num, x), s, MangaReader(cats), t)
  {
    if x == [] {
      ReadsNone(s, MangaReader(cats));
    } else {
      TextReads(StrField(num, x), s, cats);
    }
  }

  lemma OptVarintReads(num: nat, v: I64, s: MangaState, t: MangaState, cats: map<I64, Text>)
    requires num < 16
    requires if v == 0 then t == s else t == s.(e := TextStep(s.e, VarintField(num, v)))
    ensures Reads(OptVarint(num, v), s, MangaReader(cats), t)
  {
    if v == 0 {
      ReadsNone(s, MangaReader(cats));
    } else {
      TextReads(VarintField(num, v), s, cats);
    }
  }

  lemma HeadReads(s: MangaState, e: Manga, cats: map<I64, Text>)
    requires s.e.title == [] && s.e.artist == [] && s.e.author == [] && s.e.description == []
    ensures Reads(HeadFields(e), s, MangaReader(cats),
                  s.(e := s.e.(sourceId := FormatInt(ParseInt(e.sourceId)), url := e.url, title := e.title,
                               artist := e.artist, author := e.author, description := e.description)))
  {
    var s1 := s.(e := s.e.(sourceId := FormatInt(ParseInt(e.sourceId))));
    var s2 := s1.(e := s1.e.(url := e.url));
    var s3 := s2.(e := s2.e.(title := e.title));
    var s4 := s3.(e := s3.e.(artist := e.artist));
    var s5 := s4.(e := s4.e.(author := e.author));
    var s6 := s5.(e := s5.e.(description := e.description));
    var f1, f2 := VarintField(1, ParseInt(e.sourceId)), StrField(2, e.url);
    var step := MangaReader(cats);
    TextReads(f1, s, cats);
    TextReads(f2, s1, cats);
    ReadsBoth([f1], [f2], s, s1, s2, step);
    assert [f1] + [f2] == [f1, f2];
    OptStrReads(3, e.title, s2, s3, cats);
    ReadsBoth([f1, f2], OptStr(3, e.title), s, s2, s3, step);
    OptStrReads(4, e.artist, s3, s4, cats);
    ReadsBoth([f1, f2] + OptStr(3, e.title), OptStr(4, e.artist), s, s3, s4, step);
    OptStrReads(5, e.author, s4, s5, cats);
    ReadsBoth([f1, f2] + OptStr(3, e.title) + OptStr(4, e.artist), OptStr(5, e.author), s, s4, s5, step);
    OptStrReads(6, e.description, s5, s6, cats);
    ReadsBoth([f1, f2] + OptStr(3, e.title) + OptStr(4, e.artist) + OptStr(5, e.author), OptStr(6, e.description), s, s5, s6, step);
  }

  lemma {:induction false} GenresRead(s: MangaState, gs: seq<Text>, cats: map<I64, Text>)
    ensures Reads(OptStrs(7, gs), s, MangaReader(cats), s.(e := s.e.(genres := s.e.genres + NonEmpty(gs))))
  {
    if gs == [] {
      assert s.e.genres + [] == s.e.genres;
      ReadsNone(s, MangaReader(cats));
    } else {
      var n := |gs| - 1;
      GenresRead(s, gs[..n], cats);
      var s1 := s.(e := s.e.(genres := s.e.genres + NonEmpty(gs[..n])));
      var s2 := s.(e := s.e.(genres := s.e.genres + NonEmpty(gs)));
      assert gs[n] == [] ==> NonEmpty(gs) == NonEmpty(gs[..n]);
      assert gs[n] != [] ==> s.e.genres + NonEmpty(gs) == s1.e.genres + [gs[n]];
      OptStrReads(7, gs[n], s1, s2, cats);
      ReadsBoth(OptStrs(7, gs[..n]), OptStr(7, gs[n]), s, s1, s2, MangaReader(cats));
    }
  }

  lemma {:induction false} ScanlatorsRead(s: MangaState, gs: seq<Text>, cats: map<I64, Text>)
    ensures Reads(OptStrs(108, gs), s, MangaReader(cats),
                  s.(e := s.e.(excludedScanlators := s.e.excludedScanlators + NonEmpty(gs))))
  {
    if gs == [] {
      assert s.e.excludedScanlators + [] == s.e.excludedScanlators;
      ReadsNone(s, MangaReader(cats));
    } else {
      var n := |gs| - 1;
      ScanlatorsRead(s, gs[..n], cats);
      var s1 := s.(e := s.e.(excludedScanlators := s.e.excludedScanlators + NonEmpty(gs[..n])));
      var s2 := s.(e := s.e.(excludedScanlators := s.e.excludedScanlators + NonEmpty(gs)));
      assert gs[n] == [] ==> NonEmpty(gs) == NonEmpty(gs[..n]);
      assert gs[n] != [] ==> s.e.excludedScanlators + NonEmpty(gs) == s1.e.excludedScanlators + [gs[n]];
      OptStrReads(108, gs[n], s1, s2, cats);
      ReadsBoth(OptStrs(108, gs[..n]), OptStr(108, gs[n]), s, s1, s2, MangaReader(cats));
    }
  }

  lemma StatusReads(s: MangaState, e: Manga, cats: map<I64, Text>)
    requires s.e.status == Unknown && s.e.thumbnailUrl == [] && s.e.addedAt == NO_TIME
    ensures Reads(StatusFields(e), s, MangaReader(cats),
                  s.(e := s.e.(status := StatusImage(e.status), thumbnailUrl := e.thumbnailUrl, addedAt := TimeImage(e.addedAt))))
  {
    var s1 := s.(e := s.e.(status := StatusImage(e.status)));
    var s2 := s1.(e := s1.e.(thumbnailUrl := e.thumbnailUrl));
    var s3 := s2.(e := s2.e.(addedAt := TimeImage(e.addedAt)));
    var step := MangaReader(cats);
    OptVarintReads(8, StatusCode(e.status), s, s1, cats);
    OptStrReads(9, e.thumbnailUrl, s1, s2, cats);
    ReadsBoth(OptVarint(8, StatusCode(e.status)), OptStr(9, e.thumbnailUrl), s, s1, s2, step);
    if IsZero(e.addedAt) {
      ReadsNone(s2, step);
    } else {
      OptVarintReads(13, UnixMilli(e.addedAt), s2, s3, cats);
    }
    ReadsBoth(OptVarint(8, StatusCode(e.status)) + OptStr(9, e.thumbnailUrl), AddedFields(e), s, s2, s3, step);
  }

  lemma ChapterFieldReads(s: MangaState, c: Chapter, cats: map<I64, Text>)
    requires |EncFields(ChapterFields(c))| < TWO64
    ensures Reads([MsgField(16, ChapterFields(c))], s, MangaReader(cats),
                  s.(e := s.e.(chapters := s.e.chapters + [ChapterImage(c)])))
  {
    ChapterReads(c);
    ReadsOne(MsgField(16, ChapterFields(c)), s, MangaReader(cats));
  }

  lemma ChapterImagesGrow(before: seq<Chapter>, cs: seq<Chapter>)
    requires cs != []
    ensures var n := |cs| - 1;
      before + ChapterImages(cs[..n]) + [ChapterImage(cs[n])] == before + ChapterImages(cs)
  {
  }

  lemma {:induction false} ChaptersRead(s: MangaState, cs: seq<Chapter>, cats: map<I64, Text>)
    requires |EncFields(ChaptersFields(cs))| < TWO64
    ensures Reads(ChaptersFields(cs), s, MangaReader(cats),
                  s.(e := s.e.(chapters := s.e.chapters + ChapterImages(cs))))
  {
    if cs == [] {
      assert s.e.chapters + ChapterImages(cs) == s.e.chapters;
      ReadsNone(s, MangaReader(cats));
    } else {
      var n := |cs| - 1;
      var a, b := ChaptersFields(cs[..n]), [MsgField(16, ChapterFields(cs[n]))];
      PartLengths(a, b);
      MsgShorter(a, 16, ChapterFields(cs[n]));
      ChaptersRead(s, cs[..n], cats);
      var s1 := s.(e := s.e.(chapters := s.e.chapters + ChapterImages(cs[..n])));
      ChapterFieldReads(s1, cs[n], cats);
      ChapterImagesGrow(s.e.chapters, cs);
      ReadsBoth(a, b, s, s1, s.(e := s.e.(chapters := s.e.chapters + ChapterImages(cs))), MangaReader(cats));
    }
  }

  // ---- categories --------------------------------------------------------------------------

  /** The writer's order of each listed name leads the reader back to the name. */
  ghost predicate Matching(orders: map<Text, I64>, cats: map<I64, Text>, categories: seq<Text>) {
    && (forall name :: name in orders <==> name in categories)
    && (forall name :: name in orders ==> orders[name] != 0 && orders[name] in cats && cats[orders[name]] == name)
  }

  lemma CategoryRead(s: MangaState, name: Text, orders: map<Text, I64>, cats: map<I64, Text>, categories: seq<Text>)
    requires Matching(orders, cats, categories)
    ensures Reads(if name in orders then OptVarint(17, orders[name]) else [], s, MangaReader(cats),
                  s.(e := s.e.(categories := s.e.categories + if name in categories then [name] else [])))
  {
    if name in orders {
      var f := VarintField(17, orders[name]);
      NamedOne(orders[name], cats);
      ReadsOne(f, s, MangaReader(cats));
    } else {
      assert s.e.categories + [] == s.e.categories;
      ReadsNone(s, MangaReader(cats));
    }
  }

  lemma NamedOne(order: I64, cats: map<I64, Text>)
    requires order in cats
    ensures Named([order], cats) == [cats[order]]
  {
    assert Named([order][..0], cats) == [];
  }

  lemma {:induction false} CategoriesRead(s: MangaState, names: seq<Text>, orders: map<Text, I64>, cats: map<I64, Text>, categories: seq<Text>)
    requires Matching(orders, cats, categories)
    ensures Reads(CategoryRefs(names, orders), s, MangaReader(cats),
                  s.(e := s.e.(categories := s.e.categories + Listed(names, categories))))
  {
    if names == [] {
      assert s.e.categories + [] == s.e.categories;
      ReadsNone(s, MangaReader(cats));
    } else {
      var n := |names| - 1;
      CategoriesRead(s, names[..n], orders, cats, categories);
      var s1 := s.(e := s.e.(categories := s.e.categories + Listed(names[..n], categories)));
      CategoryRead(s1, names[n], orders, cats, categories);
      var one := if names[n] in categories then [names[n]] else [];
      assert s1.e.categories + one == s.e.categories + Listed(names, categories);
      ReadsBoth(CategoryRefs(names[..n], orders), if names[n] in orders then OptVarint(17, orders[names[n]]) else [],
                s, s1, s.(e := s.e.(categories := s.e.categories + Listed(names, categories))), MangaReader(cats));
    }
  }

  // ---- history -------------------------------------------------------------------------------

  /** The history the writer makes of chapters. */
  function HistoryOf(cs: seq<Chapter>): seq<Tagged> {
    if cs == [] then [] else
      var c := cs[|cs| - 1];
      HistoryOf(cs[..|cs| - 1]) + (if c.readAt.Some? then [Tagged(c.url, UnixMilli(c.readAt.value))] else [])
  }

  lemma TaggedReads(text: Text, n: I64)
    requires |EncFields([StrField(1, text), VarintField(2, n)])| < TWO64
    ensures ParseTagged(EncFields([StrField(1, text), VarintField(2, n)])) == Ok(Tagged(text, n))
  {
    ReadsOne(StrField(1, text), Tagged([], 0), TaggedStep);
    ReadsOne(VarintField(2, n), Tagged(text, 0), TaggedStep);
    ReadsBoth([StrField(1, text)], [VarintField(2, n)], Tagged([], 0), Tagged(text, 0), Tagged(text, n), TaggedStep);
    assert [StrField(1, text)] + [VarintField(2, n)] == [StrField(1, text), VarintField(2, n)];
    RunReads([StrField(1, text), VarintField(2, n)], Tagged([], 0), TaggedStep, Tagged(text, n));
  }

  lemma HistoryFieldReads(s: MangaState, c: Chapter, cats: map<I64, Text>)
    requires |EncFields(HistoryField(c))| < TWO64
    ensures Reads(HistoryField(c), s, MangaReader(cats),
                  s.(history := s.history + if c.readAt.Some? then [Tagged(c.url, UnixMilli(c.readAt.value))] else []))
  {
    if c.readAt.None? {
      assert s.history + [] == s.history;
      ReadsNone(s, MangaReader(cats));
    } else {
      var fs := [StrField(1, c.url), VarintField(2, UnixMilli(c.readAt.value))];
      assert HistoryField(c) == [MsgField(104, fs)];
      MsgAlone(104, fs);
      TaggedReads(c.url, UnixMilli(c.readAt.value));
      ReadsOne(MsgField(104, fs), s, MangaReader(cats));
    }
  }

  lemma {:induction false} HistoryReads(s: MangaState, cs: seq<Chapter>, cats: map<I64, Text>)
    requires |EncFields(HistoryFields(cs))| < TWO64
    ensures Reads(HistoryFields(cs), s, MangaReader(cats), s.(history := s.history + HistoryOf(cs)))
  {
    if cs == [] {
      assert s.history + [] == s.history;
      ReadsNone(s, MangaReader(cats));
    } else {
      var n := |cs| - 1;
      var a, b := HistoryFields(cs[..n]), HistoryField(cs[n]);
      PartLengths(a, b);
      HistoryReads(s, cs[..n], cats);
      var s1 := s.(history := s.history + HistoryOf(cs[..n]));
      HistoryFieldReads(s1, cs[n], cats);
      var one := if cs[n].readAt.Some? then [Tagged(cs[n].url, UnixMilli(cs[n].readAt.value))] else [];
      assert s1.history + one == s.history + HistoryOf(cs);
      ReadsBoth(a, b, s, s1, s.(history := s.history + HistoryOf(cs)), MangaReader(cats));
    }
  }

  lemma HistoryOfLast(front: seq<Chapter>, last: Chapter)
    ensures HistoryOf(front + [last]) ==
      HistoryOf(front) + if last.readAt.Some? then [Tagged(last.url, UnixMilli(last.readAt.value))] else []
  {
    assert (front + [last])[..|front|] == front;
  }

  lemma ByUrlLast(history: seq<Tagged>, h: Tagged)
    ensures ByUrl(history + [h]) == ByUrl(history)[h.text := Later(ByUrl(history), h)]
  {
    assert (history + [h])[..|history|] == history;
  }

  lemma LatestReadLast(front: seq<Chapter>, last: Chapter, url: Text)
    ensures LatestRead(front + [last], url) ==
      var was := LatestRead(front, url);
      if last.readAt.Some? && last.url == url && was < UnixMilli(last.readAt.value) then UnixMilli(last.readAt.value) else was
  {
    assert (front + [last])[..|front|] == front;
  }

  /** The joined history holds the latest read of each url. */
  lemma {:induction false} ByUrlIsLatest(cs: seq<Chapter>, url: Text)
    ensures var m := ByUrl(HistoryOf(cs)); LatestRead(cs, url) == if url in m then m[url] else 0
  {
    if cs != [] {
      var front, last := cs[..|cs| - 1], cs[|cs| - 1];
      assert cs == front + [last];
      ByUrlIsLatest(front, url);
      HistoryOfLast(front, last);
      LatestReadLast(front, last, url);
      if last.readAt.Some? {
        ByUrlLast(HistoryOf(front), Tagged(last.url, UnixMilli(last.readAt.value)));
      } else {
        assert HistoryOf(front) + [] == HistoryOf(front);
      }
    }
  }

  /** Chapters and history, written apart, come back together. */
  lemma HistoryJoins(cs: seq<Chapter>)
    ensures WithHistory(ChapterImages(cs), ByUrl(HistoryOf(cs))) == ReadChapters(cs)
  {
    var m := ByUrl(HistoryOf(cs));
    forall i | 0 <= i < |cs| ensures WithReadAt(ChapterImage(cs[i]), m) == ReadChapters(cs)[i] {
      ByUrlIsLatest(cs, cs[i].url);
    }
  }

  // ---- the whole manga -------------------------------------------------------------------------

  lemma MangaLengths(e: Manga, orders: map<Text, I64>, trackers: seq<Tracker>)
    ensures var n := |EncFields(MangaFields(e, orders, trackers))|;
      && |EncFields(ChaptersFields(e.chapters))| <= n
      && |EncFields(TrackerFields(e.trackers, trackers))| <= n
      && |EncFields(HistoryFields(e.chapters))| <= n
  {
    var a := HeadFields(e) + OptStrs(7, e.genres) + StatusFields(e);
    var b := a + ChaptersFields(e.chapters);
    var c := b + CategoryRefs(e.categories, orders);
    var d := c + TrackerFields(e.trackers, trackers);
    var f := d + FavoriteFields(e);
    var g := f + HistoryFields(e.chapters);
    PartLengths(a, ChaptersFields(e.chapters));
    PartLengths(b, CategoryRefs(e.categories, orders));
    PartLengths(c, TrackerFields(e.trackers, trackers));
    PartLengths(d, FavoriteFields(e));
    PartLengths(f, HistoryFields(e.chapters));
    PartLengths(g, OptStrs(108, e.excludedScanlators));
  }

  /** The reader's state after each group of a manga's fields. */
  function Read1(e: Manga): MangaState {
    MangaState(NO_MANGA.(sourceId := FormatInt(ParseInt(e.sourceId)), url := e.url, title := e.title,
                         artist := e.artist, author := e.author, description := e.description), [])
  }

  function Read2(e: Manga): MangaState {
    var s := Read1(e);
    s.(e := s.e.(genres := NonEmpty(e.genres)))
  }

  function Read3(e: Manga): MangaState {
    var s := Read2(e);
    s.(e := s.e.(status := StatusImage(e.status), thumbnailUrl := e.thumbnailUrl, addedAt := TimeImage(e.addedAt)))
  }

  function Read4(e: Manga): MangaState {
    var s := Read3(e);
    s.(e := s.e.(chapters := ChapterImages(e.chapters)))
  }

  function Read5(e: Manga, categories: seq<Text>): MangaState {
    var s := Read4(e);
    s.(e := s.e.(categories := Listed(e.categories, categories)))
  }

  function Read6(e: Manga, categories: seq<Text>): MangaState {
    var s := Read5(e, categories);
    s.(e := s.e.(trackers := TrackersImage(e.trackers)))
  }

  function Read7(e: Manga, categories: seq<Text>): MangaState {
    var s := Read6(e, categories);
    s.(e := s.e.(favorite := e.favorite))
  }

  function Read8(e: Manga, categories: seq<Text>): MangaState {
    Read7(e, categories).(history := HistoryOf(e.chapters))
  }

  function Read9(e: Manga, categories: seq<Text>): MangaState {
    var s := Read8(e, categories);
    s.(e := s.e.(excludedScanlators := NonEmpty(e.excludedScanlators)))
  }

  lemma FirstGroupsRead(e: Manga, cats: map<I64, Text>)
    ensures Reads(HeadFields(e) + OptStrs(7, e.genres) + StatusFields(e), MangaState(NO_MANGA, []), MangaReader(cats), Read3(e))
  {
    var s, step := MangaState(NO_MANGA, []), MangaReader(cats);
    HeadReads(s, e, cats);
    GenresRead(Read1(e), e.genres, cats);
    assert [] + NonEmpty(e.genres) == NonEmpty(e.genres);
    ReadsBoth(HeadFields(e), OptStrs(7, e.genres), s, Read1(e), Read2(e), step);
    StatusReads(Read2(e), e, cats);
    ReadsBoth(HeadFields(e) + OptStrs(7, e.genres), StatusFields(e), s, Read2(e), Read3(e), step);
  }

  lemma FavoriteReads(s: MangaState, e: Manga, cats: map<I64, Text>)
    requires s.e.favorite
    ensures Reads(FavoriteFields(e), s, MangaReader(cats), s.(e := s.e.(favorite := e.favorite)))
  {
    if e.favorite {
      ReadsNone(s, MangaReader(cats));
    } else {
      TextReads(VarintField(100, 0), s, cats);
    }
  }

  lemma MiddleGroupsRead(a: seq<Field>, e: Manga, orders: map<Text, I64>, trackers: seq<Tracker>, cats: map<I64, Text>, categories: seq<Text>)
    requires Matching(orders, cats, categories) && Walks(trackers, e.trackers.Keys)
    requires |EncFields(ChaptersFields(e.chapters))| < TWO64
    requires |EncFields(TrackerFields(e.trackers, trackers))| < TWO64
    requires Reads(a, MangaState(NO_MANGA, []), MangaReader(cats), Read3(e))
    ensures Reads(a + ChaptersFields(e.chapters) + CategoryRefs(e.categories, orders) + TrackerFields(e.trackers, trackers),
                  MangaState(NO_MANGA, []), MangaReader(cats), Read6(e, categories))
  {
    var s, step := MangaState(NO_MANGA, []), MangaReader(cats);
    var b := a + ChaptersFields(e.chapters);
    var c := b + CategoryRefs(e.categories, orders);
    ChaptersRead(Read3(e), e.chapters, cats);
    assert [] + ChapterImages(e.chapters) == ChapterImages(e.chapters);
    ReadsBoth(a, ChaptersFields(e.chapters), s, Read3(e), Read4(e), step);
    CategoriesRead(Read4(e), e.categories, orders, cats, categories);
    assert [] + Listed(e.categories, categories) == Listed(e.categories, categories);
    ReadsBoth(b, CategoryRefs(e.categories, orders), s, Read4(e), Read5(e, categories), step);
    TrackersRead(Read5(e, categories), e.trackers, trackers, cats);
    TrackersInAnyOrder(e.trackers, trackers);
    ReadsBoth(c, TrackerFields(e.trackers, trackers), s, Read5(e, categories), Read6(e, categories), step);
  }

  lemma LastGroupsRead(d: seq<Field>, e: Manga, cats: map<I64, Text>, categories: seq<Text>)
    requires |EncFields(HistoryFields(e.chapters))| < TWO64
    requires Reads(d, MangaState(NO_MANGA, []), MangaReader(cats), Read6(e, categories))
    ensures Reads(d + FavoriteFields(e) + HistoryFields(e.chapters) + OptStrs(108, e.excludedScanlators),
                  MangaState(NO_MANGA, []), MangaReader(cats), Read9(e, categories))
  {
    var s, step := MangaState(NO_MANGA, []), MangaReader(cats);
    var f := d + FavoriteFields(e);
    var g := f + HistoryFields(e.chapters);
    FavoriteReads(Read6(e, categories), e, cats);
    ReadsBoth(d, FavoriteFields(e), s, Read6(e, categories), Read7(e, categories), step);
    HistoryReads(Read7(e, categories), e.chapters, cats);
    assert [] + HistoryOf(e.chapters) == HistoryOf(e.chapters);
    ReadsBoth(f, HistoryFields(e.chapters), s, Read7(e, categories), Read8(e, categories), step);
    ScanlatorsRead(Read8(e, categories), e.excludedScanlators, cats);
    assert [] + NonEmpty(e.excludedScanlators) == NonEmpty(e.excludedScanlators);
    ReadsBoth(g, OptStrs(108, e.excludedScanlators), s, Read8(e, categories), Read9(e, categories), step);
  }

  /** A written manga reads back as its image; without a url it is an error. */
  lemma MangaReads(e: Manga, orders: map<Text, I64>, trackers: seq<Tracker>, cats: map<I64, Text>, categories: seq<Text>)
    requires Matching(orders, cats, categories) && Walks(trackers, e.trackers.Keys)
    requires |EncFields(MangaFields(e, orders, trackers))| < TWO64
    ensures MangaFrom(EncFields(MangaFields(e, orders, trackers)), cats) ==
      if e.url == [] then Err(MissingUrl) else Ok(MangaImage(e, categories))
  {
    MangaLengths(e, orders, trackers);
    var a := HeadFields(e) + OptStrs(7, e.genres) + StatusFields(e);
    FirstGroupsRead(e, cats);
    MiddleGroupsRead(a, e, orders, trackers, cats, categories);
    LastGroupsRead(a + ChaptersFields(e.chapters) + CategoryRefs(e.categories, orders) + TrackerFields(e.trackers, trackers),
                   e, cats, categories);
    RunReads(MangaFields(e, orders, trackers), MangaState(NO_MANGA, []), MangaReader(cats), Read9(e, categories));
    HistoryJoins(e.chapters);
  }
}
