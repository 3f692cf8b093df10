/** Reading a whole written backup, and when nothing is lost. */
module MihonBackup {
  import opened Common
  import opened Varint
  import opened Wire
  import opened Decimal
  import opened Sorting
  import opened Mihon
  import opened MihonWriter
  import opened MihonRoundTrip
  import opened MihonManga

  // ---- top-level fields ------------------------------------------------------------------

  function RawEntry(e: Manga, orders: map<Text, I64>, trackers: seq<Tracker>): Bytes {
    EncFields(MangaFields(e, orders, trackers))
  }

  function RawEntries(es: seq<Manga>, orders: map<Text, I64>, trackers: seq<seq<Tracker>>): (r: seq<Bytes>)
    requires |trackers| == |es|
    ensures |r| == |es| && forall i :: 0 <= i < |es| ==> r[i] == RawEntry(es[i], orders, trackers[i])
  {
    seq(|es|, i requires 0 <= i < |es| => RawEntry(es[i], orders, trackers[i]))
  }

  lemma RawPrefix(es: seq<Manga>, orders: map<Text, I64>, trackers: seq<seq<Tracker>>, k: nat)
    requires |trackers| == |es| && k < |es|
    ensures RawEntries(es, orders, trackers)[..k] == RawEntries(es[..k], orders, trackers[..k])
    ensures RawEntries(es, orders, trackers)[..k + 1] ==
      RawEntries(es[..k], orders, trackers[..k]) + [RawEntry(es[k], orders, trackers[k])]
  {
    PrefixOf(RawEntries(es, orders, trackers), RawEntries(es[..k], orders, trackers[..k]), k);
  }

  lemma PrefixOf<T>(all: seq<T>, part: seq<T>, k: nat)
    requires |part| == k < |all| && forall i :: 0 <= i < k ==> part[i] == all[i]
    ensures all[..k] == part && all[..k + 1] == part + [all[k]]
  {
  }

  lemma RawEntriesNext(before: seq<Bytes>, es: seq<Manga>, orders: map<Text, I64>, trackers: seq<seq<Tracker>>, n: nat)
    requires |trackers| == |es| == n + 1
    ensures before + RawEntries(es[..n], orders, trackers[..n]) + [RawEntry(es[n], orders, trackers[n])]
      == before + RawEntries(es, orders, trackers)
  {
    RawPrefix(es, orders, trackers, n);
    assert RawEntries(es, orders, trackers)[..n + 1] == RawEntries(es, orders, trackers);
  }

  lemma {:induction false} EntriesRead(s: Top, es: seq<Manga>, orders: map<Text, I64>, trackers: seq<seq<Tracker>>)
    requires |trackers| == |es|
    ensures Reads(EntriesFields(es, orders, trackers), s, TopStep, s.(manga := s.manga + RawEntries(es, orders, trackers)))
  {
    if es == [] {
      assert s.manga + [] == s.manga;
      ReadsNone(s, TopStep);
    } else {
      var n := |es| - 1;
      var raw := RawEntry(es[n], orders, trackers[n]);
      EntriesRead(s, es[..n], orders, trackers[..n]);
      var s1 := s.(manga := s.manga + RawEntries(es[..n], orders, trackers[..n]));
      ReadsOne(StrField(1, raw), s1, TopStep);
      RawEntriesNext(s.manga, es, orders, trackers, n);
      ReadsBoth(EntriesFields(es[..n], orders, trackers[..n]), [StrField(1, raw)], s, s1,
                s.(manga := s.manga + RawEntries(es, orders, trackers)), TopStep);
    }
  }

  /** Categories as the writer numbers them: from 1, in their order. */
  function Numbered(cs: seq<Text>): (r: seq<Tagged>)
    ensures |r| == |cs| && forall i :: 0 <= i < |cs| ==> r[i] == Tagged(cs[i], Wrap(i + 1))
  {
    seq(|cs|, i requires 0 <= i < |cs| => Tagged(cs[i], Wrap(i + 1)))
  }

  lemma NumberedPrefix(cs: seq<Text>)
    requires cs != []
    ensures Numbered(cs) == Numbered(cs[..|cs| - 1]) + [Tagged(cs[|cs| - 1], Wrap(|cs|))]
  {
  }

  lemma CategoryReads(name: Text, n: I64)
    requires |EncFields([StrField(1, name)] + OptVarint(2, n))| < TWO64
    ensures ParseTagged(EncFields([StrField(1, name)] + OptVarint(2, n))) == Ok(Tagged(name, n))
  {
    if n == 0 {
      assert [StrField(1, name)] + [] == [StrField(1, name)];
      ReadsOne(StrField(1, name), Tagged([], 0), TaggedStep);
      RunReads([StrField(1, name)], Tagged([], 0), TaggedStep, Tagged(name, 0));
    } else {
      assert [StrField(1, name)] + [VarintField(2, n)] == [StrField(1, name), VarintField(2, n)];
      TaggedReads(name, n);
    }
  }

  lemma CategoryFieldReads(s: Top, name: Text, n: nat)
    requires |EncFields([StrField(1, name)] + OptVarint(2, Wrap(n)))| < TWO64
    ensures Reads([CategoryField(name, n)], s, TopStep, s.(cats := s.cats + [Tagged(name, Wrap(n))]))
  {
    CategoryReads(name, Wrap(n));
    ReadsOne(CategoryField(name, n), s, TopStep);
  }

  lemma NumberedNext(before: seq<Tagged>, cs: seq<Text>, n: nat)
    requires |cs| == n + 1
    ensures before + Numbered(cs[..n]) + [Tagged(cs[n], Wrap(n + 1))] == before + Numbered(cs)
  {
    NumberedPrefix(cs);
  }

  lemma CategoryFits(a: seq<Field>, name: Text, n: nat)
    requires |EncFields(a + [CategoryField(name, n)])| < TWO64
    ensures |EncFields(a)| < TWO64 && |EncFields([StrField(1, name)] + OptVarint(2, Wrap(n)))| < TWO64
  {
    PartLengths(a, [CategoryField(name, n)]);
    MsgShorter(a, 2, [StrField(1, name)] + OptVarint(2, Wrap(n)));
  }

  lemma {:induction false} CategoryListReads(s: Top, cs: seq<Text>)
    requires |EncFields(CategoriesFields(cs))| < TWO64
    ensures Reads(CategoriesFields(cs), s, TopStep, s.(cats := s.cats + Numbered(cs)))
  {
    if cs == [] {
      assert s.cats + Numbered(cs) == s.cats;
      ReadsNone(s, TopStep);
    } else {
      var n := |cs| - 1;
      var a := CategoriesFields(cs[..n]);
      CategoryFits(a, cs[n], n + 1);
      CategoryListReads(s, cs[..n]);
      var s1 := s.(cats := s.cats + Numbered(cs[..n]));
      CategoryFieldReads(s1, cs[n], n + 1);
      NumberedNext(s.cats, cs, n);
      ReadsBoth(a, [CategoryField(cs[n], n + 1)], s, s1, s.(cats := s.cats + Numbered(cs)), TopStep);
    }
  }

  lemma {:induction false} CategoriesTakeRoom(cs: seq<Text>)
    ensures |cs| <= |EncFields(CategoriesFields(cs))|
  {
    if cs != [] {
      var n := |cs|;
      CategoriesTakeRoom(cs[..n - 1]);
      assert CategoriesFields(cs) == CategoriesFields(cs[..n - 1]) + [CategoryField(cs[n - 1], n)];
      MsgTakesRoom(CategoriesFields(cs[..n - 1]), CategoryField(cs[n - 1], n));
    }
  }

  lemma MsgTakesRoom(a: seq<Field>, f: Field)
    requires f.typ == WIRE_BYTES
    ensures |EncFields(a)| < |EncFields(a + [f])|
  {
    EncFieldsConcat(a, [f]);
    PartShorter([f], 0);
  }

  lemma SourceReads(name: Text, n: I64)
    requires |EncFields(OptStr(1, name) + [VarintField(2, n)])| < TWO64
    ensures ParseTagged(EncFields(OptStr(1, name) + [VarintField(2, n)])) == Ok(Tagged(name, n))
  {
    if name == [] {
      assert [] + [VarintField(2, n)] == [VarintField(2, n)];
      ReadsOne(VarintField(2, n), Tagged([], 0), TaggedStep);
      RunReads([VarintField(2, n)], Tagged([], 0), TaggedStep, Tagged([], n));
    } else {
      assert [StrField(1, name)] + [VarintField(2, n)] == [StrField(1, name), VarintField(2, n)];
      TaggedReads(name, n);
    }
  }

  lemma SourceFieldReads(s: Top, name: Text, n: I64)
    requires |EncFields(OptStr(1, name) + [VarintField(2, n)])| < TWO64
    ensures Reads([MsgField(101, OptStr(1, name) + [VarintField(2, n)])], s, TopStep,
                  s.(sources := s.sources[FormatInt(n) := name]))
  {
    SourceReads(name, n);
    ReadsOne(MsgField(101, OptStr(1, name) + [VarintField(2, n)]), s, TopStep);
  }

  lemma {:induction false} SourcesRead(s: Top, sources: map<Text, Text>, order: seq<Text>)
    requires s.sources == map[] && |EncFields(SourcesFields(sources, order))| < TWO64
    ensures Reads(SourcesFields(sources, order), s, TopStep, s.(sources := SourcesImage(sources, order)))
  {
    if order == [] {
      ReadsNone(s, TopStep);
    } else {
      var n := |order| - 1;
      var id := order[n];
      var a, fs := SourcesFields(sources, order[..n]), OptStr(1, NameOf(sources, id)) + [VarintField(2, ParseInt(id))];
      PartLengths(a, [MsgField(101, fs)]);
      MsgShorter(a, 101, fs);
      SourcesRead(s, sources, order[..n]);
      var s1 := s.(sources := SourcesImage(sources, order[..n]));
      SourceFieldReads(s1, NameOf(sources, id), ParseInt(id));
      ReadsBoth(a, [MsgField(101, fs)], s, s1, s.(sources := SourcesImage(sources, order)), TopStep);
    }
  }

  predicate Skippable(fs: seq<Field>) {
    forall i :: 0 <= i < |fs| ==> Writable(fs[i]) && fs[i].num == 105
  }

  lemma PreferencesAreSkippable(fs: seq<Field>, prefs: seq<Preferences>)
    requires IsPreferences(fs, prefs)
    ensures Skippable(fs)
  {
    forall i | 0 <= i < |fs| ensures Writable(fs[i]) && fs[i].num == 105 {
      assert IsPreference(fs[i], prefs[i]);
    }
  }

  lemma {:induction false} PreferencesSkipped(s: Top, fs: seq<Field>)
    requires Skippable(fs)
    ensures Reads(fs, s, TopStep, s)
  {
    if fs == [] {
      ReadsNone(s, TopStep);
    } else {
      ReadsOne(fs[0], s, TopStep);
      PreferencesSkipped(s, fs[1..]);
      ReadsBoth([fs[0]], fs[1..], s, s, s, TopStep);
      assert [fs[0]] + fs[1..] == fs;
    }
  }

  // ---- categories by order ----------------------------------------------------------------

  lemma WrapSmall(n: nat)
    requires n < TWO63
    ensures Wrap(n) == n
  {
  }

  lemma NumberedIsSorted(cs: seq<Text>)
    requires |cs| < TWO63
    ensures StableSort(Numbered(cs), ByOrder) == Numbered(cs)
  {
    forall i | 0 <= i < |cs| ensures Numbered(cs)[i].n == i + 1 {
      WrapSmall(i + 1);
    }
    StableSortFixed(Numbered(cs), ByOrder);
  }

  lemma {:induction false} OrdersMatch(cs: seq<Text>)
    requires |cs| < TWO63
    ensures Matching(Orders(cs), CatByOrder(Numbered(cs)), cs)
    ensures forall name :: name in Orders(cs) ==> 1 <= Orders(cs)[name] <= |cs|
  {
    if cs != [] {
      var n := |cs|;
      OrdersMatch(cs[..n - 1]);
      NumberedPrefix(cs);
      WrapSmall(n);
      assert Numbered(cs)[..n - 1] == Numbered(cs[..n - 1]);
      assert cs == cs[..n - 1] + [cs[n - 1]];
    }
  }

  lemma CatNamesNumbered(cs: seq<Text>)
    ensures CatNames(Numbered(cs)) == cs
  {
  }

  // ---- entries ------------------------------------------------------------------------------

  function EntryImage(e: Manga, categories: seq<Text>, sources: map<Text, Text>): Manga {
    var image := MangaImage(e, categories);
    image.(sourceName := NameOf(sources, image.sourceId))
  }

  function EntryImages(es: seq<Manga>, categories: seq<Text>, sources: map<Text, Text>): (r: seq<Manga>)
    ensures |r| == |es| && forall i :: 0 <= i < |es| ==> r[i] == EntryImage(es[i], categories, sources)
  {
    seq(|es|, i requires 0 <= i < |es| => EntryImage(es[i], categories, sources))
  }

  /** How many entries come before the first without a url. */
  function Good(es: seq<Manga>): (n: nat)
    ensures n <= |es| && (forall i :: 0 <= i < n ==> es[i].url != []) && (n < |es| ==> es[n].url == [])
  {
    if es == [] || es[0].url == [] then 0 else 1 + Good(es[1..])
  }

  ghost predicate TrackersWalked(es: seq<Manga>, trackers: seq<seq<Tracker>>) {
    |trackers| == |es| && forall i :: 0 <= i < |es| ==> Walks(trackers[i], es[i].trackers.Keys)
  }

  predicate AllFit(raws: seq<Bytes>) {
    forall i :: 0 <= i < |raws| ==> |raws[i]| < TWO64
  }

  lemma {:induction false} EntriesFitIn(es: seq<Manga>, orders: map<Text, I64>, trackers: seq<seq<Tracker>>)
    requires |trackers| == |es| && |EncFields(EntriesFields(es, orders, trackers))| < TWO64
    ensures AllFit(RawEntries(es, orders, trackers))
  {
    if es != [] {
      var n := |es| - 1;
      var a, fs := EntriesFields(es[..n], orders, trackers[..n]), MangaFields(es[n], orders, trackers[n]);
      PartLengths(a, [MsgField(1, fs)]);
      MsgShorter(a, 1, fs);
      EntriesFitIn(es[..n], orders, trackers[..n]);
      RawPrefix(es, orders, trackers, n);
      AllFitNext(RawEntries(es, orders, trackers), n);
    }
  }

  lemma AllFitNext(raws: seq<Bytes>, n: nat)
    requires |raws| == n + 1 && AllFit(raws[..n]) && |raws[n]| < TWO64
    ensures AllFit(raws)
  {
    forall i | 0 <= i < |raws| ensures |raws[i]| < TWO64 {
      assert i < n ==> raws[i] == raws[..n][i];
    }
  }

  /** One more entry. */
  lemma EntryReadsBack(raws: seq<Bytes>, e: Manga, orders: map<Text, I64>, trackers: seq<Tracker>, cats: map<I64, Text>, categories: seq<Text>, sources: map<Text, Text>, before: seq<Manga>)
    requires EntriesFrom(raws, cats, sources) == Ok(before)
    requires Matching(orders, cats, categories) && Walks(trackers, e.trackers.Keys)
    requires |RawEntry(e, orders, trackers)| < TWO64
    ensures EntriesFrom(raws + [RawEntry(e, orders, trackers)], cats, sources) ==
      if e.url == [] then Err(InManga(|raws| + 1, MissingUrl))
      else Ok(before + [EntryImage(e, categories, sources)])
  {
    MangaReads(e, orders, trackers, cats, categories);
    EntriesFromNext(raws, RawEntry(e, orders, trackers), cats, sources, before);
  }

  lemma EntriesFromNext(raws: seq<Bytes>, raw: Bytes, cats: map<I64, Text>, sources: map<Text, Text>, before: seq<Manga>)
    requires EntriesFrom(raws, cats, sources) == Ok(before)
    ensures EntriesFrom(raws + [raw], cats, sources) ==
      var m := MangaFrom(raw, cats);
      if m.Err? then Err(InManga(|raws| + 1, m.error))
      else Ok(before + [m.value.(sourceName := NameOf(sources, m.value.sourceId))])
  {
    var all := raws + [raw];
    assert all[..|all| - 1] == raws;
  }

  /** Entries that all have a url read back as their images. */
  lemma {:induction false} EntriesReadBack(es: seq<Manga>, orders: map<Text, I64>, trackers: seq<seq<Tracker>>, cats: map<I64, Text>, categories: seq<Text>, sources: map<Text, Text>)
    requires TrackersWalked(es, trackers) && Matching(orders, cats, categories)
    requires AllFit(RawEntries(es, orders, trackers))
    requires forall i :: 0 <= i < |es| ==> es[i].url != []
    ensures EntriesFrom(RawEntries(es, orders, trackers), cats, sources) == Ok(EntryImages(es, categories, sources))
  {
    if es == [] {
      assert EntryImages(es, categories, sources) == [];
    } else {
      var n := |es| - 1;
      var raws := RawEntries(es, orders, trackers);
      RawPrefix(es, orders, trackers, n);
      assert raws[..n + 1] == raws;
      PrefixReady(es, orders, trackers, n);
      EntriesReadBack(es[..n], orders, trackers[..n], cats, categories, sources);
      EntryReadsBack(raws[..n], es[n], orders, trackers[n], cats, categories, sources, EntryImages(es[..n], categories, sources));
      EntryImagesNext(es, categories, sources, n);
    }
  }

  lemma EntryImagesNext(es: seq<Manga>, categories: seq<Text>, sources: map<Text, Text>, n: nat)
    requires |es| == n + 1
    ensures EntryImages(es, categories, sources) ==
      EntryImages(es[..n], categories, sources) + [EntryImage(es[n], categories, sources)]
  {
  }

  /** What reading the entries gives: all images, or the first missing url. */
  function EntriesOutcome(es: seq<Manga>, categories: seq<Text>, sources: map<Text, Text>): Result<seq<Manga>> {
    if Good(es) < |es| then Err(InManga(Good(es) + 1, MissingUrl)) else Ok(EntryImages(es, categories, sources))
  }

  lemma EntriesAsOutcome(es: seq<Manga>, orders: map<Text, I64>, trackers: seq<seq<Tracker>>, cats: map<I64, Text>, categories: seq<Text>, sources: map<Text, Text>)
    requires TrackersWalked(es, trackers) && Matching(orders, cats, categories)
    requires AllFit(RawEntries(es, orders, trackers))
    ensures EntriesFrom(RawEntries(es, orders, trackers), cats, sources) == EntriesOutcome(es, categories, sources)
  {
    var k := Good(es);
    if k < |es| {
      FirstMissingFails(es, orders, trackers, cats, categories, sources, k);
    } else {
      EntriesReadBack(es, orders, trackers, cats, categories, sources);
    }
  }

  lemma PrefixReady(es: seq<Manga>, orders: map<Text, I64>, trackers: seq<seq<Tracker>>, k: nat)
    requires TrackersWalked(es, trackers) && AllFit(RawEntries(es, orders, trackers)) && k <= |es|
    ensures TrackersWalked(es[..k], trackers[..k]) && AllFit(RawEntries(es[..k], orders, trackers[..k]))
  {
    var part, all := RawEntries(es[..k], orders, trackers[..k]), RawEntries(es, orders, trackers);
    forall i | 0 <= i < k ensures part[i] == all[i] {
    }
  }

  lemma FirstMissingFails(es: seq<Manga>, orders: map<Text, I64>, trackers: seq<seq<Tracker>>, cats: map<I64, Text>, categories: seq<Text>, sources: map<Text, Text>, k: nat)
    requires TrackersWalked(es, trackers) && Matching(orders, cats, categories)
    requires AllFit(RawEntries(es, orders, trackers))
    requires k < |es| && es[k].url == [] && forall i :: 0 <= i < k ==> es[i].url != []
    ensures EntriesFrom(RawEntries(es, orders, trackers), cats, sources) == Err(InManga(k + 1, MissingUrl))
  {
    var raws := RawEntries(es, orders, trackers);
    RawPrefix(es, orders, trackers, k);
    PrefixReady(es, orders, trackers, k);
    EntriesReadBack(es[..k], orders, trackers[..k], cats, categories, sources);
    EntryReadsBack(raws[..k], es[k], orders, trackers[k], cats, categories, sources, EntryImages(es[..k], categories, sources));
    EntriesFail(raws, cats, sources, k, InManga(k + 1, MissingUrl));
  }

  // ---- the round trip ------------------------------------------------------------------------

  /** What reading a written backup gives. */
  function Outcome(b: Backup, w: Walk): Result<Backup> {
    var sources := SourcesImage(b.sources, w.sources);
    match EntriesOutcome(b.entries, b.categories, sources)
    case Err(e) => Err(e)
    case Ok(entries) =>
      if entries == [] then Err(NoManga) else Ok(Backup(MihonFormat, NO_TIME, sources, b.categories, entries))
  }

  /** The three groups of a backup's fields, and their lengths. */
  lemma BackupLengths(b: Backup, w: Walk, rest: seq<Field>)
    requires |w.trackers| == |b.entries|
    ensures var n := |EncFields(BackupFields(b, w) + rest)|;
      && |EncFields(EntriesFields(b.entries, Orders(b.categories), w.trackers))| <= n
      && |EncFields(CategoriesFields(b.categories))| <= n
      && |EncFields(SourcesFields(b.sources, w.sources))| <= n
  {
    var e, c, s := EntriesFields(b.entries, Orders(b.categories), w.trackers), CategoriesFields(b.categories), SourcesFields(b.sources, w.sources);
    PartLengths(BackupFields(b, w), rest);
    PartLengths(e + c, s);
    PartLengths(e, c);
  }

  /** Writing a backup and reading it back gives its outcome, for every order the maps are walked in. */
  lemma WriteThenRead(b: Backup, w: Walk, prefs: seq<Preferences>, prefFields: seq<Field>)
    requires ValidWalk(w, b) && IsPreferences(prefFields, prefs)
    requires |EncFields(BackupFields(b, w) + prefFields)| < TWO63
    ensures BackupFrom(EncFields(BackupFields(b, w) + prefFields)) == Outcome(b, w)
  {
    BackupLengths(b, w, prefFields);
    PreferencesAreSkippable(prefFields, prefs);
    TopReads(b, w, prefFields);
    EntriesPartReads(b, w);
    NumberedIsSorted(b.categories);
    CatNamesNumbered(b.categories);
  }

  lemma EntriesPartReads(b: Backup, w: Walk)
    requires TrackersWalked(b.entries, w.trackers)
    requires |EncFields(EntriesFields(b.entries, Orders(b.categories), w.trackers))| < TWO64
    requires |EncFields(CategoriesFields(b.categories))| < TWO63
    ensures |b.categories| < TWO63
    ensures var sources := SourcesImage(b.sources, w.sources);
      EntriesFrom(RawEntries(b.entries, Orders(b.categories), w.trackers), CatByOrder(Numbered(b.categories)), sources)
      == EntriesOutcome(b.entries, b.categories, sources)
  {
    CategoriesTakeRoom(b.categories);
    OrdersMatch(b.categories);
    EntriesFitIn(b.entries, Orders(b.categories), w.trackers);
    EntriesAsOutcome(b.entries, Orders(b.categories), w.trackers, CatByOrder(Numbered(b.categories)), b.categories,
                     SourcesImage(b.sources, w.sources));
  }

  lemma TopReads(b: Backup, w: Walk, rest: seq<Field>)
    requires |w.trackers| == |b.entries| && Skippable(rest)
    requires |EncFields(BackupFields(b, w) + rest)| < TWO63
    requires |EncFields(CategoriesFields(b.categories))| < TWO63 && |EncFields(SourcesFields(b.sources, w.sources))| < TWO63
    ensures Run(EncFields(BackupFields(b, w) + rest), Top([], [], map[]), TopStep) ==
      Ok(Top(RawEntries(b.entries, Orders(b.categories), w.trackers), Numbered(b.categories), SourcesImage(b.sources, w.sources)))
  {
    var orders := Orders(b.categories);
    var e, c, s := EntriesFields(b.entries, orders, w.trackers), CategoriesFields(b.categories), SourcesFields(b.sources, w.sources);
    var raws, cats, sources := RawEntries(b.entries, orders, w.trackers), Numbered(b.categories), SourcesImage(b.sources, w.sources);
    var s0, s1, s2, s3 := Top([], [], map[]), Top(raws, [], map[]), Top(raws, cats, map[]), Top(raws, cats, sources);
    EntriesRead(s0, b.entries, orders, w.trackers);
    assert [] + raws == raws && [] + cats == cats;
    CategoryListReads(s1, b.categories);
    ReadsBoth(e, c, s0, s1, s2, TopStep);
    SourcesRead(s2, b.sources, w.sources);
    ReadsBoth(e + c, s, s0, s2, s3, TopStep);
    PreferencesSkipped(s3, rest);
    ReadsBoth(BackupFields(b, w), rest, s0, s3, s3, TopStep);
    RunReads(BackupFields(b, w) + rest, s0, TopStep, s3);
  }
}
