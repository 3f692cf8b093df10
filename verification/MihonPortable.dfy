/** Which backups survive being written and read back. */
module MihonPortable {
  import opened Common
  import opened Varint
  import opened Float
  import opened Wire
  import opened Decimal
  import opened Mihon
  import opened MihonWriter
  import opened MihonRoundTrip
  import opened MihonBackup

  // ---- what a caller can check --------------------------------------------------------------

  /** Absent, or a positive whole number of milliseconds that fits 64 bits. */
  predicate WholeMillis(t: Time) {
    t.At? && t.nanos > 0 && t.nanos % 1_000_000 == 0 && t.nanos / 1_000_000 < TWO63
  }

  predicate PortableNumber(n: Number) {
    IsSingle(n) && n != SIGN64
  }

  predicate PortableTracker(t: Tracker, id: Text) {
    && !t.OtherTracker?
    && ((Canonical(id) && ParseInt(id) > 0) || (t.MangaUpdates? && ParseInt(id) == 0 && id != [] && SLASH !in id))
  }

  predicate PortableReadAt(r: Option<Time>) {
    r.Some? ==> WholeMillis(r.value)
  }

  /** Numbers that are float32 values, whole read times, and one read time for each url. */
  predicate PortableChapters(cs: seq<Chapter>) {
    && (forall i :: 0 <= i < |cs| ==> PortableNumber(cs[i].number) && PortableReadAt(cs[i].readAt))
    && (forall i, j :: 0 <= i < |cs| && 0 <= j < |cs| && cs[i].url == cs[j].url ==> cs[i].readAt == cs[j].readAt)
  }

  predicate NoEmpty(ss: seq<Text>) {
    forall i :: 0 <= i < |ss| ==> ss[i] != []
  }

  predicate AllListed(names: seq<Text>, categories: seq<Text>) {
    forall i :: 0 <= i < |names| ==> names[i] in categories
  }

  predicate PortableManga(e: Manga, b: Backup) {
    && Canonical(e.sourceId) && e.sourceName == NameOf(b.sources, e.sourceId)
    && NoEmpty(e.genres) && !e.status.OtherStatus? && (e.addedAt == NO_TIME || WholeMillis(e.addedAt))
    && AllListed(e.categories, b.categories)
    && (forall t :: t in e.trackers ==> PortableTracker(t, e.trackers[t]))
    && NoEmpty(e.excludedScanlators) && PortableChapters(e.chapters)
  }

  /** The conditions under which nothing but web urls, languages and the creation time is lost. */
  predicate Portable(b: Backup) {
    && (forall id :: id in b.sources ==> Canonical(id))
    && forall i :: 0 <= i < |b.entries| ==> PortableManga(b.entries[i], b)
  }

  // ---- what is dropped ----------------------------------------------------------------------

  function KeptChapters(cs: seq<Chapter>): (r: seq<Chapter>)
    ensures |r| == |cs| && forall i :: 0 <= i < |cs| ==> r[i] == cs[i].(lang := [])
  {
    seq(|cs|, i requires 0 <= i < |cs| => cs[i].(lang := []))
  }

  function KeptManga(e: Manga): Manga {
    e.(webUrl := [], chapters := KeptChapters(e.chapters))
  }

  function KeptEntries(es: seq<Manga>): (r: seq<Manga>)
    ensures |r| == |es| && forall i :: 0 <= i < |es| ==> r[i] == KeptManga(es[i])
  {
    seq(|es|, i requires 0 <= i < |es| => KeptManga(es[i]))
  }

  /** A backup without what Mihon's format has no field for. */
  function Kept(b: Backup): Backup {
    Backup(MihonFormat, NO_TIME, b.sources, b.categories, KeptEntries(b.entries))
  }

  // ---- part by part --------------------------------------------------------------------------

  lemma {:induction false} NonEmptyKeeps(ss: seq<Text>)
    ensures NonEmpty(ss) == ss <==> NoEmpty(ss)
    ensures |NonEmpty(ss)| <= |ss|
    ensures |NonEmpty(ss)| == |ss| ==> NoEmpty(ss)
  {
    if ss != [] {
      var n := |ss| - 1;
      NonEmptyKeeps(ss[..n]);
      assert ss == ss[..n] + [ss[n]];
    }
  }

  lemma ListedLast(front: seq<Text>, last: Text, categories: seq<Text>)
    ensures Listed(front + [last], categories) == Listed(front, categories) + if last in categories then [last] else []
    ensures AllListed(front + [last], categories) <==> AllListed(front, categories) && last in categories
  {
    var names := front + [last];
    assert names[..|front|] == front && names[|front|] == last;
    if AllListed(names, categories) {
      forall i | 0 <= i < |front| ensures front[i] in categories {
        assert names[i] == front[i];
      }
    }
  }

  lemma {:induction false} ListedKeeps(names: seq<Text>, categories: seq<Text>)
    ensures Listed(names, categories) == names <==> AllListed(names, categories)
    ensures |Listed(names, categories)| <= |names|
    ensures |Listed(names, categories)| == |names| ==> AllListed(names, categories)
  {
    if names != [] {
      var front, last := names[..|names| - 1], names[|names| - 1];
      assert names == front + [last];
      ListedKeeps(front, categories);
      ListedLast(front, last, categories);
    }
  }

  lemma TimeKeeps(t: Time)
    ensures TimeImage(t) == t <==> t == NO_TIME || WholeMillis(t)
  {
    if t.At? {
      MillisKeeps(t.nanos);
    }
  }

  lemma MillisKeeps(nanos: int)
    ensures Wrap(nanos / 1_000_000) > 0 && Millis(Wrap(nanos / 1_000_000)) == At(nanos) <==> WholeMillis(At(nanos))
  {
  }

  lemma StatusKeeps(s: Status)
    ensures StatusImage(s) == s <==> !s.OtherStatus?
  {
  }

  lemma NumberKeeps(n: Number)
    ensures NumberImage(n) == n <==> PortableNumber(n)
  {
    SingleExactly(n);
  }

  lemma TrackerKeeps(t: Tracker, id: Text)
    ensures TrackerImage(t, id) == Some(id) <==> PortableTracker(t, id)
  {
    CanonicalRoundTrip(id);
    if id != [] {
      SegmentRoundTrip(Ascii("https://www.mangaupdates.com/series") + [SLASH], id);
    }
  }

  lemma TrackersKeep(trackers: map<Tracker, Text>)
    ensures TrackersImage(trackers) == trackers <==> forall t :: t in trackers ==> PortableTracker(t, trackers[t])
  {
    var image := TrackersImage(trackers);
    forall t | t in trackers ensures TrackerImage(t, trackers[t]) == Some(trackers[t]) <==> PortableTracker(t, trackers[t]) {
      TrackerKeeps(t, trackers[t]);
    }
    if image == trackers {
      forall t | t in trackers ensures TrackerImage(t, trackers[t]) == Some(trackers[t]) {
        assert t in image;
      }
    }
  }

  // ---- chapters --------------------------------------------------------------------------------

  lemma {:induction false} LatestOfOne(cs: seq<Chapter>, url: Text, r: Option<Time>)
    requires forall i :: 0 <= i < |cs| && cs[i].url == url ==> cs[i].readAt == r
    requires PortableReadAt(r)
    ensures LatestRead(cs, url) ==
      if r.Some? && (exists i :: 0 <= i < |cs| && cs[i].url == url) then UnixMilli(r.value) else 0
  {
    if cs != [] {
      var n := |cs| - 1;
      LatestOfOne(cs[..n], url, r);
      assert forall i :: 0 <= i < n ==> cs[..n][i] == cs[i];
    }
  }

  lemma ReadAtsKeep(cs: seq<Chapter>, i: nat)
    requires PortableChapters(cs) && i < |cs|
    ensures ReadAtImage(cs, cs[i].url) == cs[i].readAt
  {
    LatestOfOne(cs, cs[i].url, cs[i].readAt);
    if cs[i].readAt.Some? {
      MillisKeeps(cs[i].readAt.value.nanos);
    }
  }

  lemma PortableFromReadAts(cs: seq<Chapter>)
    requires forall i :: 0 <= i < |cs| ==> ReadAtImage(cs, cs[i].url) == cs[i].readAt
    requires forall i :: 0 <= i < |cs| ==> PortableNumber(cs[i].number)
    ensures PortableChapters(cs)
  {
    forall i | 0 <= i < |cs| ensures PortableReadAt(cs[i].readAt) {
      assert cs[i].readAt == ReadAtImage(cs, cs[i].url);
    }
  }

  lemma ChapterKeeps(cs: seq<Chapter>, i: nat)
    requires i < |cs|
    ensures ReadChapters(cs)[i] == KeptChapters(cs)[i] <==>
      PortableNumber(cs[i].number) && ReadAtImage(cs, cs[i].url) == cs[i].readAt
  {
    NumberKeeps(cs[i].number);
  }

  lemma ChaptersKeep(cs: seq<Chapter>)
    ensures ReadChapters(cs) == KeptChapters(cs) <==> PortableChapters(cs)
  {
    forall i | 0 <= i < |cs|
      ensures ReadChapters(cs)[i] == KeptChapters(cs)[i] <==>
        PortableNumber(cs[i].number) && ReadAtImage(cs, cs[i].url) == cs[i].readAt
    {
      ChapterKeeps(cs, i);
    }
    if PortableChapters(cs) {
      forall i | 0 <= i < |cs| ensures ReadChapters(cs)[i] == KeptChapters(cs)[i] {
        ReadAtsKeep(cs, i);
      }
    } else if ReadChapters(cs) == KeptChapters(cs) {
      PortableFromReadAts(cs);
    }
  }

  // ---- sources ---------------------------------------------------------------------------------

  lemma {:induction false} SourcesImageKeys(sources: map<Text, Text>, order: seq<Text>)
    ensures forall id :: id in SourcesImage(sources, order) ==> Canonical(id)
  {
    if order != [] {
      SourcesImageKeys(sources, order[..|order| - 1]);
      FormatIntIsCanonical(ParseInt(order[|order| - 1]));
    }
  }

  lemma {:induction false} SourcesImageAt(sources: map<Text, Text>, order: seq<Text>, id: Text)
    requires forall x :: x in order ==> Canonical(x)
    ensures id in SourcesImage(sources, order) <==> id in order
    ensures id in order ==> SourcesImage(sources, order)[id] == NameOf(sources, id)
  {
    if order != [] {
      var front, last := order[..|order| - 1], order[|order| - 1];
      assert order == front + [last];
      assert forall x :: x in front ==> x in order;
      SourcesImageAt(sources, front, id);
      SourcesImageLast(sources, front, last);
    }
  }

  lemma SourcesImageLast(sources: map<Text, Text>, front: seq<Text>, last: Text)
    requires Canonical(last)
    ensures SourcesImage(sources, front + [last]) == SourcesImage(sources, front)[last := NameOf(sources, last)]
  {
    assert (front + [last])[..|front|] == front;
    CanonicalRoundTrip(last);
  }

  lemma SourcesKeep(sources: map<Text, Text>, order: seq<Text>)
    requires Walks(order, sources.Keys)
    ensures SourcesImage(sources, order) == sources <==> forall id :: id in sources ==> Canonical(id)
  {
    SourcesImageKeys(sources, order);
    if forall id :: id in sources ==> Canonical(id) {
      forall id ensures (id in SourcesImage(sources, order) <==> id in sources)
        && (id in sources ==> SourcesImage(sources, order)[id] == sources[id])
      {
        SourcesImageAt(sources, order, id);
      }
    }
  }

  // ---- the whole backup ------------------------------------------------------------------------

  lemma MangaKeeps(e: Manga, b: Backup)
    ensures EntryImage(e, b.categories, b.sources) == KeptManga(e) <==> PortableManga(e, b)
  {
    CanonicalRoundTrip(e.sourceId);
    NonEmptyKeeps(e.genres);
    StatusKeeps(e.status);
    TimeKeeps(e.addedAt);
    ListedKeeps(e.categories, b.categories);
    TrackersKeep(e.trackers);
    NonEmptyKeeps(e.excludedScanlators);
    ChaptersKeep(e.chapters);
  }

  /** No entry lacks a url, and there is one. */
  predicate Readable(b: Backup) {
    b.entries != [] && forall i :: 0 <= i < |b.entries| ==> b.entries[i].url != []
  }

  lemma OutcomeOfReadable(b: Backup, w: Walk)
    ensures Outcome(b, w).Ok? <==> Readable(b)
    ensures Readable(b) ==> var sources := SourcesImage(b.sources, w.sources);
      Outcome(b, w).value == Backup(MihonFormat, NO_TIME, sources, b.categories, EntryImages(b.entries, b.categories, sources))
  {
  }

  lemma EntriesKeep(b: Backup)
    ensures EntryImages(b.entries, b.categories, b.sources) == KeptEntries(b.entries) <==>
      forall i :: 0 <= i < |b.entries| ==> PortableManga(b.entries[i], b)
  {
    var images, kept := EntryImages(b.entries, b.categories, b.sources), KeptEntries(b.entries);
    forall i | 0 <= i < |b.entries| ensures images[i] == kept[i] <==> PortableManga(b.entries[i], b) {
      MangaKeeps(b.entries[i], b);
    }
    if images != kept {
      var i :| 0 <= i < |images| && images[i] != kept[i];
    }
  }

  /** A backup is read back as it was, up to what the format has no field for, exactly when it is portable. */
  lemma RoundTrip(b: Backup, w: Walk, prefs: seq<Preferences>, prefFields: seq<Field>)
    requires ValidWalk(w, b) && IsPreferences(prefFields, prefs)
    requires |EncFields(BackupFields(b, w) + prefFields)| < TWO63
    ensures BackupFrom(EncFields(BackupFields(b, w) + prefFields)) == Ok(Kept(b)) <==> Readable(b) && Portable(b)
  {
    WriteThenRead(b, w, prefs, prefFields);
    OutcomeKeeps(b, w);
  }

  lemma OutcomeKeeps(b: Backup, w: Walk)
    requires ValidWalk(w, b)
    ensures Outcome(b, w) == Ok(Kept(b)) <==> Readable(b) && Portable(b)
  {
    OutcomeOfReadable(b, w);
    SourcesKeep(b.sources, w.sources);
    EntriesKeep(b);
  }

  // ---- one that does not ------------------------------------------------------------------------

  /** One manga, of a source whose id is written 01. */
  const LEADING_ZERO: Manga :=
    Manga([ZERO, ZERO + 1], [], [ZERO], [], [], [], [], [], [], Unknown, [], true, NO_TIME, [], map[], [], [])

  function Alone(e: Manga): Backup { Backup(MihonFormat, NO_TIME, map[], [], [e]) }

  lemma EncFieldShort(f: Field)
    requires Writable(f) && |f.bytes| < TWO63 && f.u < TWO64
    ensures |EncField(f)| <= 3 * MAX_VARINT_LEN + |f.bytes|
  {
    VarintFits(f.num * 8 + f.typ);
    VarintFits(|f.bytes|);
    VarintFits(f.u);
    if f.typ == WIRE_32 {
      assert |LittleEndian(f.u, 4)| == 4;
    }
  }

  lemma EncOne(f: Field)
    ensures EncFields([f]) == EncField(f)
  {
    assert [f][1..] == [];
    assert EncField(f) + [] == EncField(f);
  }

  lemma EncTwo(f: Field, g: Field)
    ensures EncFields([f, g]) == EncField(f) + EncField(g)
  {
    assert [f, g][1..] == [g];
    EncOne(g);
  }

  lemma LeadingZeroFields() returns (fs: seq<Field>)
    ensures fs == MangaFields(LEADING_ZERO, map[], []) && |EncFields(fs)| < 100
  {
    var f, g := VarintField(1, ParseInt(LEADING_ZERO.sourceId)), StrField(2, [ZERO]);
    fs := [f, g];
    assert HeadFields(LEADING_ZERO) == fs;
    assert MangaFields(LEADING_ZERO, map[], []) == fs;
    EncTwo(f, g);
    EncFieldShort(f);
    EncFieldShort(g);
  }

  lemma AloneFields(e: Manga, w: Walk)
    requires w == Walk([], [[]])
    ensures BackupFields(Alone(e), w) == [MsgField(1, MangaFields(e, map[], []))]
  {
    assert [e][..0] == [] && w.trackers[..0] == [];
    assert EntriesFields([e], map[], w.trackers) == [] + [MsgField(1, MangaFields(e, map[], []))];
  }

  /** It is read without error, but comes back with another id. */
  lemma LeadingZeroIsLost()
    ensures var b, w := Alone(LEADING_ZERO), Walk([], [[]]);
      && ValidWalk(w, b) && Readable(b) && !Portable(b)
      && BackupFrom(EncFields(BackupFields(b, w))) != Ok(Kept(b))
  {
    var b, w := Alone(LEADING_ZERO), Walk([], [[]]);
    NotPortable(b);
    var fs := LeadingZeroFields();
    AloneFields(LEADING_ZERO, w);
    AloneShort(fs);
    NotKept(b, w, BackupFields(b, w));
  }

  lemma AloneShort(fs: seq<Field>)
    requires |EncFields(fs)| < 100
    ensures |EncFields([MsgField(1, fs)])| < 200
  {
    EncOne(MsgField(1, fs));
    EncFieldShort(MsgField(1, fs));
  }

  lemma NotKept(b: Backup, w: Walk, fields: seq<Field>)
    requires ValidWalk(w, b) && fields == BackupFields(b, w) && |EncFields(fields)| < 200 && !Portable(b)
    ensures BackupFrom(EncFields(fields)) != Ok(Kept(b))
  {
    assert fields + [] == fields;
    RoundTrip(b, w, [], []);
  }

  lemma NotPortable(b: Backup)
    requires b == Alone(LEADING_ZERO)
    ensures !Portable(b)
  {
    assert !Canonical(LEADING_ZERO.sourceId);
    assert !PortableManga(b.entries[0], b);
  }
}
