/** Reading what the writer wrote. */
module MihonRoundTrip {
  import opened Common
  import opened Varint
  import opened Float
  import opened Wire
  import opened Decimal
  import opened Sorting
  import opened Mihon
  import opened MihonWriter

  // ---- what a backup becomes -------------------------------------------------------------

  /** A chapter number after narrowing; a zero of either sign is omitted and reads as 0. */
  function NumberImage(n: Number): Number {
    var bits := ToSingle(n);
    if bits == 0 || bits == NEGATIVE_ZERO then 0 else ToDouble(bits)
  }

  /** A chapter as its own message gives it back: history comes apart. */
  function ChapterImage(c: Chapter): Chapter {
    Chapter(c.url, c.name, c.scanlator, [], NumberImage(c.number), c.read, c.lastPageRead, None)
  }

  function ChapterImages(cs: seq<Chapter>): (r: seq<Chapter>)
    ensures |r| == |cs| && forall i :: 0 <= i < |cs| ==> r[i] == ChapterImage(cs[i])
  {
    seq(|cs|, i requires 0 <= i < |cs| => ChapterImage(cs[i]))
  }

  function NonEmpty(ss: seq<Text>): seq<Text> {
    if ss == [] then [] else
      NonEmpty(ss[..|ss| - 1]) + (if ss[|ss| - 1] == [] then [] else [ss[|ss| - 1]])
  }

  function StatusImage(s: Status): Status {
    if s.OtherStatus? then Unknown else s
  }

  function TimeImage(t: Time): Time {
    if IsZero(t) then NO_TIME else Millis(UnixMilli(t))
  }

  /** The id a tracker reads back with, if any. */
  function TrackerImage(t: Tracker, id: Text): Option<Text> {
    var n := ParseInt(id);
    if t.OtherTracker? || n < 0 then None
    else if n > 0 then Some(FormatInt(n))
    else if t.MangaUpdates? && id != [] then Some(LastSegment(TrimSlashes(SeriesUrl(id))))
    else None
  }

  function TrackersImage(trackers: map<Tracker, Text>): map<Tracker, Text> {
    map t | t in trackers && TrackerImage(t, trackers[t]).Some? :: TrackerImage(t, trackers[t]).value
  }

  /** The category names the backup lists. */
  function Listed(names: seq<Text>, categories: seq<Text>): seq<Text> {
    if names == [] then [] else
      var n := |names| - 1;
      Listed(names[..n], categories) + (if names[n] in categories then [names[n]] else [])
  }

  /** The latest positive read time written for a url, or 0. */
  function LatestRead(cs: seq<Chapter>, url: Text): I64 {
    if cs == [] then 0 else
      var c, was := cs[|cs| - 1], LatestRead(cs[..|cs| - 1], url);
      if c.readAt.Some? && c.url == url && was < UnixMilli(c.readAt.value) then UnixMilli(c.readAt.value) else was
  }

  function ReadAtImage(cs: seq<Chapter>, url: Text): Option<Time> {
    if LatestRead(cs, url) > 0 then Some(Millis(LatestRead(cs, url))) else None
  }

  function ReadChapters(cs: seq<Chapter>): (r: seq<Chapter>)
    ensures |r| == |cs|
    ensures forall i :: 0 <= i < |cs| ==> r[i] == ChapterImage(cs[i]).(readAt := ReadAtImage(cs, cs[i].url))
  {
    seq(|cs|, i requires 0 <= i < |cs| => ChapterImage(cs[i]).(readAt := ReadAtImage(cs, cs[i].url)))
  }

  /** A manga as its message gives it back, before its source is named. */
  function MangaImage(e: Manga, categories: seq<Text>): Manga {
    Manga(FormatInt(ParseInt(e.sourceId)), [], e.url, [], e.title, e.author, e.artist, e.description,
          NonEmpty(e.genres), StatusImage(e.status), e.thumbnailUrl, e.favorite, TimeImage(e.addedAt),
          Listed(e.categories, categories), TrackersImage(e.trackers), NonEmpty(e.excludedScanlators),
          ReadChapters(e.chapters))
  }

  /** Sources under their canonical ids; of ids that read alike the last written stays. */
  function SourcesImage(sources: map<Text, Text>, order: seq<Text>): map<Text, Text> {
    if order == [] then map[] else
      var id := order[|order| - 1];
      SourcesImage(sources, order[..|order| - 1])[FormatInt(ParseInt(id)) := NameOf(sources, id)]
  }

  // ---- one message at a time ---------------------------------------------------------------

  /** Reading the fields fs takes s to t. */
  ghost predicate Reads<S>(fs: seq<Field>, s: S, step: (S, Field) -> Result<S>, t: S) {
    AllWritable(fs) && Fold(fs, s, step) == Ok(t)
  }

  lemma ReadsBoth<S>(a: seq<Field>, b: seq<Field>, s: S, t: S, u: S, step: (S, Field) -> Result<S>)
    requires Reads(a, s, step, t) && Reads(b, t, step, u)
    ensures Reads(a + b, s, step, u)
  {
    FoldConcat(a, b, s, step);
  }

  lemma ReadsOne<S>(f: Field, s: S, step: (S, Field) -> Result<S>)
    requires Writable(f) && step(s, f).Ok?
    ensures Reads([f], s, step, step(s, f).value)
  {
    assert [f][1..] == [];
    assert Fold([f], s, step) == Fold([], step(s, f).value, step);
  }

  lemma ReadsNone<S>(s: S, step: (S, Field) -> Result<S>)
    ensures Reads([], s, step, s)
  {
  }

  lemma RunReads<S>(fs: seq<Field>, s: S, step: (S, Field) -> Result<S>, t: S)
    requires Reads(fs, s, step, t) && |EncFields(fs)| < TWO64
    ensures Run(EncFields(fs), s, step) == Ok(t)
  {
    RunEncFields(fs, s, step);
  }

  lemma PartLengths(a: seq<Field>, b: seq<Field>)
    ensures |EncFields(a)| <= |EncFields(a + b)| && |EncFields(b)| <= |EncFields(a + b)|
  {
    EncFieldsConcat(a, b);
  }

  lemma MsgShorter(a: seq<Field>, num: nat, fs: seq<Field>)
    ensures |EncFields(fs)| < |EncFields(a + [MsgField(num, fs)])|
  {
    PartShorter(a + [MsgField(num, fs)], |a|);
  }

  lemma MsgAlone(num: nat, fs: seq<Field>)
    ensures |EncFields(fs)| < |EncFields([MsgField(num, fs)])|
  {
    PartShorter([MsgField(num, fs)], 0);
  }

  // ---- chapters ------------------------------------------------------------------------------

  lemma ChapterTextsRead(s: ChapterState, c: Chapter)
    requires s.c.scanlator == [] && !s.c.read
    ensures Reads([StrField(1, c.url), StrField(2, c.name)] + OptStr(3, c.scanlator) + OptBool(4, c.read), s, ChapterStep,
                  s.(c := s.c.(url := c.url, name := c.name, scanlator := c.scanlator, read := c.read)))
  {
    var s1 := s.(c := s.c.(url := c.url));
    var s2 := s1.(c := s1.c.(name := c.name));
    var s3 := s2.(c := s2.c.(scanlator := c.scanlator));
    var s4 := s3.(c := s3.c.(read := c.read));
    ReadsOne(StrField(1, c.url), s, ChapterStep);
    ReadsOne(StrField(2, c.name), s1, ChapterStep);
    ReadsBoth([StrField(1, c.url)], [StrField(2, c.name)], s, s1, s2, ChapterStep);
    assert [StrField(1, c.url)] + [StrField(2, c.name)] == [StrField(1, c.url), StrField(2, c.name)];
    if c.scanlator == [] { ReadsNone(s2, ChapterStep); } else { ReadsOne(StrField(3, c.scanlator), s2, ChapterStep); }
    ReadsBoth([StrField(1, c.url), StrField(2, c.name)], OptStr(3, c.scanlator), s, s2, s3, ChapterStep);
    if c.read { ReadsOne(VarintField(4, 1), s3, ChapterStep); } else { ReadsNone(s3, ChapterStep); }
    ReadsBoth([StrField(1, c.url), StrField(2, c.name)] + OptStr(3, c.scanlator), OptBool(4, c.read), s, s3, s4, ChapterStep);
  }

  ghost predicate NumbersRead(s: ChapterState, c: Chapter, t: ChapterState) {
    && Reads(OptVarint(6, c.lastPageRead) + OptFloat(9, ToSingle(c.number)), s, ChapterStep, t)
    && (if t.hasNumber then t.c else t.c.(number := 0))
       == s.c.(lastPageRead := c.lastPageRead, number := NumberImage(c.number))
  }

  lemma ChapterNumbersRead(s: ChapterState, c: Chapter)
    requires s.c.lastPageRead == 0 && !s.hasNumber
    ensures exists t :: NumbersRead(s, c, t)
  {
    var s1 := s.(c := s.c.(lastPageRead := c.lastPageRead));
    PageReads(s, s1, c.lastPageRead);
    var t := NumberReads(s1, c.number);
    ReadsBoth(OptVarint(6, c.lastPageRead), OptFloat(9, ToSingle(c.number)), s, s1, t, ChapterStep);
    assert NumbersRead(s, c, t);
  }

  lemma PageReads(s: ChapterState, t: ChapterState, page: I64)
    requires s.c.lastPageRead == 0 && t == s.(c := s.c.(lastPageRead := page))
    ensures Reads(OptVarint(6, page), s, ChapterStep, t)
  {
    if page == 0 { ReadsNone(s, ChapterStep); } else { ReadsOne(VarintField(6, page), s, ChapterStep); }
  }

  lemma NumberReads(s: ChapterState, number: Number) returns (t: ChapterState)
    requires !s.hasNumber
    ensures Reads(OptFloat(9, ToSingle(number)), s, ChapterStep, t)
    ensures (if t.hasNumber then t.c else t.c.(number := 0)) == s.c.(number := NumberImage(number))
  {
    var bits := ToSingle(number);
    t := s;
    if bits == 0 || bits == NEGATIVE_ZERO {
      ReadsNone(s, ChapterStep);
    } else {
      t := ChapterState(s.c.(number := ToDouble(bits)), true);
      NumberOfBits(bits);
      FieldReads(s, Field(9, WIRE_32, bits, []), ToDouble(bits));
    }
  }

  lemma NumberOfBits(bits: U32)
    ensures NumberOf(Field(9, WIRE_32, bits, [])) == ToDouble(bits)
  {
    LowOfLow(bits);
  }

  lemma LowOfLow(bits: U32)
    ensures Low32(bits) == bits
  {
  }

  lemma FieldReads(s: ChapterState, f: Field, number: Number)
    requires Writable(f) && f.num == 9 && NumberOf(f) == number
    ensures Reads([f], s, ChapterStep, ChapterState(s.c.(number := number), true))
  {
    ReadsOne(f, s, ChapterStep);
  }

  /** A chapter's message reads back as the chapter, apart from its history and language. */
  lemma ChapterReads(c: Chapter)
    requires |EncFields(ChapterFields(c))| < TWO64
    ensures ParseChapter(EncFields(ChapterFields(c))) == Ok(ChapterImage(c))
  {
    var head := [StrField(1, c.url), StrField(2, c.name)] + OptStr(3, c.scanlator) + OptBool(4, c.read);
    var tail := OptVarint(6, c.lastPageRead) + OptFloat(9, ToSingle(c.number));
    var s := NO_CHAPTER.(c := NO_CHAPTER.c.(url := c.url, name := c.name, scanlator := c.scanlator, read := c.read));
    ChapterTextsRead(NO_CHAPTER, c);
    ChapterNumbersRead(s, c);
    var t :| NumbersRead(s, c, t);
    ReadsBoth(head, tail, NO_CHAPTER, s, t, ChapterStep);
    assert head + tail == ChapterFields(c);
    RunReads(ChapterFields(c), NO_CHAPTER, ChapterStep, t);
  }

  // ---- trackers ---------------------------------------------------------------------------------

  lemma TrackerMessageReads(sync: I64, tail: seq<Field>, t: TrackState)
    requires Reads(tail, TrackState(sync, 0, [], 0), TrackStep, t)
    ensures Reads([VarintField(1, sync), VarintField(2, 0)] + tail, TrackState(0, 0, [], 0), TrackStep, t)
  {
    var s0, s1 := TrackState(0, 0, [], 0), TrackState(sync, 0, [], 0);
    ReadsOne(VarintField(1, sync), s0, TrackStep);
    ReadsOne(VarintField(2, 0), s1, TrackStep);
    ReadsBoth([VarintField(1, sync)], [VarintField(2, 0)], s0, s1, s1, TrackStep);
    assert [VarintField(1, sync)] + [VarintField(2, 0)] == [VarintField(1, sync), VarintField(2, 0)];
    ReadsBoth([VarintField(1, sync), VarintField(2, 0)], tail, s0, s1, t, TrackStep);
  }

  /** The reader's state after one tracker message. */
  function TrackerState(t: Tracker, id: Text): TrackState {
    var sync, n := SyncId(t), ParseInt(id);
    if n != 0 then TrackState(sync, 0, [], n) else TrackState(sync, 0, SeriesUrl(id), 0)
  }

  lemma TrackerTailReads(t: Tracker, id: Text)
    requires SyncId(t) != 0 && (ParseInt(id) != 0 || (t.MangaUpdates? && id != []))
    ensures var n := ParseInt(id);
      Reads(if n != 0 then OptVarint(100, n) else OptStr(4, SeriesUrl(id)),
            TrackState(SyncId(t), 0, [], 0), TrackStep, TrackerState(t, id))
  {
    var s := TrackState(SyncId(t), 0, [], 0);
    if ParseInt(id) != 0 {
      ReadsOne(VarintField(100, ParseInt(id)), s, TrackStep);
    } else {
      ReadsOne(StrField(4, SeriesUrl(id)), s, TrackStep);
    }
  }

  lemma FormatIntNonEmpty(v: I64)
    ensures FormatInt(v) != []
  {
  }

  /** A trimmed series url has a last segment: the id's, or "series" itself. */
  lemma SegmentNonEmpty(id: Text)
    ensures LastSegment(TrimSlashes(SeriesUrl(id))) != []
  {
    assert SeriesUrl(id)[0] == 'h' as int;
    TrimStops(SeriesUrl(id), 0);
  }

  lemma {:induction false} TrimStops(s: Text, i: nat)
    requires i < |s| && s[i] != SLASH
    ensures LastSegment(TrimSlashes(s)) != []
  {
    if s[|s| - 1] == SLASH {
      TrimStops(s[..|s| - 1], i);
    }
  }

  lemma TrackerAdds(trackers: map<Tracker, Text>, t: Tracker, id: Text)
    requires TrackerField(t, id) != []
    ensures AddTracker(trackers, TrackerState(t, id)) ==
      if TrackerImage(t, id).Some? then trackers[t := TrackerImage(t, id).value] else trackers
  {
    assert TrackerOf(SyncId(t)) == Some(t);
    if ParseInt(id) == 0 {
      SegmentNonEmpty(id);
    } else if ParseInt(id) > 0 {
      FormatIntNonEmpty(ParseInt(id));
    }
  }

  lemma TrackerReads(s: MangaState, t: Tracker, id: Text, cats: map<I64, Text>)
    requires |EncFields(TrackerField(t, id))| < TWO64
    ensures Reads(TrackerField(t, id), s, MangaReader(cats),
                  s.(e := s.e.(trackers := if TrackerImage(t, id).Some? then s.e.trackers[t := TrackerImage(t, id).value] else s.e.trackers)))
  {
    if TrackerField(t, id) == [] {
      ReadsNone(s, MangaReader(cats));
    } else {
      var fs := TrackerMessage(t, id);
      TrackerIsMessage(t, id);
      MsgAlone(18, fs);
      TrackerRuns(t, id);
      TrackerAdds(s.e.trackers, t, id);
      TrackerStepped(s, fs, TrackerState(t, id), cats);
    }
  }

  lemma TrackerIsMessage(t: Tracker, id: Text)
    requires TrackerField(t, id) != []
    ensures TrackerField(t, id) == [MsgField(18, TrackerMessage(t, id))]
  {
  }

  lemma TrackerStepped(s: MangaState, fs: seq<Field>, read: TrackState, cats: map<I64, Text>)
    requires Run(EncFields(fs), TrackState(0, 0, [], 0), TrackStep) == Ok(read)
    ensures Reads([MsgField(18, fs)], s, MangaReader(cats), s.(e := s.e.(trackers := AddTracker(s.e.trackers, read))))
  {
    ReadsOne(MsgField(18, fs), s, MangaReader(cats));
  }

  function TrackerMessage(t: Tracker, id: Text): seq<Field> {
    [VarintField(1, SyncId(t)), VarintField(2, 0)]
      + (if ParseInt(id) != 0 then OptVarint(100, ParseInt(id)) else OptStr(4, SeriesUrl(id)))
  }

  lemma TrackerRuns(t: Tracker, id: Text)
    requires TrackerField(t, id) != [] && |EncFields(TrackerMessage(t, id))| < TWO64
    ensures Run(EncFields(TrackerMessage(t, id)), TrackState(0, 0, [], 0), TrackStep) == Ok(TrackerState(t, id))
  {
    var tail := if ParseInt(id) != 0 then OptVarint(100, ParseInt(id)) else OptStr(4, SeriesUrl(id));
    TrackerTailReads(t, id);
    TrackerMessageReads(SyncId(t), tail, TrackerState(t, id));
    RunReads(TrackerMessage(t, id), TrackState(0, 0, [], 0), TrackStep, TrackerState(t, id));
  }

  /** What tracker messages in a given order add up to. */
  function TrackersFrom(trackers: map<Tracker, Text>, order: seq<Tracker>, m: map<Tracker, Text>): map<Tracker, Text> {
    if order == [] then m else
      var n := |order| - 1;
      var rest := TrackersFrom(trackers, order[..n], m);
      match TrackerImage(order[n], IdOf(trackers, order[n]))
      case None => rest
      case Some(read) => rest[order[n] := read]
  }

  lemma {:induction false} TrackersRead(s: MangaState, trackers: map<Tracker, Text>, order: seq<Tracker>, cats: map<I64, Text>)
    requires |EncFields(TrackerFields(trackers, order))| < TWO64
    ensures Reads(TrackerFields(trackers, order), s, MangaReader(cats),
                  s.(e := s.e.(trackers := TrackersFrom(trackers, order, s.e.trackers))))
  {
    if order == [] {
      ReadsNone(s, MangaReader(cats));
    } else {
      var n := |order| - 1;
      var t := order[n];
      var a, b := TrackerFields(trackers, order[..n]), TrackerField(t, IdOf(trackers, t));
      PartLengths(a, b);
      TrackersRead(s, trackers, order[..n], cats);
      var s1 := s.(e := s.e.(trackers := TrackersFrom(trackers, order[..n], s.e.trackers)));
      TrackerReads(s1, t, IdOf(trackers, t), cats);
      ReadsBoth(a, b, s, s1, s.(e := s.e.(trackers := TrackersFrom(trackers, order, s.e.trackers))), MangaReader(cats));
    }
  }

  lemma {:induction false} TrackersFromAt(trackers: map<Tracker, Text>, order: seq<Tracker>, t: Tracker)
    ensures var m := TrackersFrom(trackers, order, map[]);
      && (t in m <==> t in order && TrackerImage(t, IdOf(trackers, t)).Some?)
      && (t in m ==> m[t] == TrackerImage(t, IdOf(trackers, t)).value)
  {
    if order != [] {
      TrackersFromAt(trackers, order[..|order| - 1], t);
      assert order == order[..|order| - 1] + [order[|order| - 1]];
    }
  }

  /** The order the map was walked in does not matter. */
  lemma TrackersInAnyOrder(trackers: map<Tracker, Text>, order: seq<Tracker>)
    requires Walks(order, trackers.Keys)
    ensures TrackersFrom(trackers, order, map[]) == TrackersImage(trackers)
  {
    var m, image := TrackersFrom(trackers, order, map[]), TrackersImage(trackers);
    forall t ensures (t in m <==> t in image) && (t in m ==> m[t] == image[t]) {
      TrackersFromAt(trackers, order, t);
    }
  }
}
