/** Library backups, and the reader of Mihon's: nested protobuf messages into one normalized model. */
module Mihon {
  import opened Common
  import opened Varint
  import opened Wire
  import opened Decimal
  import opened Float
  import opened Sorting

  /** A Go string: its bytes. */
  type Text = Bytes

  datatype Status = Ongoing | Completed | Cancelled | Hiatus | Unknown | OtherStatus(name: Text)

  /** OtherTracker is any name but the four Mihon knows. */
  datatype Tracker = AniList | MAL | MangaUpdates | Kitsu | OtherTracker(name: Text)

  /** Nanoseconds from the Unix epoch. */
  datatype Time = At(nanos: int)

  /** The zero time, year 1, in milliseconds from the Unix epoch. */
  const ZERO_TIME_MILLIS: I64 := -62_135_596_800_000

  const NO_TIME: Time := At(ZERO_TIME_MILLIS * 1_000_000)

  /** A float64, by its bits. */
  type Number = U64

  const MINUS_ONE: Number := 0xBFF0_0000_0000_0000

  datatype Chapter = Chapter(
    url: Text, name: Text, scanlator: Text, lang: Text, number: Number,
    read: bool, lastPageRead: I64, readAt: Option<Time>)

  datatype Manga = Manga(
    sourceId: Text, sourceName: Text, url: Text, webUrl: Text, title: Text, author: Text, artist: Text,
    description: Text, genres: seq<Text>, status: Status, thumbnailUrl: Text, favorite: bool, addedAt: Time,
    categories: seq<Text>, trackers: map<Tracker, Text>, excludedScanlators: seq<Text>, chapters: seq<Chapter>)

  datatype Format = MihonFormat | AidokuFormat

  datatype Backup = Backup(
    format: Format, createdAt: Time, sources: map<Text, Text>, categories: seq<Text>, entries: seq<Manga>)

  /** millis */
  function Millis(ms: I64): Time {
    if ms <= 0 then NO_TIME else At(ms * 1_000_000)
  }

  /** mihonStatus: publishing finished counts as ongoing. */
  function StatusOf(n: I64): Status {
    if n == 1 || n == 4 then Ongoing
    else if n == 2 then Completed
    else if n == 5 then Cancelled
    else if n == 6 then Hiatus
    else Unknown
  }

  /** mihonTrackers */
  function TrackerOf(n: I64): Option<Tracker> {
    if n == 1 then Some(MAL)
    else if n == 2 then Some(AniList)
    else if n == 3 then Some(Kitsu)
    else if n == 7 then Some(MangaUpdates)
    else None
  }

  /** uint32(u) */
  function Low32(u: nat): U32 { u % 0x1_0000_0000 }

  /** float32 */
  function NumberOf(f: Field): Number {
    if f.typ == WIRE_32 then ToDouble(Low32(f.u)) else FromCount(f.u)
  }

  // ---- small messages: a text in field 1 and a number in field 2 ---------------------

  /** A category with its order, a source name with its id, or a history url with its time. */
  datatype Tagged = Tagged(text: Text, n: I64)

  function TaggedStep(t: Tagged, f: Field): Result<Tagged> {
    if f.num == 1 then Ok(t.(text := f.bytes))
    else if f.num == 2 then Ok(t.(n := f.Int()))
    else Ok(t)
  }

  function ParseTagged(b: Bytes): Result<Tagged> {
    Run(b, Tagged([], 0), TaggedStep)
  }

  // ---- chapters ------------------------------------------------------------------------

  datatype ChapterState = ChapterState(c: Chapter, hasNumber: bool)

  function ChapterStep(s: ChapterState, f: Field): Result<ChapterState> {
    if f.num == 1 then Ok(s.(c := s.c.(url := f.bytes)))
    else if f.num == 2 then Ok(s.(c := s.c.(name := f.bytes)))
    else if f.num == 3 then Ok(s.(c := s.c.(scanlator := f.bytes)))
    else if f.num == 4 then Ok(s.(c := s.c.(read := f.Bool())))
    else if f.num == 6 then Ok(s.(c := s.c.(lastPageRead := f.Int())))
    else if f.num == 9 then Ok(ChapterState(s.c.(number := NumberOf(f)), true))
    else Ok(s)
  }

  /** A chapter before any field; -1 stands for an unknown number. */
  const NO_CHAPTER: ChapterState := ChapterState(Chapter([], [], [], [], MINUS_ONE, false, 0, None), false)

  function ParseChapter(b: Bytes): Result<Chapter> {
    match Run(b, NO_CHAPTER, ChapterStep)
    case Err(e) => Err(e)
    case Ok(s) => Ok(if s.hasNumber then s.c else s.c.(number := 0))
  }

  // ---- trackers --------------------------------------------------------------------------

  datatype TrackState = TrackState(syncId: I64, mediaIdInt: I64, url: Text, mediaId: I64)

  function TrackStep(s: TrackState, f: Field): Result<TrackState> {
    if f.num == 1 then Ok(s.(syncId := f.Int()))
    else if f.num == 3 then Ok(s.(mediaIdInt := f.Int()))
    else if f.num == 4 then Ok(s.(url := f.bytes))
    else if f.num == 100 then Ok(s.(mediaId := f.Int()))
    else Ok(s)
  }

  /** The tracker's id: the media id, or for MangaUpdates the slug its url ends in. */
  function TrackId(s: TrackState): Text {
    var mediaId := if s.mediaId == 0 then s.mediaIdInt else s.mediaId;
    if mediaId > 0 then FormatInt(mediaId)
    else if TrackerOf(s.syncId) == Some(MangaUpdates) && s.url != [] then LastSegment(TrimSlashes(s.url))
    else []
  }

  function AddTracker(trackers: map<Tracker, Text>, s: TrackState): map<Tracker, Text> {
    if TrackerOf(s.syncId).Some? && TrackId(s) != [] then trackers[TrackerOf(s.syncId).value := TrackId(s)]
    else trackers
  }

  // ---- manga -------------------------------------------------------------------------------

  /** The names of the category orders that are known. */
  function Named(orders: seq<I64>, cats: map<I64, Text>): seq<Text> {
    if orders == [] then [] else
      var rest := Named(orders[..|orders| - 1], cats);
      var last := orders[|orders| - 1];
      if last in cats then rest + [cats[last]] else rest
  }

  datatype MangaState = MangaState(e: Manga, history: seq<Tagged>)

  function TextStep(e: Manga, f: Field): Manga {
    if f.num == 1 then e.(sourceId := FormatInt(f.Int()))
    else if f.num == 2 then e.(url := f.bytes)
    else if f.num == 3 then e.(title := f.bytes)
    else if f.num == 4 then e.(artist := f.bytes)
    else if f.num == 5 then e.(author := f.bytes)
    else if f.num == 6 then e.(description := f.bytes)
    else if f.num == 7 then e.(genres := e.genres + [f.bytes])
    else if f.num == 8 then e.(status := StatusOf(f.Int()))
    else if f.num == 9 then e.(thumbnailUrl := f.bytes)
    else if f.num == 13 then e.(addedAt := Millis(f.Int()))
    else if f.num == 100 then e.(favorite := f.Bool())
    else if f.num == 108 then e.(excludedScanlators := e.excludedScanlators + [f.bytes])
    else e
  }

  function MangaStep(cats: map<I64, Text>, s: MangaState, f: Field): Result<MangaState> {
    if f.num == 16 then
      match ParseChapter(f.bytes)
      case Err(e) => Err(e)
      case Ok(c) => Ok(s.(e := s.e.(chapters := s.e.chapters + [c])))
    else if f.num == 17 then
      match Ints(f)
      case Err(e) => Err(e)
      case Ok(orders) => Ok(s.(e := s.e.(categories := s.e.categories + Named(orders, cats))))
    else if f.num == 18 then
      match Run(f.bytes, TrackState(0, 0, [], 0), TrackStep)
      case Err(e) => Err(e)
      case Ok(t) => Ok(s.(e := s.e.(trackers := AddTracker(s.e.trackers, t))))
    else if f.num == 104 then
      match ParseTagged(f.bytes)
      case Err(e) => Err(e)
      case Ok(h) => Ok(s.(history := s.history + [h]))
    else Ok(s.(e := TextStep(s.e, f)))
  }

  function MangaReader(cats: map<I64, Text>): (MangaState, Field) -> Result<MangaState> {
    (s, f) => MangaStep(cats, s, f)
  }

  /** A manga before any field: a favorite, because the writer omits the default. */
  const NO_MANGA: Manga :=
    Manga([], [], [], [], [], [], [], [], [], Unknown, [], true, NO_TIME, [], map[], [], [])

  /** The latest read time of each url, never below zero. */
  function ByUrl(history: seq<Tagged>): map<Text, I64> {
    if history == [] then map[] else
      var m := ByUrl(history[..|history| - 1]);
      var h := history[|history| - 1];
      m[h.text := Later(m, h)]
  }

  function Later(m: map<Text, I64>, h: Tagged): I64 {
    var was := if h.text in m then m[h.text] else 0;
    if was < h.n then h.n else was
  }

  /** A chapter with the read time of its url, if it has one. */
  function WithReadAt(c: Chapter, m: map<Text, I64>): Chapter {
    if c.url in m && m[c.url] > 0 then c.(readAt := Some(Millis(m[c.url]))) else c
  }

  function WithHistory(cs: seq<Chapter>, m: map<Text, I64>): (r: seq<Chapter>)
    ensures |r| == |cs| && forall i :: 0 <= i < |cs| ==> r[i] == WithReadAt(cs[i], m)
  {
    seq(|cs|, i requires 0 <= i < |cs| => WithReadAt(cs[i], m))
  }

  /** parseMihonManga */
  function MangaFrom(raw: Bytes, cats: map<I64, Text>): Result<Manga> {
    match Run(raw, MangaState(NO_MANGA, []), MangaReader(cats))
    case Err(e) => Err(e)
    case Ok(s) =>
      if s.e.url == [] then Err(MissingUrl)
      else Ok(s.e.(chapters := WithHistory(s.e.chapters, ByUrl(s.history))))
  }

  method ParseManga(raw: Bytes, cats: map<I64, Text>) returns (r: Result<Manga>)
    ensures r == MangaFrom(raw, cats)
  {
    var got := Fields(raw, MangaState(NO_MANGA, []), MangaReader(cats));
    if got.Err? {
      return Err(got.error);
    }
    var e := got.value.e;
    if e.url == [] {
      return Err(MissingUrl);
    }
    var byUrl := JoinHistory(got.value.history);
    var chapters := SetReadTimes(e.chapters, byUrl);
    r := Ok(e.(chapters := chapters));
  }

  method JoinHistory(history: seq<Tagged>) returns (byUrl: map<Text, I64>)
    ensures byUrl == ByUrl(history)
  {
    byUrl := map[];
    for i := 0 to |history|
      invariant byUrl == ByUrl(history[..i])
    {
      assert history[..i + 1][..i] == history[..i];
      byUrl := byUrl[history[i].text := Later(byUrl, history[i])];
    }
    assert history[..|history|] == history;
  }

  method SetReadTimes(cs: seq<Chapter>, byUrl: map<Text, I64>) returns (chapters: seq<Chapter>)
    ensures chapters == WithHistory(cs, byUrl)
  {
    chapters := cs;
    for i := 0 to |cs|
      invariant |chapters| == |cs|
      invariant forall k :: 0 <= k < i ==> chapters[k] == WithReadAt(cs[k], byUrl)
      invariant forall k :: i <= k < |cs| ==> chapters[k] == cs[k]
    {
      var c := cs[i];
      if c.url in byUrl && byUrl[c.url] > 0 {
        chapters := chapters[i := c.(readAt := Some(Millis(byUrl[c.url])))];
      }
    }
  }

  // ---- the whole backup ----------------------------------------------------------------------

  datatype Top = Top(manga: seq<Bytes>, cats: seq<Tagged>, sources: map<Text, Text>)

  function TopStep(s: Top, f: Field): Result<Top> {
    if f.typ != WIRE_BYTES then Ok(s)
    else if f.num == 1 then Ok(s.(manga := s.manga + [f.bytes]))
    else if f.num == 2 then
      match ParseTagged(f.bytes)
      case Err(e) => Err(e)
      case Ok(c) => Ok(s.(cats := s.cats + [c]))
    else if f.num == 101 then
      match ParseTagged(f.bytes)
      case Err(e) => Err(e)
      case Ok(src) => Ok(s.(sources := s.sources[FormatInt(src.n) := src.text]))
    else Ok(s)
  }

  function ByOrder(a: Tagged, b: Tagged): bool {
    a.n < b.n
  }

  function CatNames(cats: seq<Tagged>): (r: seq<Text>)
    ensures |r| == |cats| && forall i :: 0 <= i < |cats| ==> r[i] == cats[i].text
  {
    seq(|cats|, i requires 0 <= i < |cats| => cats[i].text)
  }

  /** catByOrder: the last category of an order names it. */
  function CatByOrder(cats: seq<Tagged>): map<I64, Text> {
    if cats == [] then map[] else
      var last := cats[|cats| - 1];
      CatByOrder(cats[..|cats| - 1])[last.n := last.text]
  }

  function NameOf(sources: map<Text, Text>, id: Text): Text {
    if id in sources then sources[id] else []
  }

  /** The entries, or the first manga's error with its number. */
  function EntriesFrom(raws: seq<Bytes>, cats: map<I64, Text>, sources: map<Text, Text>): Result<seq<Manga>> {
    if raws == [] then Ok([]) else
      var n := |raws|;
      match EntriesFrom(raws[..n - 1], cats, sources)
      case Err(e) => Err(e)
      case Ok(es) =>
        match MangaFrom(raws[n - 1], cats)
        case Err(e) => Err(InManga(n, e))
        case Ok(e) => Ok(es + [e.(sourceName := NameOf(sources, e.sourceId))])
  }

  /** parseMihon */
  function BackupFrom(data: Bytes): Result<Backup> {
    match Run(data, Top([], [], map[]), TopStep)
    case Err(e) => Err(e)
    case Ok(s) =>
      var cats := StableSort(s.cats, ByOrder);
      match EntriesFrom(s.manga, CatByOrder(cats), s.sources)
      case Err(e) => Err(e)
      case Ok(entries) =>
        if entries == [] then Err(NoManga)
        else Ok(Backup(MihonFormat, NO_TIME, s.sources, CatNames(cats), entries))
  }

  lemma {:induction false} EntriesFail(raws: seq<Bytes>, cats: map<I64, Text>, sources: map<Text, Text>, i: nat, e: Error)
    requires i < |raws| && EntriesFrom(raws[..i + 1], cats, sources) == Err(e)
    ensures EntriesFrom(raws, cats, sources) == Err(e)
    decreases |raws|
  {
    if i + 1 < |raws| {
      assert raws[..|raws| - 1][..i + 1] == raws[..i + 1];
      EntriesFail(raws[..|raws| - 1], cats, sources, i, e);
    } else {
      assert raws[..i + 1] == raws;
    }
  }

  method IndexCategories(cats: seq<Tagged>) returns (names: seq<Text>, byOrder: map<I64, Text>)
    ensures names == CatNames(cats) && byOrder == CatByOrder(cats)
  {
    names, byOrder := [], map[];
    for i := 0 to |cats|
      invariant names == CatNames(cats[..i]) && byOrder == CatByOrder(cats[..i])
    {
      assert cats[..i + 1][..i] == cats[..i];
      names := names + [cats[i].text];
      byOrder := byOrder[cats[i].n := cats[i].text];
    }
    assert cats[..|cats|] == cats;
  }

  method ParseEntries(raws: seq<Bytes>, cats: map<I64, Text>, sources: map<Text, Text>) returns (r: Result<seq<Manga>>)
    ensures r == EntriesFrom(raws, cats, sources)
  {
    var entries: seq<Manga> := [];
    for i := 0 to |raws|
      invariant EntriesFrom(raws[..i], cats, sources) == Ok(entries)
    {
      assert raws[..i + 1][..i] == raws[..i];
      var e := ParseManga(raws[i], cats);
      if e.Err? {
        EntriesFail(raws, cats, sources, i, InManga(i + 1, e.error));
        return Err(InManga(i + 1, e.error));
      }
      entries := entries + [e.value.(sourceName := NameOf(sources, e.value.sourceId))];
    }
    assert raws[..|raws|] == raws;
    r := Ok(entries);
  }

  method ParseMihon(data: Bytes) returns (r: Result<Backup>)
    ensures r == BackupFrom(data)
  {
    var got := Fields(data, Top([], [], map[]), TopStep);
    if got.Err? {
      return Err(got.error);
    }
    var categories, catByOrder := IndexCategories(StableSort(got.value.cats, ByOrder));
    var entries := ParseEntries(got.value.manga, catByOrder, got.value.sources);
    if entries.Err? {
      return Err(entries.error);
    }
    if entries.value == [] {
      return Err(NoManga);
    }
    r := Ok(Backup(MihonFormat, NO_TIME, got.value.sources, categories, entries.value));
  }

  // ---- unknown fields ----------------------------------------------------------------------

  /** Fields the top level has no use for, such as the source preferences in field 105. */
  predicate UnknownAtTop(f: Field) {
    f.typ != WIRE_BYTES || (f.num != 1 && f.num != 2 && f.num != 101)
  }

  predicate UnknownInManga(f: Field) {
    !(1 <= f.num <= 9) && f.num != 13 && !(16 <= f.num <= 18) && f.num != 100 && f.num != 104 && f.num != 108
  }

  /** Unknown fields between two parts of a backup leave what is read of it as it is. */
  lemma UnknownFieldsIgnored(a: Bytes, u: Bytes, c: Bytes)
    requires WellFormed(a) && WellFormed(u) && AllFields(u, UnknownAtTop)
    ensures BackupFrom(a + u + c) == BackupFrom(a + c)
  {
    RunInsertion(a, u, c, Top([], [], map[]), TopStep, UnknownAtTop);
  }

  /** And so inside one manga. */
  lemma UnknownMangaFieldsIgnored(a: Bytes, u: Bytes, c: Bytes, cats: map<I64, Text>)
    requires WellFormed(a) && WellFormed(u) && AllFields(u, UnknownInManga)
    ensures MangaFrom(a + u + c, cats) == MangaFrom(a + c, cats)
  {
    RunInsertion(a, u, c, MangaState(NO_MANGA, []), MangaReader(cats), UnknownInManga);
  }
}
