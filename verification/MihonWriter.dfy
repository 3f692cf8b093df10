/** The writer of Mihon backups: an append-only buffer, and the fields each message holds. */
module MihonWriter {
  import opened Common
  import opened Varint
  import opened Float
  import opened Wire
  import opened Decimal
  import opened Sorting
  import opened Mihon

  // ---- numbers and times ---------------------------------------------------------------

  /** int64(x): the low 64 bits. */
  function Wrap(x: int): I64 {
    ToI64(x % TWO64)
  }

  /** Time.UnixMilli */
  function UnixMilli(t: Time): I64 {
    Wrap(t.nanos / 1_000_000)
  }

  /** Time.IsZero */
  predicate IsZero(t: Time) {
    t == NO_TIME
  }

  const NEGATIVE_ZERO: U32 := 0x8000_0000

  // ---- fields ------------------------------------------------------------------------------

  function VarintField(num: nat, v: I64): Field { Field(num, WIRE_VARINT, ToU64(v), []) }

  /** Defaults are omitted. */
  function OptVarint(num: nat, v: I64): seq<Field> {
    if v == 0 then [] else [VarintField(num, v)]
  }

  function StrField(num: nat, s: Text): Field { Field(num, WIRE_BYTES, 0, s) }

  function OptStr(num: nat, s: Text): seq<Field> {
    if s == [] then [] else [StrField(num, s)]
  }

  function OptBool(num: nat, v: bool): seq<Field> {
    if v then [VarintField(num, 1)] else []
  }

  /** Both zeros compare equal to 0. */
  function OptFloat(num: nat, bits: U32): seq<Field> {
    if bits == 0 || bits == NEGATIVE_ZERO then [] else [Field(num, WIRE_32, bits, [])]
  }

  function MsgField(num: nat, fs: seq<Field>): Field { StrField(num, EncFields(fs)) }

  function OptStrs(num: nat, ss: seq<Text>): seq<Field> {
    if ss == [] then [] else OptStrs(num, ss[..|ss| - 1]) + OptStr(num, ss[|ss| - 1])
  }

  // ---- messages ------------------------------------------------------------------------------

  function ChapterFields(c: Chapter): seq<Field> {
    [StrField(1, c.url), StrField(2, c.name)] + OptStr(3, c.scanlator) + OptBool(4, c.read)
      + OptVarint(6, c.lastPageRead) + OptFloat(9, ToSingle(c.number))
  }

  function ChaptersFields(cs: seq<Chapter>): seq<Field> {
    if cs == [] then [] else ChaptersFields(cs[..|cs| - 1]) + [MsgField(16, ChapterFields(cs[|cs| - 1]))]
  }

  /** The order each category name is written under: of its last place in the list. */
  function Orders(categories: seq<Text>): map<Text, I64> {
    if categories == [] then map[] else
      var n := |categories|;
      Orders(categories[..n - 1])[categories[n - 1] := Wrap(n)]
  }

  function CategoryRefs(names: seq<Text>, orders: map<Text, I64>): seq<Field> {
    if names == [] then [] else
      var last := names[|names| - 1];
      CategoryRefs(names[..|names| - 1], orders) + (if last in orders then OptVarint(17, orders[last]) else [])
  }

  function SyncId(t: Tracker): I64 {
    match t
    case MAL => 1
    case AniList => 2
    case Kitsu => 3
    case MangaUpdates => 7
    case OtherTracker(_) => 0
  }

  function Ascii(s: string): (r: Text)
    ensures |r| == |s|
  {
    seq(|s|, i requires 0 <= i < |s| => s[i] as int % 0x100)
  }

  function SeriesUrl(id: Text): (r: Text)
    ensures r != []
  {
    Ascii("https://www.mangaupdates.com/series") + [SLASH] + id
  }

  /** The message of one tracker, if it has an id Mihon can hold. */
  function TrackerField(t: Tracker, id: Text): seq<Field> {
    var sync, n := SyncId(t), ParseInt(id);
    if sync != 0 && n != 0 then [MsgField(18, [VarintField(1, sync), VarintField(2, 0)] + OptVarint(100, n))]
    else if t.MangaUpdates? && id != [] then
      [MsgField(18, [VarintField(1, sync), VarintField(2, 0)] + OptStr(4, SeriesUrl(id)))]
    else []
  }

  /** The trackers in the order the map was walked. */
  function TrackerFields(trackers: map<Tracker, Text>, order: seq<Tracker>): seq<Field> {
    if order == [] then [] else
      var last := order[|order| - 1];
      TrackerFields(trackers, order[..|order| - 1]) + TrackerField(last, IdOf(trackers, last))
  }

  function IdOf(trackers: map<Tracker, Text>, t: Tracker): Text {
    if t in trackers then trackers[t] else []
  }

  function HistoryField(c: Chapter): seq<Field> {
    match c.readAt
    case None => []
    case Some(t) => [MsgField(104, [StrField(1, c.url), VarintField(2, UnixMilli(t))])]
  }

  function HistoryFields(cs: seq<Chapter>): seq<Field> {
    if cs == [] then [] else HistoryFields(cs[..|cs| - 1]) + HistoryField(cs[|cs| - 1])
  }

  function StatusCode(s: Status): I64 {
    match s
    case Ongoing => 1
    case Completed => 2
    case Cancelled => 5
    case Hiatus => 6
    case Unknown => 0
    case OtherStatus(_) => 0
  }

  function HeadFields(e: Manga): seq<Field> {
    [VarintField(1, ParseInt(e.sourceId)), StrField(2, e.url)] + OptStr(3, e.title) + OptStr(4, e.artist)
      + OptStr(5, e.author) + OptStr(6, e.description)
  }

  function AddedFields(e: Manga): seq<Field> {
    if IsZero(e.addedAt) then [] else OptVarint(13, UnixMilli(e.addedAt))
  }

  function StatusFields(e: Manga): seq<Field> {
    OptVarint(8, StatusCode(e.status)) + OptStr(9, e.thumbnailUrl) + AddedFields(e)
  }

  function FavoriteFields(e: Manga): seq<Field> {
    if e.favorite then [] else [VarintField(100, 0)]
  }

  function MangaFields(e: Manga, orders: map<Text, I64>, trackers: seq<Tracker>): seq<Field> {
    HeadFields(e) + OptStrs(7, e.genres) + StatusFields(e) + ChaptersFields(e.chapters) + CategoryRefs(e.categories, orders)
      + TrackerFields(e.trackers, trackers) + FavoriteFields(e) + HistoryFields(e.chapters)
      + OptStrs(108, e.excludedScanlators)
  }

  /** The orders in which the writer happens to walk the maps: sources, and each entry's trackers. */
  datatype Walk = Walk(sources: seq<Text>, trackers: seq<seq<Tracker>>)

  ghost predicate Walks<K(!new)>(order: seq<K>, keys: set<K>) {
    && (forall x :: x in order <==> x in keys)
    && (forall i, j :: 0 <= i < j < |order| ==> order[i] != order[j])
  }

  ghost predicate ValidWalk(w: Walk, b: Backup) {
    && Walks(w.sources, b.sources.Keys)
    && |w.trackers| == |b.entries|
    && forall i :: 0 <= i < |b.entries| ==> Walks(w.trackers[i], b.entries[i].trackers.Keys)
  }

  function EntriesFields(es: seq<Manga>, orders: map<Text, I64>, trackers: seq<seq<Tracker>>): seq<Field>
    requires |trackers| == |es|
  {
    if es == [] then [] else
      var n := |es| - 1;
      EntriesFields(es[..n], orders, trackers[..n]) + [MsgField(1, MangaFields(es[n], orders, trackers[n]))]
  }

  function CategoriesFields(cs: seq<Text>): seq<Field> {
    if cs == [] then [] else
      var n := |cs|;
      CategoriesFields(cs[..n - 1]) + [CategoryField(cs[n - 1], n)]
  }

  function CategoryField(name: Text, n: nat): Field {
    MsgField(2, [StrField(1, name)] + OptVarint(2, Wrap(n)))
  }

  function SourcesFields(sources: map<Text, Text>, order: seq<Text>): seq<Field> {
    if order == [] then [] else
      var id := order[|order| - 1];
      SourcesFields(sources, order[..|order| - 1])
        + [MsgField(101, OptStr(1, NameOf(sources, id)) + [VarintField(2, ParseInt(id))])]
  }

  // ---- source preferences ---------------------------------------------------------------------

  datatype Preferences = Preferences(sourceId: Text, strings: map<Text, Text>)

  /** Byte order, as sort.Strings compares. */
  predicate TextLess(a: Text, b: Text) {
    if b == [] then false
    else if a == [] then true
    else a[0] < b[0] || (a[0] == b[0] && TextLess(a[1..], b[1..]))
  }

  function PreferenceField(key: Text, value: Text): Field {
    MsgField(2, [StrField(1, key), MsgField(2,
      [StrField(1, Ascii("eu.kanade.tachiyomi.data.backup.models.StringPreferenceValue")),
       MsgField(2, [StrField(1, value)])])])
  }

  function PreferenceFields(strings: map<Text, Text>, keys: seq<Text>): seq<Field> {
    if keys == [] then [] else
      var n := |keys| - 1;
      PreferenceFields(strings, keys[..n]) + [PreferenceField(keys[n], NameOf(strings, keys[n]))]
  }

  /** One message for each source's preferences: field 105, which this package does not read. */
  ghost predicate IsPreferences(fs: seq<Field>, prefs: seq<Preferences>) {
    && |fs| == |prefs|
    && forall i :: 0 <= i < |prefs| ==> IsPreference(fs[i], prefs[i])
  }

  ghost predicate IsPreference(f: Field, p: Preferences) {
    exists keys: seq<Text> ::
      && Walks(keys, p.strings.Keys) && NoInversion(keys, TextLess)
      && f == MsgField(105, [StrField(1, Ascii("source_") + p.sourceId)] + PreferenceFields(p.strings, keys))
  }

  /** All the fields of a backup but the preferences. */
  function BackupFields(b: Backup, w: Walk): seq<Field>
    requires |w.trackers| == |b.entries|
  {
    EntriesFields(b.entries, Orders(b.categories), w.trackers) + CategoriesFields(b.categories)
      + SourcesFields(b.sources, w.sources)
  }
}
