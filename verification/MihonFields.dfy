/** What the Mihon reader makes of any message, told by the message's fields. */
module MihonFields {
  import opened Common
  import opened Varint
  import opened Wire
  import opened Decimal
  import opened Float
  import opened Sorting
  import opened Mihon

  // ---- the fields of a message -------------------------------------------------------------

  /** All the fields of a message, in order. */
  function Decoded(b: Bytes): Result<seq<Field>>
    decreases |b|
  {
    if b == [] then Ok([]) else
      match ReadField(b)
      case Err(e) => Err(e)
      case Ok(got) =>
        match Decoded(b[got.size..])
        case Err(e) => Err(e)
        case Ok(rest) => Ok([got.field] + rest)
  }

  /** A reader that gets to the end has taken its step for each field. */
  lemma {:induction false} RunIsFold<S>(b: Bytes, s: S, step: (S, Field) -> Result<S>)
    requires Run(b, s, step).Ok?
    ensures Decoded(b).Ok? && Fold(Decoded(b).value, s, step) == Run(b, s, step)
    decreases |b|
  {
    if b != [] {
      var got := ReadField(b).value;
      RunIsFold(b[got.size..], step(s, got.field).value, step);
      FoldCons(got.field, Decoded(b[got.size..]).value, s, step);
    }
  }

  lemma FoldCons<S>(f: Field, fs: seq<Field>, s: S, step: (S, Field) -> Result<S>)
    ensures Fold([f] + fs, s, step) == if step(s, f).Ok? then Fold(fs, step(s, f).value, step) else step(s, f)
  {
    assert ([f] + fs)[1..] == fs;
  }

  lemma FoldFront<S>(fs: seq<Field>, f: Field, s: S, step: (S, Field) -> Result<S>)
    requires Fold(fs + [f], s, step).Ok?
    ensures Fold(fs, s, step).Ok?
  {
    FoldConcat(fs, [f], s, step);
  }

  lemma Snoc<S>(fs: seq<Field>, f: Field, s: S, step: (S, Field) -> Result<S>)
    requires Fold(fs, s, step).Ok?
    ensures Fold(fs + [f], s, step) == step(Fold(fs, s, step).value, f)
  {
    var t := Fold(fs, s, step).value;
    FoldConcat(fs, [f], s, step);
    FoldCons(f, [], t, step);
    assert [f] + [] == [f];
  }

  /** The last field of a number. */
  function LastOf(fs: seq<Field>, num: nat): Option<Field> {
    if fs == [] then None
    else if fs[|fs| - 1].num == num then Some(fs[|fs| - 1])
    else LastOf(fs[..|fs| - 1], num)
  }

  /** The fields of a number, in order. */
  function AllOf(fs: seq<Field>, num: nat): seq<Field> {
    if fs == [] then [] else
      var rest := AllOf(fs[..|fs| - 1], num);
      if fs[|fs| - 1].num == num then rest + [fs[|fs| - 1]] else rest
  }

  lemma {:induction false} LastOfIs(fs: seq<Field>, num: nat, k: nat)
    requires k < |fs| && fs[k].num == num && forall j :: k < j < |fs| ==> fs[j].num != num
    ensures LastOf(fs, num) == Some(fs[k])
    decreases |fs|
  {
    if k < |fs| - 1 {
      LastOfIs(fs[..|fs| - 1], num, k);
    }
  }

  lemma LastSnoc(fs: seq<Field>, f: Field, num: nat)
    ensures LastOf(fs + [f], num) == if f.num == num then Some(f) else LastOf(fs, num)
  {
    assert (fs + [f])[..|fs|] == fs;
  }

  lemma AllSnoc(fs: seq<Field>, f: Field, num: nat)
    ensures AllOf(fs + [f], num) == AllOf(fs, num) + if f.num == num then [f] else []
  {
    assert (fs + [f])[..|fs|] == fs;
  }

  function TextIn(fs: seq<Field>, num: nat): Text {
    match LastOf(fs, num) case None => [] case Some(f) => f.bytes
  }

  function IntIn(fs: seq<Field>, num: nat): I64 {
    match LastOf(fs, num) case None => 0 case Some(f) => ToI64(f.u)
  }

  function TextsIn(fs: seq<Field>, num: nat): seq<Text> {
    TextsOf(AllOf(fs, num))
  }

  function TextsOf(fs: seq<Field>): (r: seq<Text>)
    ensures |r| == |fs| && forall i :: 0 <= i < |r| ==> r[i] == fs[i].bytes
  {
    seq(|fs|, i requires 0 <= i < |fs| => fs[i].bytes)
  }

  lemma OneText(fs: seq<Field>, f: Field, num: nat)
    ensures TextIn(fs + [f], num) == if f.num == num then f.bytes else TextIn(fs, num)
  {
    LastSnoc(fs, f, num);
  }

  lemma OneInt(fs: seq<Field>, f: Field, num: nat)
    ensures IntIn(fs + [f], num) == if f.num == num then ToI64(f.u) else IntIn(fs, num)
  {
    LastSnoc(fs, f, num);
  }

  // ---- small messages --------------------------------------------------------------------

  lemma {:induction false} TaggedFold(fs: seq<Field>)
    ensures Fold(fs, Tagged([], 0), TaggedStep) == Ok(Tagged(TextIn(fs, 1), IntIn(fs, 2)))
  {
    if fs != [] {
      var front, f := fs[..|fs| - 1], fs[|fs| - 1];
      assert fs == front + [f];
      TaggedFold(front);
      FoldConcat(front, [f], Tagged([], 0), TaggedStep);
      FoldCons(f, [], Tagged(TextIn(front, 1), IntIn(front, 2)), TaggedStep);
      assert [f] + [] == [f];
    }
  }

  /** A category, a source or a history entry: its last text and its last number. */
  lemma TaggedIs(b: Bytes, t: Tagged)
    requires ParseTagged(b) == Ok(t)
    ensures Decoded(b).Ok? && t == Tagged(TextIn(Decoded(b).value, 1), IntIn(Decoded(b).value, 2))
  {
    RunIsFold(b, Tagged([], 0), TaggedStep);
    TaggedFold(Decoded(b).value);
  }

  /** A chapter of such fields, before its history. */
  function ChapterIn(fs: seq<Field>): Chapter {
    var number := match LastOf(fs, 9) case None => 0 case Some(f) => NumberOf(f);
    var read := match LastOf(fs, 4) case None => false case Some(f) => f.u != 0;
    Chapter(TextIn(fs, 1), TextIn(fs, 2), TextIn(fs, 3), [], number, read, IntIn(fs, 6), None)
  }

  predicate ChapterSoFar(fs: seq<Field>, s: ChapterState) {
    s.hasNumber == LastOf(fs, 9).Some? && ChapterIn(fs) == if s.hasNumber then s.c else s.c.(number := 0)
  }

  lemma ChapterNext(fs: seq<Field>, f: Field, s: ChapterState)
    requires ChapterSoFar(fs, s)
    ensures ChapterStep(s, f).Ok? && ChapterSoFar(fs + [f], ChapterStep(s, f).value)
  {
    OneText(fs, f, 1);
    OneText(fs, f, 2);
    OneText(fs, f, 3);
    LastSnoc(fs, f, 4);
    OneInt(fs, f, 6);
    LastSnoc(fs, f, 9);
  }

  lemma {:induction false} ChapterFold(fs: seq<Field>)
    ensures Fold(fs, NO_CHAPTER, ChapterStep).Ok? && ChapterSoFar(fs, Fold(fs, NO_CHAPTER, ChapterStep).value)
  {
    if fs != [] {
      var front, f := fs[..|fs| - 1], fs[|fs| - 1];
      assert fs == front + [f];
      ChapterFold(front);
      ChapterNext(front, f, Fold(front, NO_CHAPTER, ChapterStep).value);
      Snoc(front, f, NO_CHAPTER, ChapterStep);
    }
  }

  lemma ChapterIs(b: Bytes, c: Chapter)
    requires ParseChapter(b) == Ok(c)
    ensures Decoded(b).Ok? && c == ChapterIn(Decoded(b).value)
  {
    RunIsFold(b, NO_CHAPTER, ChapterStep);
    ChapterFold(Decoded(b).value);
  }

  lemma {:induction false} TrackFold(fs: seq<Field>)
    ensures Fold(fs, TrackState(0, 0, [], 0), TrackStep)
      == Ok(TrackState(IntIn(fs, 1), IntIn(fs, 3), TextIn(fs, 4), IntIn(fs, 100)))
  {
    if fs != [] {
      var front, f := fs[..|fs| - 1], fs[|fs| - 1];
      assert fs == front + [f];
      TrackFold(front);
      FoldConcat(front, [f], TrackState(0, 0, [], 0), TrackStep);
      FoldCons(f, [], TrackState(IntIn(front, 1), IntIn(front, 3), TextIn(front, 4), IntIn(front, 100)), TrackStep);
      assert [f] + [] == [f];
    }
  }

  // ---- a manga -------------------------------------------------------------------------------

  /** What the texts of a manga are. */
  ghost predicate TextFields(fs: seq<Field>, e: Manga) {
    && e.url == TextIn(fs, 2) && e.title == TextIn(fs, 3) && e.artist == TextIn(fs, 4) && e.author == TextIn(fs, 5)
    && e.description == TextIn(fs, 6) && e.thumbnailUrl == TextIn(fs, 9)
  }

  ghost predicate ListFields(fs: seq<Field>, e: Manga) {
    e.genres == TextsIn(fs, 7) && e.excludedScanlators == TextsIn(fs, 108)
  }

  function SourceIn(fs: seq<Field>): Text {
    match LastOf(fs, 1) case None => [] case Some(f) => FormatInt(ToI64(f.u))
  }

  /** The numbers: a source id in decimal, a status code, a time in milliseconds, and a flag that defaults to true. */
  ghost predicate NumberFields(fs: seq<Field>, e: Manga) {
    && e.sourceId == SourceIn(fs) && StatusIs(IntIn(fs, 8), e.status)
    && e.addedAt == (if IntIn(fs, 13) <= 0 then NO_TIME else At(IntIn(fs, 13) * 1_000_000))
    && (e.favorite <==> LastOf(fs, 100).None? || LastOf(fs, 100).value.u != 0)
  }

  ghost predicate OwnFields(fs: seq<Field>, e: Manga) {
    TextFields(fs, e) && ListFields(fs, e) && NumberFields(fs, e)
  }

  /** Mihon's status codes; both ongoing and publishing finished are ongoing. */
  predicate StatusIs(code: I64, status: Status) {
    && (status == Ongoing <==> code == 1 || code == 4) && (status == Completed <==> code == 2)
    && (status == Cancelled <==> code == 5) && (status == Hiatus <==> code == 6)
    && (status == Unknown <==> code != 1 && code != 2 && code != 4 && code != 5 && code != 6)
  }

  /** Chapters and history entries of the fields 16 and 104, in order. */
  ghost predicate MessagesIn(fs: seq<Field>, s: MangaState) {
    && |s.e.chapters| == |AllOf(fs, 16)| && |s.history| == |AllOf(fs, 104)|
    && (forall i :: 0 <= i < |s.e.chapters| ==> ParseChapter(AllOf(fs, 16)[i].bytes) == Ok(s.e.chapters[i]))
    && (forall i :: 0 <= i < |s.history| ==> ParseTagged(AllOf(fs, 104)[i].bytes) == Ok(s.history[i]))
  }

  /** The numbers of the fields 17, packed or not, in order. */
  ghost predicate RefsOf(fs: seq<Field>, refs: seq<I64>)
    decreases |fs|
  {
    if fs == [] then refs == [] else
      var last := Ints(fs[|fs| - 1]);
      && last.Ok? && |last.value| <= |refs| && refs[|refs| - |last.value|..] == last.value
      && RefsOf(fs[..|fs| - 1], refs[..|refs| - |last.value|])
  }

  lemma RefsSnoc(fs: seq<Field>, refs: seq<I64>, f: Field, more: seq<I64>)
    requires RefsOf(fs, refs) && Ints(f) == Ok(more)
    ensures RefsOf(fs + [f], refs + more)
  {
    assert (fs + [f])[..|fs|] == fs;
    assert (refs + more)[..|refs|] == refs && (refs + more)[|refs|..] == more;
  }

  lemma {:induction false} NamedBoth(a: seq<I64>, b: seq<I64>, cats: map<I64, Text>)
    ensures Named(a + b, cats) == Named(a, cats) + Named(b, cats)
  {
    if b == [] {
      assert a + b == a;
    } else {
      var n := |b| - 1;
      assert (a + b)[..|a + b| - 1] == a + b[..n];
      NamedBoth(a, b[..n], cats);
    }
  }

  /** A number for each name, in order: exactly those that are known. */
  ghost predicate KnownAt(refs: seq<I64>, cats: map<I64, Text>, names: seq<Text>, places: seq<nat>) {
    && |places| == |names|
    && (forall i :: 0 <= i < |places| ==> places[i] < |refs| && refs[places[i]] in cats && names[i] == cats[refs[places[i]]])
    && (forall i, j :: 0 <= i < j < |places| ==> places[i] < places[j])
    && (forall k: nat :: k < |refs| && refs[k] in cats ==> k in places)
  }

  lemma NamedLast(front: seq<I64>, last: I64, cats: map<I64, Text>)
    ensures Named(front + [last], cats) == Named(front, cats) + if last in cats then [cats[last]] else []
  {
    assert (front + [last])[..|front|] == front;
  }

  lemma KnownNext(front: seq<I64>, last: I64, cats: map<I64, Text>, names: seq<Text>, places: seq<nat>)
    requires KnownAt(front, cats, names, places)
    ensures last in cats ==> KnownAt(front + [last], cats, names + [cats[last]], places + [|front|])
    ensures last !in cats ==> KnownAt(front + [last], cats, names, places)
  {
    var refs := front + [last];
    forall k: nat | k < |refs| && refs[k] in cats && k < |front| ensures k in places {
      assert front[k] in cats;
    }
    if last in cats {
      var more := places + [|front|];
      assert more[|places|] == |front|;
      forall k: nat | k < |refs| && refs[k] in cats ensures k in more {
      }
    }
  }

  lemma {:induction false} NamedAt(refs: seq<I64>, cats: map<I64, Text>) returns (places: seq<nat>)
    ensures KnownAt(refs, cats, Named(refs, cats), places)
  {
    places := [];
    if refs != [] {
      var front, last := refs[..|refs| - 1], refs[|refs| - 1];
      assert refs == front + [last];
      places := NamedAt(front, cats);
      NamedLast(front, last, cats);
      KnownNext(front, last, cats, Named(front, cats), places);
      if last in cats {
        places := places + [|front|];
      }
    }
  }

  // ---- all of a manga ------------------------------------------------------------------------

  lemma TextStepped(e: Manga, f: Field)
    ensures var g := TextStep(e, f);
      && g.url == (if f.num == 2 then f.bytes else e.url) && g.title == (if f.num == 3 then f.bytes else e.title)
      && g.artist == (if f.num == 4 then f.bytes else e.artist) && g.author == (if f.num == 5 then f.bytes else e.author)
      && g.description == (if f.num == 6 then f.bytes else e.description)
      && g.thumbnailUrl == (if f.num == 9 then f.bytes else e.thumbnailUrl)
  {
  }

  lemma TextsNext(fs: seq<Field>, f: Field, e: Manga)
    requires TextFields(fs, e)
    ensures TextFields(fs + [f], TextStep(e, f))
  {
    OneText(fs, f, 2);
    OneText(fs, f, 3);
    OneText(fs, f, 4);
    OneText(fs, f, 5);
    OneText(fs, f, 6);
    OneText(fs, f, 9);
    TextStepped(e, f);
    TextsTogether(fs + [f], TextStep(e, f));
  }

  lemma TextsTogether(fs: seq<Field>, g: Manga)
    requires g.url == TextIn(fs, 2) && g.title == TextIn(fs, 3) && g.artist == TextIn(fs, 4) && g.author == TextIn(fs, 5)
    requires g.description == TextIn(fs, 6) && g.thumbnailUrl == TextIn(fs, 9)
    ensures TextFields(fs, g)
  {
  }

  lemma ListsNext(fs: seq<Field>, f: Field, e: Manga)
    requires ListFields(fs, e)
    ensures ListFields(fs + [f], TextStep(e, f))
  {
    AllSnoc(fs, f, 7);
    AllSnoc(fs, f, 108);
    assert TextsIn(fs + [f], 7) == TextsIn(fs, 7) + if f.num == 7 then [f.bytes] else [];
    assert TextsIn(fs + [f], 108) == TextsIn(fs, 108) + if f.num == 108 then [f.bytes] else [];
  }

  lemma NumbersNext(fs: seq<Field>, f: Field, e: Manga)
    requires NumberFields(fs, e)
    ensures NumberFields(fs + [f], TextStep(e, f))
  {
    LastSnoc(fs, f, 1);
    OneInt(fs, f, 8);
    OneInt(fs, f, 13);
    LastSnoc(fs, f, 100);
  }

  /** Chapters, history and references. */
  ghost predicate PartsIn(fs: seq<Field>, cats: map<I64, Text>, s: MangaState) {
    && MessagesIn(fs, s)
    && exists refs :: RefsOf(AllOf(fs, 17), refs) && s.e.categories == Named(refs, cats)
  }

  lemma MessagesNext(fs: seq<Field>, f: Field, cats: map<I64, Text>, s: MangaState)
    requires MessagesIn(fs, s) && MangaStep(cats, s, f).Ok?
    ensures MessagesIn(fs + [f], MangaStep(cats, s, f).value)
  {
    AllSnoc(fs, f, 16);
    AllSnoc(fs, f, 104);
  }

  lemma RefsNext(fs: seq<Field>, f: Field, cats: map<I64, Text>, s: MangaState, refs: seq<I64>) returns (more: seq<I64>)
    requires RefsOf(AllOf(fs, 17), refs) && s.e.categories == Named(refs, cats) && MangaStep(cats, s, f).Ok?
    ensures RefsOf(AllOf(fs + [f], 17), more) && MangaStep(cats, s, f).value.e.categories == Named(more, cats)
  {
    AllSnoc(fs, f, 17);
    more := refs;
    if f.num == 17 {
      var orders := Ints(f).value;
      more := refs + orders;
      RefsSnoc(AllOf(fs, 17), refs, f, orders);
      NamedBoth(refs, orders, cats);
    } else {
      assert AllOf(fs, 17) + [] == AllOf(fs, 17);
    }
  }

  // ---- trackers --------------------------------------------------------------------------------

  /** Mihon's number of a tracker. */
  predicate Codes(code: I64, t: Tracker) {
    (code == 1 && t == MAL) || (code == 2 && t == AniList) || (code == 3 && t == Kitsu) || (code == 7 && t == MangaUpdates)
  }

  /** The positive number of field 100, or without one of field 3, in decimal, or the end of a MangaUpdates url; else nothing. */
  predicate IdIs(fs: seq<Field>, id: Text) {
    var media := if IntIn(fs, 100) == 0 then IntIn(fs, 3) else IntIn(fs, 100);
    if media > 0 then id == FormatInt(media)
    else if IntIn(fs, 1) == 7 && TextIn(fs, 4) != [] then id == LastSegment(TrimSlashes(TextIn(fs, 4)))
    else id == []
  }

  /** The message gives the tracker an id. */
  ghost predicate Gives(f: Field, t: Tracker, id: Text) {
    var d := Decoded(f.bytes);
    d.Ok? && Codes(IntIn(d.value, 1), t) && IdIs(d.value, id) && id != []
  }

  ghost predicate GivesSome(f: Field, t: Tracker) { exists id :: Gives(f, t, id) }

  /** The k-th message is the last to give the tracker an id. */
  ghost predicate GivesLast(fs: seq<Field>, t: Tracker, id: Text, k: nat) {
    k < |fs| && Gives(fs[k], t, id) && forall j :: k < j < |fs| ==> !GivesSome(fs[j], t)
  }

  ghost predicate TrackersIn(fs: seq<Field>, trackers: map<Tracker, Text>) {
    && (forall t :: t in trackers ==> exists k :: GivesLast(fs, t, trackers[t], k))
    && (forall t, k :: 0 <= k < |fs| && GivesSome(fs[k], t) ==> t in trackers)
  }

  lemma TrackIdGives(f: Field, s: TrackState, t: Tracker, id: Text)
    requires Run(f.bytes, TrackState(0, 0, [], 0), TrackStep) == Ok(s)
    ensures Gives(f, t, id) <==> TrackerOf(s.syncId) == Some(t) && TrackId(s) == id && id != []
  {
    RunIsFold(f.bytes, TrackState(0, 0, [], 0), TrackStep);
    TrackFold(Decoded(f.bytes).value);
  }

  lemma {:induction false} GivesLastNext(fs: seq<Field>, f: Field, t: Tracker, id: Text, k: nat)
    requires GivesLast(fs, t, id, k) && !GivesSome(f, t)
    ensures GivesLast(fs + [f], t, id, k)
  {
  }

  lemma TrackersSnoc(fs: seq<Field>, f: Field, s: TrackState, m: map<Tracker, Text>)
    requires Run(f.bytes, TrackState(0, 0, [], 0), TrackStep) == Ok(s) && TrackersIn(fs, m)
    ensures TrackersIn(fs + [f], AddTracker(m, s))
  {
    var all, after := fs + [f], AddTracker(m, s);
    forall t | t in after ensures exists k :: GivesLast(all, t, after[t], k) {
      TrackIdGives(f, s, t, after[t]);
      if TrackerOf(s.syncId) == Some(t) && TrackId(s) != [] {
        assert GivesLast(all, t, after[t], |fs|);
      } else {
        var k :| GivesLast(fs, t, m[t], k);
        forall id ensures !Gives(f, t, id) {
          TrackIdGives(f, s, t, id);
        }
        GivesLastNext(fs, f, t, m[t], k);
      }
    }
    forall t, k | 0 <= k < |all| && GivesSome(all[k], t) ensures t in after {
      if k < |fs| {
        assert GivesSome(fs[k], t);
      } else {
        var id :| Gives(f, t, id);
        TrackIdGives(f, s, t, id);
      }
    }
  }

  lemma TrackersKept(cats: map<I64, Text>, s: MangaState, f: Field)
    requires MangaStep(cats, s, f).Ok?
    ensures f.num != 18 ==> MangaStep(cats, s, f).value.e.trackers == s.e.trackers
    ensures MangaStep(cats, s, f).value.e.webUrl == s.e.webUrl
  {
  }

  lemma TrackersStepped(cats: map<I64, Text>, s: MangaState, f: Field) returns (read: TrackState)
    requires f.num == 18 && MangaStep(cats, s, f).Ok?
    ensures Run(f.bytes, TrackState(0, 0, [], 0), TrackStep) == Ok(read)
    ensures MangaStep(cats, s, f).value.e.trackers == AddTracker(s.e.trackers, read)
  {
    read := Run(f.bytes, TrackState(0, 0, [], 0), TrackStep).value;
  }

  lemma TrackersNext(fs: seq<Field>, f: Field, cats: map<I64, Text>, s: MangaState, after: map<Tracker, Text>)
    requires TrackersIn(AllOf(fs, 18), s.e.trackers)
    requires MangaStep(cats, s, f).Ok? && after == MangaStep(cats, s, f).value.e.trackers
    ensures TrackersIn(AllOf(fs + [f], 18), after)
  {
    AllSnoc(fs, f, 18);
    if f.num == 18 {
      var read := TrackersStepped(cats, s, f);
      TrackersSnoc(AllOf(fs, 18), f, read, s.e.trackers);
    } else {
      TrackersKept(cats, s, f);
      assert AllOf(fs, 18) + [] == AllOf(fs, 18);
    }
  }

  // ---- history -----------------------------------------------------------------------------------

  /** The latest of the history entries of a url, if it is later than the epoch. */
  ghost predicate LatestIs(history: seq<Tagged>, url: Text, readAt: Option<Time>) {
    if readAt.None? then forall k :: 0 <= k < |history| && history[k].text == url ==> history[k].n <= 0
    else exists k :: 0 <= k < |history| && IsLatest(history, url, k) && readAt.value == At(history[k].n * 1_000_000)
  }

  ghost predicate IsLatest(history: seq<Tagged>, url: Text, k: nat) {
    && k < |history| && history[k].text == url && history[k].n > 0
    && forall j :: 0 <= j < |history| && history[j].text == url ==> history[j].n <= history[k].n
  }

  /** What the join of the history holds of a url. */
  ghost predicate Joined(history: seq<Tagged>, url: Text, latest: int) {
    && latest >= 0 && (forall j :: 0 <= j < |history| && history[j].text == url ==> history[j].n <= latest)
    && (latest > 0 ==> exists k :: 0 <= k < |history| && history[k].text == url && history[k].n == latest)
  }

  function InJoin(m: map<Text, I64>, url: Text): int { if url in m then m[url] else 0 }

  lemma JoinedNext(front: seq<Tagged>, last: Tagged, url: Text, m: map<Text, I64>)
    requires Joined(front, url, InJoin(m, url))
    ensures Joined(front + [last], url, InJoin(m[last.text := Later(m, last)], url))
  {
    var all, now := front + [last], InJoin(m[last.text := Later(m, last)], url);
    if now > 0 {
      if last.text == url && InJoin(m, url) < last.n {
        assert all[|front|] == last;
      } else {
        var k :| 0 <= k < |front| && front[k].text == url && front[k].n == InJoin(m, url);
        assert all[k] == front[k];
      }
    }
  }

  lemma {:induction false} ByUrlJoins(history: seq<Tagged>, url: Text)
    ensures Joined(history, url, InJoin(ByUrl(history), url))
  {
    if history != [] {
      var front, last := history[..|history| - 1], history[|history| - 1];
      assert history == front + [last];
      ByUrlJoins(front, url);
      JoinedNext(front, last, url, ByUrl(front));
    }
  }

  lemma ReadAtIsLatest(c: Chapter, history: seq<Tagged>)
    requires c.readAt.None?
    ensures WithReadAt(c, ByUrl(history)).(readAt := None) == c
    ensures LatestIs(history, c.url, WithReadAt(c, ByUrl(history)).readAt)
  {
    ByUrlJoins(history, c.url);
    var latest := InJoin(ByUrl(history), c.url);
    if latest > 0 {
      var k :| 0 <= k < |history| && history[k].text == c.url && history[k].n == latest;
      assert IsLatest(history, c.url, k);
    }
  }

  // ---- the whole manga ---------------------------------------------------------------------------

  ghost predicate MangaSoFar(fs: seq<Field>, cats: map<I64, Text>, s: MangaState, refs: seq<I64>) {
    && OwnFields(fs, s.e) && MessagesIn(fs, s) && TrackersIn(AllOf(fs, 18), s.e.trackers)
    && RefsOf(AllOf(fs, 17), refs) && s.e.categories == Named(refs, cats) && s.e.webUrl == []
  }

  lemma OwnStays(fs: seq<Field>, f: Field, cats: map<I64, Text>, s: MangaState)
    requires OwnFields(fs, s.e) && MangaStep(cats, s, f).Ok?
    ensures OwnFields(fs + [f], MangaStep(cats, s, f).value.e)
  {
    TextsNext(fs, f, s.e);
    ListsNext(fs, f, s.e);
    NumbersNext(fs, f, s.e);
    OwnOfStep(fs + [f], f, cats, s);
  }

  lemma OwnOfStep(fs: seq<Field>, f: Field, cats: map<I64, Text>, s: MangaState)
    requires OwnFields(fs, TextStep(s.e, f)) && MangaStep(cats, s, f).Ok?
    ensures OwnFields(fs, MangaStep(cats, s, f).value.e)
  {
    if f.num == 16 || f.num == 17 || f.num == 18 || f.num == 104 {
      assert TextStep(s.e, f) == s.e;
    }
  }

  lemma {:induction false} MangaFold(fs: seq<Field>, cats: map<I64, Text>) returns (refs: seq<I64>)
    requires Fold(fs, MangaState(NO_MANGA, []), MangaReader(cats)).Ok?
    ensures MangaSoFar(fs, cats, Fold(fs, MangaState(NO_MANGA, []), MangaReader(cats)).value, refs)
  {
    var init := MangaState(NO_MANGA, []);
    refs := [];
    if fs != [] {
      var front, f := fs[..|fs| - 1], fs[|fs| - 1];
      assert fs == front + [f];
      FoldFront(front, f, init, MangaReader(cats));
      var before := MangaFold(front, cats);
      var s := Fold(front, init, MangaReader(cats)).value;
      Snoc(front, f, init, MangaReader(cats));
      refs := MangaNext(front, f, cats, s, before);
    }
  }

  lemma MangaNext(fs: seq<Field>, f: Field, cats: map<I64, Text>, s: MangaState, refs: seq<I64>) returns (more: seq<I64>)
    requires MangaSoFar(fs, cats, s, refs) && MangaStep(cats, s, f).Ok?
    ensures MangaSoFar(fs + [f], cats, MangaStep(cats, s, f).value, more)
  {
    OwnStays(fs, f, cats, s);
    MessagesNext(fs, f, cats, s);
    TrackersNext(fs, f, cats, s, MangaStep(cats, s, f).value.e.trackers);
    TrackersKept(cats, s, f);
    more := RefsNext(fs, f, cats, s, refs);
  }

  /** The chapters of fields 16, each with the latest read of its url in the fields 104. */
  ghost predicate ChaptersRead(fs: seq<Field>, cs: seq<Chapter>, history: seq<Tagged>) {
    && |cs| == |AllOf(fs, 16)| && |history| == |AllOf(fs, 104)|
    && (forall i :: 0 <= i < |history| ==> TaggedAs(AllOf(fs, 104)[i].bytes, history[i]))
    && (forall i :: 0 <= i < |cs| ==> ChapterAs(AllOf(fs, 16)[i].bytes, cs[i].(readAt := None)) && LatestIs(history, cs[i].url, cs[i].readAt))
  }

  ghost predicate TaggedAs(b: Bytes, t: Tagged) {
    var d := Decoded(b);
    d.Ok? && t == Tagged(TextIn(d.value, 1), IntIn(d.value, 2))
  }

  ghost predicate ChapterAs(b: Bytes, c: Chapter) {
    var d := Decoded(b);
    d.Ok? && c == ChapterIn(d.value)
  }

  lemma MessagesRead(fs: seq<Field>, s: MangaState)
    requires MessagesIn(fs, s)
    ensures ChaptersRead(fs, WithHistory(s.e.chapters, ByUrl(s.history)), s.history)
  {
    forall i | 0 <= i < |s.history| ensures TaggedAs(AllOf(fs, 104)[i].bytes, s.history[i]) {
      TaggedIs(AllOf(fs, 104)[i].bytes, s.history[i]);
    }
    var cs := WithHistory(s.e.chapters, ByUrl(s.history));
    forall i | 0 <= i < |cs|
      ensures ChapterAs(AllOf(fs, 16)[i].bytes, cs[i].(readAt := None)) && LatestIs(s.history, cs[i].url, cs[i].readAt)
    {
      ChapterIs(AllOf(fs, 16)[i].bytes, s.e.chapters[i]);
      ReadAtIsLatest(s.e.chapters[i], s.history);
    }
  }

  /** A manga is read as its fields say; one without a url is not read. */
  lemma MangaIs(raw: Bytes, cats: map<I64, Text>, e: Manga) returns (refs: seq<I64>, places: seq<nat>, history: seq<Tagged>)
    requires MangaFrom(raw, cats) == Ok(e)
    ensures Decoded(raw).Ok? && OwnFields(Decoded(raw).value, e) && e.url != [] && e.webUrl == []
    ensures TrackersIn(AllOf(Decoded(raw).value, 18), e.trackers)
    ensures RefsOf(AllOf(Decoded(raw).value, 17), refs) && KnownAt(refs, cats, e.categories, places)
    ensures ChaptersRead(Decoded(raw).value, e.chapters, history)
  {
    var init := MangaState(NO_MANGA, []);
    RunIsFold(raw, init, MangaReader(cats));
    var fs := Decoded(raw).value;
    var s := Fold(fs, init, MangaReader(cats)).value;
    refs := MangaFold(fs, cats);
    places := NamedAt(refs, cats);
    history := s.history;
    MessagesRead(fs, s);
  }
}
