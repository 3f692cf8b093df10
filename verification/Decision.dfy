/** Choosing one release of a chapter: specifications reject, the survivors are ranked. */
module Decision {
  import opened Common
  import opened Sorting

  type Id = nat

  /** A compiled scanlator pattern, by the names it matches. */
  type Pattern = string -> bool

  datatype Release = Release(id: Id, url: string, scanlator: string, uploaded: Option<int>, removed: bool)
  datatype Source = Source(id: Id, priority: int, enabled: bool, backoffUntil: Option<int>)
  datatype Candidate = Candidate(release: Release, source: Source)

  /** What the blocklist knows a release by. */
  type Key = (Id, string)

  function KeyOf(c: Candidate): Key { (c.source.id, c.release.url) }

  /** The imported file, and the release it came from if that is recorded. */
  datatype File = File(release: Option<Id>)

  datatype Input = Input(
    seriesMonitored: bool, chapterMonitored: bool, cleaned: bool, queued: bool, search: bool, allowUpgrades: bool,
    file: Option<File>, current: Option<Candidate>, blocklist: set<Key>, now: int,
    preferred: seq<Pattern>, blocked: seq<Pattern>, blockedForSeries: Pattern)

  datatype Reason =
    | SeriesUnmonitored | ChapterUnmonitored | Cleaned | AlreadyQueued | UpgradesDisabled | NoRelease
    | Removed | SourceDisabled | SourceFailing | Blocklisted | ScanlatorBlocked | ScanlatorBlockedForSeries
    | NotBetter | SameRelease

  datatype Rejection = Rejection(release: Option<Id>, reason: Reason, temporary: bool)

  datatype Verdict = Verdict(approved: Option<Candidate>, isUpgrade: bool, rejections: seq<Rejection>)

  // ---- ranking ---------------------------------------------------------------------------

  /** scanlatorIndex: the first preference that matches, or one past the last. */
  function ScanlatorIndex(prefs: seq<Pattern>, scanlator: string): (i: nat)
    ensures i <= |prefs|
    ensures i < |prefs| ==> scanlator != "" && prefs[i](scanlator)
    ensures scanlator != "" ==> forall k :: 0 <= k < i ==> !prefs[k](scanlator)
  {
    if prefs == [] then 0
    else if scanlator != "" && prefs[0](scanlator) then 0
    else 1 + ScanlatorIndex(prefs[1..], scanlator)
  }

  predicate MatchAny(patterns: seq<Pattern>, s: string) {
    s != "" && exists i :: 0 <= i < |patterns| && patterns[i](s)
  }

  /** Better: strictly lower source priority, or the same and an earlier preference. */
  predicate Better(a: Candidate, b: Candidate, prefs: seq<Pattern>) {
    if a.source.priority != b.source.priority then a.source.priority < b.source.priority
    else ScanlatorIndex(prefs, a.release.scanlator) < ScanlatorIndex(prefs, b.release.scanlator)
  }

  predicate Less(a: Candidate, b: Candidate, prefs: seq<Pattern>) {
    if Better(a, b, prefs) then true
    else if Better(b, a, prefs) then false
    else
      match (a.release.uploaded, b.release.uploaded)
      case (Some(x), Some(y)) => if x != y then x < y else a.release.id < b.release.id
      case (Some(_), None) => true
      case (None, Some(_)) => false
      case (None, None) => a.release.id < b.release.id
  }

  function Order(prefs: seq<Pattern>): (Candidate, Candidate) -> bool {
    (a, b) => Less(a, b, prefs)
  }

  // ---- specifications --------------------------------------------------------------------

  /** Why the chapter as a whole is turned down. */
  function ChapterRejection(input: Input, cands: seq<Candidate>): Option<Rejection> {
    if !input.search && !input.seriesMonitored then Some(Rejection(None, SeriesUnmonitored, false))
    else if !input.search && !input.chapterMonitored then Some(Rejection(None, ChapterUnmonitored, false))
    else if input.cleaned && !input.search then Some(Rejection(None, Cleaned, false))
    else if input.queued then Some(Rejection(None, AlreadyQueued, true))
    else if input.file.Some? && !input.allowUpgrades then Some(Rejection(None, UpgradesDisabled, false))
    else if cands == [] then Some(Rejection(None, NoRelease, true))
    else None
  }

  /** Why one release is. */
  function ReleaseRejection(input: Input, c: Candidate): Option<Rejection> {
    var id := Some(c.release.id);
    if c.release.removed then Some(Rejection(id, Removed, false))
    else if !c.source.enabled then Some(Rejection(id, SourceDisabled, false))
    else if c.source.backoffUntil.Some? && input.now < c.source.backoffUntil.value then Some(Rejection(id, SourceFailing, true))
    else if KeyOf(c) in input.blocklist then Some(Rejection(id, Blocklisted, false))
    else if MatchAny(input.blocked, c.release.scanlator) then Some(Rejection(id, ScanlatorBlocked, false))
    else if c.release.scanlator != "" && input.blockedForSeries(c.release.scanlator) then
      Some(Rejection(id, ScanlatorBlockedForSeries, false))
    else None
  }

  function Survivors(input: Input, cands: seq<Candidate>): seq<Candidate> {
    if cands == [] then [] else
      var n := |cands| - 1;
      Survivors(input, cands[..n]) + if ReleaseRejection(input, cands[n]).None? then [cands[n]] else []
  }

  function ReleaseRejections(input: Input, cands: seq<Candidate>): seq<Rejection> {
    if cands == [] then [] else
      var n := |cands| - 1;
      var r := ReleaseRejection(input, cands[n]);
      ReleaseRejections(input, cands[..n]) + if r.Some? then [r.value] else []
  }

  /** Why the best release is still not wanted over the file there is. */
  function UpgradeRejection(input: Input, best: Candidate): Option<Rejection> {
    if input.file.None? then None
    else if input.current.Some? && !Better(best, input.current.value, input.preferred) then
      Some(Rejection(Some(best.release.id), NotBetter, false))
    else if input.current.None? && input.file.value.release == Some(best.release.id) then
      Some(Rejection(Some(best.release.id), SameRelease, false))
    else None
  }

  function Verdicts(input: Input, cands: seq<Candidate>): Verdict {
    var chapter := ChapterRejection(input, cands);
    if chapter.Some? then Verdict(None, false, [chapter.value]) else
      var rejections := ReleaseRejections(input, cands);
      var sorted := StableSort(Survivors(input, cands), Order(input.preferred));
      if sorted == [] then Verdict(None, false, rejections) else
        var upgrade := UpgradeRejection(input, sorted[0]);
        if upgrade.Some? then Verdict(None, false, rejections + [upgrade.value])
        else Verdict(Some(sorted[0]), input.file.Some?, rejections)
  }

  method Decide(input: Input, cands: seq<Candidate>) returns (d: Verdict)
    ensures d == Verdicts(input, cands)
  {
    d := Verdict(None, false, []);
    var chapter := ChapterRejection(input, cands);
    if chapter.Some? {
      return d.(rejections := [chapter.value]);
    }
    var ok: seq<Candidate> := [];
    for i := 0 to |cands|
      invariant ok == Survivors(input, cands[..i])
      invariant d == Verdict(None, false, ReleaseRejections(input, cands[..i]))
    {
      assert cands[..i + 1][..i] == cands[..i];
      var r := ReleaseRejection(input, cands[i]);
      if r.Some? {
        d := d.(rejections := d.rejections + [r.value]);
      } else {
        ok := ok + [cands[i]];
      }
    }
    assert cands[..|cands|] == cands;
    StableSortMembers(ok, Order(input.preferred));
    if ok == [] {
      return;
    }
    ok := StableSort(ok, Order(input.preferred));
    var best := ok[0];
    var upgrade := UpgradeRejection(input, best);
    if upgrade.Some? {
      return d.(rejections := d.rejections + [upgrade.value]);
    }
    d := d.(approved := Some(best), isUpgrade := input.file.Some?);
  }

  // ---- a strict total order ----------------------------------------------------------------

  lemma LessTotal(prefs: seq<Pattern>, a: Candidate, b: Candidate)
    ensures !(Less(a, b, prefs) && Less(b, a, prefs))
    ensures a.release.id != b.release.id ==> Less(a, b, prefs) || Less(b, a, prefs)
    ensures a.release.id == b.release.id && a == b ==> !Less(a, b, prefs)
  {
  }

  lemma BetterChains(prefs: seq<Pattern>, a: Candidate, b: Candidate, c: Candidate)
    ensures Better(a, b, prefs) && Better(b, c, prefs) ==> Better(a, c, prefs)
    ensures Better(a, c, prefs) ==> Better(a, b, prefs) || Better(b, c, prefs)
  {
  }

  lemma LessChains(prefs: seq<Pattern>, a: Candidate, b: Candidate, c: Candidate)
    ensures Less(a, b, prefs) && Less(b, c, prefs) ==> Less(a, c, prefs)
    ensures Less(a, c, prefs) ==> Less(a, b, prefs) || Less(b, c, prefs)
  {
    BetterChains(prefs, a, b, c);
    BetterChains(prefs, b, c, a);
    BetterChains(prefs, c, a, b);
    BetterChains(prefs, c, b, a);
    BetterChains(prefs, a, c, b);
    BetterChains(prefs, b, a, c);
  }

  lemma OrderIsWeak(prefs: seq<Pattern>)
    ensures StrictWeak(Order(prefs))
  {
    forall a, b, c
      ensures !Order(prefs)(a, a)
        && (Order(prefs)(a, b) && Order(prefs)(b, c) ==> Order(prefs)(a, c))
        && (Order(prefs)(a, c) ==> Order(prefs)(a, b) || Order(prefs)(b, c))
    {
      LessTotal(prefs, a, a);
      LessChains(prefs, a, b, c);
    }
  }

  // ---- the approved release --------------------------------------------------------------------

  /** Release ids are primary keys. */
  ghost predicate DistinctIds(cands: seq<Candidate>) {
    forall i, j :: 0 <= i < |cands| && 0 <= j < |cands| && cands[i].release.id == cands[j].release.id ==> cands[i] == cands[j]
  }

  /** c is the least of the candidates nothing speaks against. */
  ghost predicate Best(input: Input, cands: seq<Candidate>, c: Candidate) {
    && c in cands && ReleaseRejection(input, c).None?
    && forall x :: x in cands && ReleaseRejection(input, x).None? && x != c ==> Less(c, x, input.preferred)
  }

  lemma {:induction false} SurvivorMembers(input: Input, cands: seq<Candidate>)
    ensures forall c :: c in Survivors(input, cands) <==> c in cands && ReleaseRejection(input, c).None?
  {
    if cands != [] {
      var n := |cands| - 1;
      SurvivorMembers(input, cands[..n]);
      assert cands == cands[..n] + [cands[n]];
    }
  }

  lemma SortedFirstIsBest(input: Input, cands: seq<Candidate>)
    requires DistinctIds(cands) && Survivors(input, cands) != []
    ensures var sorted := StableSort(Survivors(input, cands), Order(input.preferred));
      sorted != [] && Best(input, cands, sorted[0])
  {
    var ok := Survivors(input, cands);
    var lt := Order(input.preferred);
    var sorted := StableSort(ok, lt);
    SurvivorMembers(input, cands);
    StableSortMembers(ok, lt);
    OrderIsWeak(input.preferred);
    StableSortSorts(ok, lt, (a, b) => true);
    forall x | x in cands && ReleaseRejection(input, x).None? && x != sorted[0] ensures Less(sorted[0], x, input.preferred) {
      assert x in sorted;
      var k :| 0 <= k < |sorted| && sorted[k] == x;
      assert Then(lt, (a, b) => true)(sorted[0], sorted[k]);
      assert sorted[0] in cands;
      LessTotal(input.preferred, sorted[0], x);
    }
  }

  lemma BestIsUnique(input: Input, cands: seq<Candidate>, a: Candidate, b: Candidate)
    requires Best(input, cands, a) && Best(input, cands, b)
    ensures a == b
  {
    LessTotal(input.preferred, a, b);
  }

  /** Approved is the best survivor, and exactly when the chapter and the file there is do not speak against it. */
  lemma ApprovesTheBest(input: Input, cands: seq<Candidate>, c: Candidate)
    requires DistinctIds(cands)
    ensures Verdicts(input, cands).approved == Some(c) <==>
      ChapterRejection(input, cands).None? && Best(input, cands, c) && UpgradeRejection(input, c).None?
  {
    if Survivors(input, cands) == [] {
      SurvivorMembers(input, cands);
    } else {
      SortedFirstIsBest(input, cands);
      var best := StableSort(Survivors(input, cands), Order(input.preferred))[0];
      if Best(input, cands, c) {
        BestIsUnique(input, cands, best, c);
      }
    }
  }

  /** The order in which releases come does not matter. */
  lemma OrderDoesNotMatter(input: Input, cands: seq<Candidate>, others: seq<Candidate>)
    requires DistinctIds(cands) && multiset(cands) == multiset(others)
    ensures Verdicts(input, cands).approved == Verdicts(input, others).approved
    ensures Verdicts(input, cands).isUpgrade == Verdicts(input, others).isUpgrade
  {
    SameCandidates(cands, others);
    var a, b := Verdicts(input, cands).approved, Verdicts(input, others).approved;
    if a.Some? {
      SameApproval(input, cands, others, a.value);
    } else if b.Some? {
      SameApproval(input, others, cands, b.value);
    }
  }

  lemma SameApproval(input: Input, cands: seq<Candidate>, others: seq<Candidate>, c: Candidate)
    requires DistinctIds(cands) && DistinctIds(others)
    requires (forall x :: x in cands <==> x in others) && (cands == [] <==> others == [])
    requires Verdicts(input, cands).approved == Some(c)
    ensures Verdicts(input, others).approved == Some(c)
  {
    ApprovesTheBest(input, cands, c);
    ApprovesTheBest(input, others, c);
  }

  lemma SameCandidates(cands: seq<Candidate>, others: seq<Candidate>)
    requires DistinctIds(cands) && multiset(cands) == multiset(others)
    ensures (forall c :: c in cands <==> c in others) && DistinctIds(others) && (cands == [] <==> others == [])
  {
    assert forall c :: c in cands <==> c in multiset(cands);
    assert forall c :: c in others <==> c in multiset(others);
    assert |cands| == |multiset(cands)| && |others| == |multiset(others)|;
    forall i, j | 0 <= i < |others| && 0 <= j < |others| && others[i].release.id == others[j].release.id
      ensures others[i] == others[j]
    {
      assert others[i] in cands && others[j] in cands;
    }
  }

  /** An upgrade from a known release strictly lowers (source priority, scanlator preference). */
  lemma UpgradesClimb(input: Input, cands: seq<Candidate>, c: Candidate)
    requires DistinctIds(cands) && Verdicts(input, cands).approved == Some(c)
    requires input.file.Some? && input.current.Some?
    ensures var was := input.current.value;
      c.source.priority < was.source.priority
      || (c.source.priority == was.source.priority &&
          ScanlatorIndex(input.preferred, c.release.scanlator) < ScanlatorIndex(input.preferred, was.release.scanlator))
    ensures Verdicts(input, cands).isUpgrade
  {
    ApprovesTheBest(input, cands, c);
  }

  /** The input once c is imported: known still, or no longer among the releases. */
  ghost predicate Imported(before: Input, after: Input, c: Candidate) {
    && after.file == Some(File(Some(c.release.id))) && (after.current == Some(c) || after.current == None)
    && after.blocklist == before.blocklist && after.now == before.now
    && after.preferred == before.preferred && after.blocked == before.blocked
    && after.blockedForSeries == before.blockedForSeries
  }

  /** After importing what was approved, nothing is approved of the same releases. */
  lemma Converges(before: Input, after: Input, cands: seq<Candidate>, c: Candidate)
    requires DistinctIds(cands) && Verdicts(before, cands).approved == Some(c) && Imported(before, after, c)
    ensures Verdicts(after, cands).approved == None
  {
    ApprovesTheBest(before, cands, c);
    var d := Verdicts(after, cands).approved;
    if d.Some? {
      ApprovesTheBest(after, cands, d.value);
      NotAgain(before, after, cands, c, d.value);
    }
  }

  lemma NotAgain(before: Input, after: Input, cands: seq<Candidate>, c: Candidate, x: Candidate)
    requires Best(before, cands, c) && Imported(before, after, c)
    ensures !(Best(after, cands, x) && UpgradeRejection(after, x).None?)
  {
    if Best(after, cands, x) {
      forall y ensures ReleaseRejection(after, y) == ReleaseRejection(before, y) {
      }
      BestIsUnique(before, cands, c, x);
    }
  }

  // ---- the next release after a failure --------------------------------------------------------

  /** NextCandidate: an explicit search that ignores the queue. */
  function NextCandidate(input: Input, cands: seq<Candidate>): Verdict {
    Verdicts(input.(search := true, queued := false), cands)
  }

  /** What it picks is a candidate that is not blocklisted. */
  lemma NextIsNotBlocklisted(input: Input, cands: seq<Candidate>, c: Candidate)
    requires NextCandidate(input, cands).approved == Some(c)
    ensures c in cands && KeyOf(c) !in input.blocklist
  {
    var asked := input.(search := true, queued := false);
    SurvivorMembers(asked, cands);
    StableSortMembers(Survivors(asked, cands), Order(asked.preferred));
  }

  /** Without a file it finds a release whenever one survives. */
  lemma NextExists(input: Input, cands: seq<Candidate>, c: Candidate)
    requires input.file.None? && c in cands && ReleaseRejection(input, c).None?
    ensures NextCandidate(input, cands).approved.Some?
  {
    var asked := input.(search := true, queued := false);
    SurvivorMembers(asked, cands);
    assert ReleaseRejection(asked, c) == ReleaseRejection(input, c);
    StableSortMembers(Survivors(asked, cands), Order(asked.preferred));
  }
}
