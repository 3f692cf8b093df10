/** What is decided, told by the fields of the candidates and the settings. */
module DecisionFields {
  import opened Common
  import opened Sorting
  import opened Decision

  // ---- which releases survive ------------------------------------------------------------------

  /** Still there, from a working source, not blocklisted, and by nobody who is blocked. */
  ghost predicate Survives(input: Input, c: Candidate) {
    && !c.release.removed && c.source.enabled
    && (c.source.backoffUntil.None? || c.source.backoffUntil.value <= input.now)
    && (c.source.id, c.release.url) !in input.blocklist
    && !BlockedBy(input.blocked, c.release.scanlator)
    && !(c.release.scanlator != "" && input.blockedForSeries(c.release.scanlator))
  }

  ghost predicate BlockedBy(patterns: seq<Pattern>, scanlator: string) {
    scanlator != "" && exists i :: 0 <= i < |patterns| && patterns[i](scanlator)
  }

  /** What the first thing that speaks against a release is called, and whether it will pass. */
  ghost predicate TurnedDownFor(input: Input, c: Candidate, reason: Reason, temporary: bool) {
    && temporary == reason.SourceFailing?
    && var working := !c.release.removed && c.source.enabled;
       var resting := c.source.backoffUntil.Some? && input.now < c.source.backoffUntil.value;
       var listed := (c.source.id, c.release.url) in input.blocklist;
       if reason.Removed? then c.release.removed
       else if reason.SourceDisabled? then !c.release.removed && !c.source.enabled
       else if reason.SourceFailing? then working && resting
       else if reason.Blocklisted? then working && !resting && listed
       else if reason.ScanlatorBlocked? then working && !resting && !listed && BlockedBy(input.blocked, c.release.scanlator)
       else
         && reason.ScanlatorBlockedForSeries? && working && !resting && !listed && !BlockedBy(input.blocked, c.release.scanlator)
         && c.release.scanlator != "" && input.blockedForSeries(c.release.scanlator)
  }

  lemma SurvivesOrNot(input: Input, c: Candidate)
    ensures ReleaseRejection(input, c).None? <==> Survives(input, c)
    ensures ReleaseRejection(input, c).Some? ==>
      var r := ReleaseRejection(input, c).value; r.release == Some(c.release.id) && TurnedDownFor(input, c, r.reason, r.temporary)
  {
  }

  /** Each release that does not survive is rejected once, in the order they came, for its first reason. */
  ghost predicate RejectedInOrder(input: Input, cands: seq<Candidate>, rejections: seq<Rejection>, at: seq<nat>) {
    && |at| == |rejections|
    && (forall i, j :: 0 <= i < j < |at| ==> at[i] < at[j])
    && (forall k :: 0 <= k < |at| ==> at[k] < |cands| && RejectionIs(input, cands[at[k]], rejections[k]))
    && (forall i: nat :: i < |cands| && i !in at ==> Survives(input, cands[i]))
  }

  ghost predicate RejectionIs(input: Input, c: Candidate, r: Rejection) {
    r.release == Some(c.release.id) && TurnedDownFor(input, c, r.reason, r.temporary)
  }

  lemma RejectedNext(input: Input, front: seq<Candidate>, c: Candidate, rejections: seq<Rejection>, at: seq<nat>, r: Rejection)
    requires RejectedInOrder(input, front, rejections, at) && RejectionIs(input, c, r)
    ensures RejectedInOrder(input, front + [c], rejections + [r], at + [|front|])
  {
    var cands, places := front + [c], at + [|front|];
    forall i: nat | i < |cands| && i !in places ensures Survives(input, cands[i]) {
      assert places[|at|] == |front|;
      assert i !in at by {
        assert forall k :: 0 <= k < |at| ==> places[k] == at[k];
      }
    }
  }

  lemma {:induction false} RejectionsAre(input: Input, cands: seq<Candidate>) returns (at: seq<nat>)
    ensures RejectedInOrder(input, cands, ReleaseRejections(input, cands), at)
  {
    at := [];
    if cands != [] {
      var front, c := cands[..|cands| - 1], cands[|cands| - 1];
      assert cands == front + [c];
      at := RejectionsAre(input, front);
      SurvivesOrNot(input, c);
      if ReleaseRejection(input, c).Some? {
        RejectedNext(input, front, c, ReleaseRejections(input, front), at, ReleaseRejection(input, c).value);
        at := at + [|front|];
      }
    }
  }

  // ---- which comes first --------------------------------------------------------------------------

  /** The first pattern that matches is the k-th; no pattern matches nobody. */
  ghost predicate PreferredAt(prefs: seq<Pattern>, scanlator: string, k: nat) {
    && k <= |prefs|
    && (k < |prefs| ==> scanlator != "" && prefs[k](scanlator))
    && forall j :: 0 <= j < k ==> scanlator == "" || !prefs[j](scanlator)
  }

  ghost predicate PreferredOver(prefs: seq<Pattern>, a: string, b: string) {
    exists i: nat, j: nat :: PreferredAt(prefs, a, i) && PreferredAt(prefs, b, j) && i < j
  }

  /** A known date before an unknown one. */
  ghost predicate UploadedBefore(a: Option<int>, b: Option<int>) {
    a.Some? && (b.None? || a.value < b.value)
  }

  /** By the source's priority, then the scanlator, then the upload, then the id. */
  ghost predicate Precedes(prefs: seq<Pattern>, a: Candidate, b: Candidate) {
    || a.source.priority < b.source.priority
    || (a.source.priority == b.source.priority && (
         || PreferredOver(prefs, a.release.scanlator, b.release.scanlator)
         || (!PreferredOver(prefs, b.release.scanlator, a.release.scanlator) && (
              || UploadedBefore(a.release.uploaded, b.release.uploaded)
              || (a.release.uploaded == b.release.uploaded && a.release.id < b.release.id)))))
  }

  lemma {:induction false} IndexIsFirst(prefs: seq<Pattern>, scanlator: string)
    ensures PreferredAt(prefs, scanlator, ScanlatorIndex(prefs, scanlator))
  {
    if prefs != [] && !(scanlator != "" && prefs[0](scanlator)) {
      IndexIsFirst(prefs[1..], scanlator);
    }
  }

  lemma IndexDecides(prefs: seq<Pattern>, a: string, b: string)
    ensures PreferredOver(prefs, a, b) <==> ScanlatorIndex(prefs, a) < ScanlatorIndex(prefs, b)
  {
    IndexIsFirst(prefs, a);
    IndexIsFirst(prefs, b);
    forall i: nat, j: nat | PreferredAt(prefs, a, i) && PreferredAt(prefs, b, j) && i < j
      ensures ScanlatorIndex(prefs, a) < ScanlatorIndex(prefs, b)
    {
      OneIndex(prefs, a, i, ScanlatorIndex(prefs, a));
      OneIndex(prefs, b, j, ScanlatorIndex(prefs, b));
    }
  }

  lemma OneIndex(prefs: seq<Pattern>, s: string, i: nat, j: nat)
    requires PreferredAt(prefs, s, i) && PreferredAt(prefs, s, j)
    ensures i == j
  {
  }

  lemma LessPrecedes(prefs: seq<Pattern>, a: Candidate, b: Candidate)
    ensures Less(a, b, prefs) <==> Precedes(prefs, a, b)
  {
    IndexDecides(prefs, a.release.scanlator, b.release.scanlator);
    IndexDecides(prefs, b.release.scanlator, a.release.scanlator);
  }

  // ---- the whole decision ---------------------------------------------------------------------------

  /** The chapter is to be had at all: monitored with its series and not cleaned, or searched for; not queued; no file that stays. */
  ghost predicate ChapterWanted(input: Input) {
    && (input.search || (input.seriesMonitored && input.chapterMonitored && !input.cleaned))
    && !input.queued && (input.file.None? || input.allowUpgrades)
  }

  /** Better than what there is: than the release it came from, or if that is not known than none but the file's own. */
  ghost predicate WantedOverFile(input: Input, c: Candidate) {
    || input.file.None?
    || (input.current.None? && input.file.value.release != Some(c.release.id))
    || (input.current.Some? && var was := input.current.value;
         || c.source.priority < was.source.priority
         || (c.source.priority == was.source.priority && PreferredOver(input.preferred, c.release.scanlator, was.release.scanlator)))
  }

  /** The first of the survivors. */
  ghost predicate FirstChoice(input: Input, cands: seq<Candidate>, c: Candidate) {
    && c in cands && Survives(input, c)
    && forall x :: x in cands && Survives(input, x) && x != c ==> Precedes(input.preferred, c, x)
  }

  lemma BestIsFirstChoice(input: Input, cands: seq<Candidate>, c: Candidate)
    ensures Best(input, cands, c) <==> FirstChoice(input, cands, c)
  {
    forall x ensures (ReleaseRejection(input, x).None? <==> Survives(input, x)) && (Less(c, x, input.preferred) <==> Precedes(input.preferred, c, x)) {
      SurvivesOrNot(input, x);
      LessPrecedes(input.preferred, c, x);
    }
  }

  lemma OverFile(input: Input, c: Candidate)
    ensures UpgradeRejection(input, c).None? <==> WantedOverFile(input, c)
  {
    if input.current.Some? {
      IndexDecides(input.preferred, c.release.scanlator, input.current.value.release.scanlator);
    }
  }

  /** What is approved is the first choice of a wanted chapter, if it is wanted over the file there is. */
  lemma ApprovedExactly(input: Input, cands: seq<Candidate>, c: Candidate)
    requires DistinctIds(cands)
    ensures Verdicts(input, cands).approved == Some(c) <==>
      ChapterWanted(input) && FirstChoice(input, cands, c) && WantedOverFile(input, c)
    ensures Verdicts(input, cands).isUpgrade <==> input.file.Some? && Verdicts(input, cands).approved.Some?
  {
    ApprovesTheBest(input, cands, c);
    BestIsFirstChoice(input, cands, c);
    OverFile(input, c);
  }

  /** Why the chapter as a whole is turned down: the first of these. */
  ghost predicate ChapterTurnedDownFor(input: Input, cands: seq<Candidate>, reason: Reason) {
    if !input.search && !input.seriesMonitored then reason == SeriesUnmonitored
    else if !input.search && !input.chapterMonitored then reason == ChapterUnmonitored
    else if !input.search && input.cleaned then reason == Cleaned
    else if input.queued then reason == AlreadyQueued
    else if input.file.Some? && !input.allowUpgrades then reason == UpgradesDisabled
    else cands == [] && reason == NoRelease
  }

  /**
   What a decision tells of those it turned down: the chapter for one reason; or each release that does not survive, and
   after them the first choice when the file there is stays.
   */
  lemma RejectionsExactly(input: Input, cands: seq<Candidate>) returns (at: seq<nat>)
    requires DistinctIds(cands)
    ensures var v := Verdicts(input, cands);
      if !ChapterWanted(input) || cands == [] then
        && |v.rejections| == 1 && v.rejections[0].release == None && ChapterTurnedDownFor(input, cands, v.rejections[0].reason)
        && v.rejections[0].temporary == (v.rejections[0].reason in {AlreadyQueued, NoRelease})
      else
        && |at| <= |v.rejections| && RejectedInOrder(input, cands, v.rejections[..|at|], at)
        && (|at| == |v.rejections| <==> v.approved.Some? || |at| == |cands|)
        && (|at| < |v.rejections| ==> StaysFor(input, cands, v.rejections[|at|..]))
  {
    at := [];
    if ChapterRejection(input, cands).None? {
      at := RejectionsAre(input, cands);
      var rejections := ReleaseRejections(input, cands);
      EachOnce(input, cands);
      if |at| != |cands| {
        SortedFirstIsBest(input, cands);
        var best := StableSort(Survivors(input, cands), Order(input.preferred))[0];
        BestIsFirstChoice(input, cands, best);
        OverFile(input, best);
      }
      var v := Verdicts(input, cands);
      assert v.rejections[..|at|] == rejections;
    }
  }

  /** The one rejection left is of the first choice, because of the file. */
  ghost predicate StaysFor(input: Input, cands: seq<Candidate>, rejections: seq<Rejection>) {
    && |rejections| == 1 && !rejections[0].temporary
    && rejections[0].reason == (if input.current.Some? then NotBetter else SameRelease)
    && exists c :: c in cands && FirstChoice(input, cands, c) && !WantedOverFile(input, c) && rejections[0].release == Some(c.release.id)
  }

  lemma {:induction false} EachOnce(input: Input, cands: seq<Candidate>)
    ensures |Survivors(input, cands)| + |ReleaseRejections(input, cands)| == |cands|
  {
    if cands != [] {
      EachOnce(input, cands[..|cands| - 1]);
    }
  }
}
