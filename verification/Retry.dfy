/** What a failed attempt does to its job, and why a job runs out of failures. */
module Retry {
  import opened Common
  import R = RankOrder
  import opened Decision

  type Status = R.Status
  type Kind = R.Kind

  /** The columns of a job that a failure reads or writes. Times are in seconds. */
  datatype Row = Row(status: Status, kind: Kind, attempt: nat, release: Option<Id>, isUpgrade: bool, notBefore: int)

  datatype State = State(row: Row, blocklist: set<Key>)

  /** An error, classified: the attempt was cancelled, the site throttles us, our side is broken, the release is bad, or neither. */
  datatype Failure = Cancelled | Cooling(until: int) | Infra | Permanent | Ordinary

  /** The chapter's releases, the release rows there are, and the setting. */
  datatype World = World(cands: seq<Candidate>, known: map<Id, Key>, maxAttempts: int)
  {
    function Max(): (n: nat)
      ensures n >= 1
    {
      if maxAttempts <= 0 then 3 else maxAttempts
    }

    /** Every candidate is a release row. */
    predicate Sound() {
      forall c :: c in cands ==> c.release.id in known && known[c.release.id] == KeyOf(c)
    }
  }

  /** retryDelays: 30 seconds, 2 minutes, then 10. */
  function RetryDelay(attempt: nat): nat {
    if attempt <= 1 then 30 else if attempt == 2 then 120 else 600
  }

  /** Five minutes more each time, an hour at most. */
  function InfraDelay(attempt: nat): nat {
    if attempt * 300 > 3600 then 3600 else attempt * 300
  }

  /** UPDATE ... WHERE status <> 'paused' */
  function Guarded(s: State, row: Row): State {
    if s.row.status.Paused? then s else s.(row := row)
  }

  function Requeued(s: State, now: int, delay: nat, attempt: nat, release: Option<Id>): State {
    Guarded(s, s.row.(status := R.Queued, attempt := attempt, release := release, notBefore := now + delay))
  }

  /** BlocklistRelease: nothing when the release has no row. */
  function Blocklist(w: World, s: State, release: Option<Id>): State {
    if release.Some? && release.value in w.known then s.(blocklist := s.blocklist + {w.known[release.value]}) else s
  }

  /** The release to fall back to; only when the job's records could be read. */
  function Fallback(w: World, s: State, loaded: bool, input: Input): Verdict {
    if loaded then NextCandidate(input.(blocklist := s.blocklist), w.cands) else Verdict(None, false, [])
  }

  /** fail, for the copy of the row that the attempt holds. */
  function Failing(w: World, s: State, copy: Row, failure: Failure, loaded: bool, input: Input, now: int): State {
    var attempt := copy.attempt + 1;
    match failure
    case Cancelled => s
    case Cooling(until) => Guarded(s, s.row.(status := R.Queued, notBefore := until, release := copy.release))
    case Infra => Requeued(s, now, InfraDelay(attempt), attempt, copy.release)
    case _ =>
      if failure.Ordinary? && attempt < w.Max() && copy.kind.Download? then
        Requeued(s, now, RetryDelay(attempt), attempt, copy.release)
      else if copy.kind.Download? && copy.release.Some? then
        FallBack(w, Blocklist(w, s, copy.release), attempt, loaded, input, now)
      else GiveUp(s, attempt)
  }

  /** Try the next release from the start, or give up. */
  function FallBack(w: World, s: State, attempt: nat, loaded: bool, input: Input, now: int): State {
    var next := Fallback(w, s, loaded, input);
    if next.approved.None? then GiveUp(s, attempt) else
      var marked := s.(row := s.row.(isUpgrade := next.isUpgrade));
      Requeued(marked, now, 5, 0, Some(next.approved.value.release.id))
  }

  function GiveUp(s: State, attempt: nat): State {
    Guarded(s, s.row.(status := R.Failed, attempt := attempt))
  }

  /** The job's row and the blocklist, as fail changes them. */
  class Job {
    var row: Row
    var blocklist: set<Key>

    function Now(): State reads this { State(row, blocklist) }

    constructor (row: Row, blocklist: set<Key>)
      ensures Now() == State(row, blocklist)
    {
      this.row, this.blocklist := row, blocklist;
    }

    method Requeue(now: int, delay: nat, attempt: nat, release: Option<Id>)
      modifies this
      ensures Now() == Requeued(old(Now()), now, delay, attempt, release)
    {
      if !row.status.Paused? {
        row := row.(status := R.Queued, attempt := attempt, release := release, notBefore := now + delay);
      }
    }

    method Fail(w: World, copy: Row, failure: Failure, loaded: bool, input: Input, now: int)
      modifies this
      ensures Now() == Failing(w, old(Now()), copy, failure, loaded, input, now)
    {
      if failure.Cancelled? {
        return;
      }
      if failure.Cooling? {
        if !row.status.Paused? {
          row := row.(status := R.Queued, notBefore := failure.until, release := copy.release);
        }
        return;
      }
      var attempt := copy.attempt + 1;
      if failure.Infra? {
        Requeue(now, InfraDelay(attempt), attempt, copy.release);
        return;
      }
      if failure.Ordinary? && attempt < w.Max() && copy.kind.Download? {
        Requeue(now, RetryDelay(attempt), attempt, copy.release);
        return;
      }
      if copy.kind.Download? && copy.release.Some? {
        if copy.release.value in w.known {
          blocklist := blocklist + {w.known[copy.release.value]};
        }
        TryNext(w, attempt, loaded, input, now);
        return;
      }
      Fails(attempt);
    }

    method TryNext(w: World, attempt: nat, loaded: bool, input: Input, now: int)
      modifies this
      ensures Now() == FallBack(w, old(Now()), attempt, loaded, input, now)
    {
      if loaded {
        var next := Decide(input.(blocklist := blocklist, search := true, queued := false), w.cands);
        if next.approved.Some? {
          row := row.(isUpgrade := next.isUpgrade);
          Requeue(now, 5, 0, Some(next.approved.value.release.id));
          return;
        }
      }
      Fails(attempt);
    }

    method Fails(attempt: nat)
      modifies this
      ensures Now() == GiveUp(old(Now()), attempt)
    {
      if !row.status.Paused? {
        row := row.(status := R.Failed, attempt := attempt);
      }
    }
  }

  // ---- the measure -------------------------------------------------------------------------------

  /** The releases still worth trying. */
  function Unblocked(w: World, s: State): set<Key> {
    Keys(w.cands) - s.blocklist
  }

  function Keys(cands: seq<Candidate>): set<Key> {
    set c | c in cands :: KeyOf(c)
  }

  /** The blocklist key of a release. */
  function KeysOf(w: World, release: Option<Id>): set<Key> {
    if release.Some? && release.value in w.known then {w.known[release.value]} else {}
  }

  /** That of the release the job is on. */
  function Current(w: World, s: State): set<Key> {
    KeysOf(w, s.row.release)
  }

  function AttemptsLeft(w: World, s: State): (n: nat)
    ensures n >= 1
  {
    if s.row.attempt < w.Max() then w.Max() - s.row.attempt else 1
  }

  /** Releases left, each good for every attempt, and attempts left on this one. */
  function Measure(w: World, s: State): (n: nat)
    ensures n >= 1
  {
    Times(w.Max(), |Unblocked(w, s) - Current(w, s)|) + AttemptsLeft(w, s)
  }

  function Times(a: nat, b: nat): (r: nat)
    ensures r == a * b
  {
    if b == 0 then 0 else Times(a, b - 1) + a
  }

  lemma TimesStep(a: nat, b: nat, c: nat)
    requires b <= c
    ensures Times(a, b) <= Times(a, c)
    ensures b < c ==> Times(a, b) + a <= Times(a, c)
  {
    assert a * b <= a * c;
    if b < c {
      assert a * (b + 1) <= a * c;
    }
  }

  /** Other things equal, a smaller blocklisted remainder and no fewer attempts spent do not raise the measure. */
  lemma MeasureFalls(w: World, s: State, t: State)
    requires Unblocked(w, t) - Current(w, t) <= Unblocked(w, s) - Current(w, s)
    ensures AttemptsLeft(w, t) <= AttemptsLeft(w, s) ==> Measure(w, t) <= Measure(w, s)
    ensures AttemptsLeft(w, t) < AttemptsLeft(w, s) ==> Measure(w, t) < Measure(w, s)
    ensures Unblocked(w, t) - Current(w, t) != Unblocked(w, s) - Current(w, s) && AttemptsLeft(w, t) <= w.Max() ==>
      Measure(w, t) < Measure(w, s)
  {
    PartIsSmaller(Unblocked(w, t) - Current(w, t), Unblocked(w, s) - Current(w, s));
    TimesStep(w.Max(), |Unblocked(w, t) - Current(w, t)|, |Unblocked(w, s) - Current(w, s)|);
  }

  // ---- one failure ---------------------------------------------------------------------------------

  /** The attempt works from the row as it is, apart from its status. */
  predicate FreshCopy(s: State, copy: Row) {
    copy.attempt == s.row.attempt && copy.release == s.row.release && copy.kind == s.row.kind
  }

  /** Failures that count: not a cooldown, our own trouble, a cancellation, or a paused row. */
  predicate Counts(s: State, failure: Failure) {
    (failure.Permanent? || failure.Ordinary?) && !s.row.status.Paused?
  }

  lemma FallbackMoves(w: World, s: State, blocked: State, t: State, c: Candidate)
    requires w.Sound() && c in w.cands && KeyOf(c) !in blocked.blocklist
    requires s.blocklist <= blocked.blocklist == t.blocklist && t.row.release == Some(c.release.id)
    requires Current(w, s) <= blocked.blocklist
    ensures Unblocked(w, t) - Current(w, t) <= Unblocked(w, s) - Current(w, s)
    ensures Unblocked(w, t) - Current(w, t) != Unblocked(w, s) - Current(w, s)
  {
    assert Current(w, t) == {KeyOf(c)};
    assert KeyOf(c) in Unblocked(w, s);
    assert KeyOf(c) !in Current(w, s);
  }

  /** A failure that counts ends the job or lowers the measure. */
  lemma FailureCounts(w: World, s: State, copy: Row, failure: Failure, loaded: bool, input: Input, now: int)
    requires w.Sound() && FreshCopy(s, copy) && Counts(s, failure)
    ensures var t := Failing(w, s, copy, failure, loaded, input, now);
      t.row.status.Failed? || Measure(w, t) < Measure(w, s)
  {
    var t := Failing(w, s, copy, failure, loaded, input, now);
    if failure.Ordinary? && copy.attempt + 1 < w.Max() && copy.kind.Download? {
      MeasureFalls(w, s, t);
    } else if !t.row.status.Failed? {
      var blocked := Blocklist(w, s, copy.release);
      var next := Fallback(w, blocked, loaded, input);
      var c := next.approved.value;
      NextIsNotBlocklisted(input.(blocklist := blocked.blocklist), w.cands, c);
      FallbackMoves(w, s, blocked, t, c);
      MeasureFalls(w, s, t);
    }
  }

  /** On a paused row a failure changes nothing but the upgrade mark, and may blocklist the release. */
  lemma PausedFailure(w: World, s: State, copy: Row, failure: Failure, loaded: bool, input: Input, now: int)
    requires s.row.status.Paused?
    ensures var t := Failing(w, s, copy, failure, loaded, input, now);
      s.blocklist <= t.blocklist && t.row == s.row.(isUpgrade := t.row.isUpgrade)
  {
  }

  /** Any other failure leaves the measure no higher. */
  lemma FailureElse(w: World, s: State, copy: Row, failure: Failure, loaded: bool, input: Input, now: int)
    requires FreshCopy(s, copy) && !Counts(s, failure)
    ensures Measure(w, Failing(w, s, copy, failure, loaded, input, now)) <= Measure(w, s)
  {
    var t := Failing(w, s, copy, failure, loaded, input, now);
    if s.row.status.Paused? {
      PausedFailure(w, s, copy, failure, loaded, input, now);
    }
    MeasureFalls(w, s, t);
  }

  // ---- an older copy ----------------------------------------------------------------------------------

  /** A release still worth trying. */
  predicate Open(w: World, s: State, release: Option<Id>) {
    release.Some? && release.value in w.known && w.known[release.value] in Unblocked(w, s)
  }

  function OneIf(b: bool): nat { if b then 1 else 0 }

  lemma OpenLeft(w: World, s: State, release: Option<Id>)
    ensures |Unblocked(w, s) - KeysOf(w, release)| == |Unblocked(w, s)| - OneIf(Open(w, s, release))
  {
    if Open(w, s, release) {
      assert KeysOf(w, release) <= Unblocked(w, s);
    } else {
      assert Unblocked(w, s) - KeysOf(w, release) == Unblocked(w, s);
    }
  }

  /** The measure, by how many releases are open and whether the job's own is one of them. */
  lemma MeasureIs(w: World, s: State, open: nat)
    requires open == |Unblocked(w, s)|
    ensures open >= OneIf(Open(w, s, s.row.release))
    ensures Measure(w, s) == Times(w.Max(), open - OneIf(Open(w, s, s.row.release))) + AttemptsLeft(w, s)
  {
    OpenLeft(w, s, s.row.release);
  }

  /** The failure is tried again on the copy's release. */
  predicate TriesAgain(w: World, copy: Row, failure: Failure) {
    failure.Ordinary? && copy.attempt + 1 < w.Max() && copy.kind.Download?
  }

  /** What an attempt's copy of the row must still have for its failure to get the job further. */
  predicate Progresses(w: World, s: State, copy: Row, failure: Failure) {
    if TriesAgain(w, copy, failure) && Open(w, s, copy.release) == Open(w, s, s.row.release) then
      copy.attempt >= s.row.attempt
    else Open(w, s, s.row.release) ==> Open(w, s, copy.release)
  }

  lemma TriedAgain(w: World, s: State, copy: Row, failure: Failure, loaded: bool, input: Input, now: int)
    requires TriesAgain(w, copy, failure) && !s.row.status.Paused?
    ensures var t := Failing(w, s, copy, failure, loaded, input, now);
      t == s.(row := s.row.(status := R.Queued, attempt := copy.attempt + 1, release := copy.release, notBefore := t.row.notBefore))
  {
  }

  lemma TriedAgainMeasure(w: World, s: State, t: State, copy: Row, open: nat)
    requires t.blocklist == s.blocklist && t.row.release == copy.release && t.row.attempt == copy.attempt + 1 < w.Max()
    requires open == |Unblocked(w, s)|
    ensures open >= OneIf(Open(w, s, copy.release))
    ensures Measure(w, t) == Times(w.Max(), open - OneIf(Open(w, s, copy.release))) + w.Max() - (copy.attempt + 1)
  {
    MeasureIs(w, t, open);
  }

  /** The next release is open, and the copy's is closed. */
  lemma FellBack(w: World, s: State, copy: Row, failure: Failure, loaded: bool, input: Input, now: int) returns (c: Candidate)
    requires Counts(s, failure) && !TriesAgain(w, copy, failure)
    requires !Failing(w, s, copy, failure, loaded, input, now).row.status.Failed?
    ensures var t := Failing(w, s, copy, failure, loaded, input, now);
      && t.blocklist == s.blocklist + KeysOf(w, copy.release) && c in w.cands && KeyOf(c) !in t.blocklist
      && t.row.release == Some(c.release.id) && t.row.attempt == 0 && t.row.status.Queued?
  {
    var blocked := Blocklist(w, s, copy.release);
    c := Fallback(w, blocked, loaded, input).approved.value;
    NextIsNotBlocklisted(input.(blocklist := blocked.blocklist), w.cands, c);
  }

  lemma FellBackMeasure(w: World, s: State, t: State, copy: Row, c: Candidate, open: nat)
    requires w.Sound() && t.blocklist == s.blocklist + KeysOf(w, copy.release) && c in w.cands && KeyOf(c) !in t.blocklist
    requires t.row.release == Some(c.release.id) && t.row.attempt == 0 && open == |Unblocked(w, s)|
    ensures open >= OneIf(Open(w, s, copy.release)) && Measure(w, t) == Times(w.Max(), open - OneIf(Open(w, s, copy.release)))
  {
    var left := Unblocked(w, s) - KeysOf(w, copy.release);
    OpenLeft(w, s, copy.release);
    NextIsOpen(w, s, t, copy, c);
    MeasureIs(w, t, |left|);
  }

  lemma NextIsOpen(w: World, s: State, t: State, copy: Row, c: Candidate)
    requires w.Sound() && t.blocklist == s.blocklist + KeysOf(w, copy.release) && c in w.cands && KeyOf(c) !in t.blocklist
    ensures Unblocked(w, t) == Unblocked(w, s) - KeysOf(w, copy.release) && Open(w, t, Some(c.release.id))
  {
    assert KeyOf(c) in Keys(w.cands);
  }

  lemma TimesApart(m: nat, n: nat, a: nat, b: nat)
    requires a <= 1 && b <= 1 && n >= a && n >= b
    ensures a == b ==> Times(m, n - a) == Times(m, n - b)
    ensures a < b ==> Times(m, n - a) == Times(m, n - b) + m
    ensures a > b ==> Times(m, n - a) + m == Times(m, n - b)
  {
  }

  /** All that one failure on an older copy can undo. */
  function Setback(w: World): nat { 2 * w.Max() - 1 }

  lemma RetryCompares(w: World, s: State, t: State, copy: Row, failure: Failure)
    requires TriesAgain(w, copy, failure) && t.blocklist == s.blocklist
    requires t.row.release == copy.release && t.row.attempt == copy.attempt + 1
    ensures Measure(w, t) < Measure(w, s) <==> Progresses(w, s, copy, failure)
    ensures Measure(w, t) < Measure(w, s) + Setback(w)
  {
    var open := |Unblocked(w, s)|;
    MeasureIs(w, s, open);
    TriedAgainMeasure(w, s, t, copy, open);
    TimesApart(w.Max(), open, OneIf(Open(w, s, copy.release)), OneIf(Open(w, s, s.row.release)));
  }

  /** Numbers only: m attempts, open releases, whether the copy's and the row's are among them, attempts left. */
  lemma FallBackNumbers(m: nat, open: nat, p: nat, q: nat, left: nat)
    requires p <= 1 && q <= 1 && open >= p && open >= q && 1 <= left <= m
    ensures Times(m, open - p) < Times(m, open - q) + left <==> (q == 1 ==> p == 1)
    ensures Times(m, open - p) < Times(m, open - q) + left + 2 * m - 1
  {
    TimesApart(m, open, p, q);
  }

  lemma FallBackCompares(w: World, s: State, t: State, copy: Row, failure: Failure, c: Candidate)
    requires w.Sound() && !TriesAgain(w, copy, failure)
    requires t.blocklist == s.blocklist + KeysOf(w, copy.release) && c in w.cands && KeyOf(c) !in t.blocklist
    requires t.row.release == Some(c.release.id) && t.row.attempt == 0
    ensures Measure(w, t) < Measure(w, s) <==> Progresses(w, s, copy, failure)
    ensures Measure(w, t) < Measure(w, s) + Setback(w)
  {
    var open := |Unblocked(w, s)|;
    MeasureIs(w, s, open);
    FellBackMeasure(w, s, t, copy, c, open);
    FallBackNumbers(w.Max(), open, OneIf(Open(w, s, copy.release)), OneIf(Open(w, s, s.row.release)), AttemptsLeft(w, s));
  }

  lemma CopyCompares(w: World, s: State, t: State, copy: Row, failure: Failure, loaded: bool, input: Input, now: int)
    requires w.Sound() && Counts(s, failure)
    requires t == Failing(w, s, copy, failure, loaded, input, now) && !t.row.status.Failed?
    ensures Measure(w, t) < Measure(w, s) <==> Progresses(w, s, copy, failure)
    ensures Measure(w, t) < Measure(w, s) + Setback(w)
  {
    if TriesAgain(w, copy, failure) {
      TriedAgain(w, s, copy, failure, loaded, input, now);
      RetryCompares(w, s, t, copy, failure);
    } else {
      var c := FellBack(w, s, copy, failure, loaded, input, now);
      FallBackCompares(w, s, t, copy, failure, c);
    }
  }

  /**
   The exact condition for any copy of the row: a failure that counts and does not end the job lowers the
   measure exactly when the copy progresses.
   */
  lemma StaleCopyExactly(w: World, s: State, copy: Row, failure: Failure, loaded: bool, input: Input, now: int)
    requires w.Sound() && Counts(s, failure)
    requires !Failing(w, s, copy, failure, loaded, input, now).row.status.Failed?
    ensures Measure(w, Failing(w, s, copy, failure, loaded, input, now)) < Measure(w, s) <==> Progresses(w, s, copy, failure)
  {
    CopyCompares(w, s, Failing(w, s, copy, failure, loaded, input, now), copy, failure, loaded, input, now);
  }

  /** Another release, and no fresh release's attempts more. */
  lemma SameBlocklist(w: World, s: State, t: State)
    requires t.blocklist == s.blocklist
    requires AttemptsLeft(w, t) <= AttemptsLeft(w, s) || AttemptsLeft(w, t) < w.Max() || AttemptsLeft(w, t) == 1
    ensures Measure(w, t) <= Measure(w, s) + Setback(w)
  {
    var open := |Unblocked(w, s)|;
    MeasureIs(w, s, open);
    MeasureIs(w, t, open);
    TimesApart(w.Max(), open, OneIf(Open(w, s, t.row.release)), OneIf(Open(w, s, s.row.release)));
  }

  lemma UncountedCopy(w: World, s: State, copy: Row, failure: Failure, loaded: bool, input: Input, now: int)
    requires !Counts(s, failure) && !s.row.status.Paused?
    ensures var t := Failing(w, s, copy, failure, loaded, input, now);
      t.blocklist == s.blocklist && (t.row.attempt == s.row.attempt || t.row.attempt == copy.attempt + 1)
  {
  }

  /** Any failure on any copy adds less than two full releases' attempts, counting itself. */
  lemma CopyCosts(w: World, s: State, copy: Row, failure: Failure, loaded: bool, input: Input, now: int)
    requires w.Sound() && !Failing(w, s, copy, failure, loaded, input, now).row.status.Failed?
    ensures Measure(w, Failing(w, s, copy, failure, loaded, input, now)) + OneIf(Counts(s, failure)) <= Measure(w, s) + Setback(w)
  {
    var t := Failing(w, s, copy, failure, loaded, input, now);
    if s.row.status.Paused? {
      PausedFailure(w, s, copy, failure, loaded, input, now);
      MeasureFalls(w, s, t);
    } else if Counts(s, failure) {
      CopyCompares(w, s, t, copy, failure, loaded, input, now);
    } else {
      UncountedCopy(w, s, copy, failure, loaded, input, now);
      SameBlocklist(w, s, t);
    }
  }

  lemma PutBack(w: World, s: State, t: State, copy: Row)
    requires t.blocklist == s.blocklist && t.row.release == copy.release && t.row.attempt == copy.attempt + 1 == 1 < w.Max()
    requires s.row.attempt == w.Max() - 1 && Open(w, s, s.row.release) && !Open(w, s, copy.release)
    ensures Measure(w, t) + 1 == Measure(w, s) + Setback(w)
  {
    var open := |Unblocked(w, s)|;
    MeasureIs(w, s, open);
    TimesApart(w.Max(), open, 0, 1);
    TriedAgainMeasure(w, s, t, copy, open);
  }

  /** And it can cost all of that: a job at its last attempt on an open release is put back on a closed one. */
  lemma WorstSetback(w: World, s: State, copy: Row, loaded: bool, input: Input, now: int)
    requires TriesAgain(w, copy, Ordinary) && !s.row.status.Paused?
    requires copy.attempt == 0 && !Open(w, s, copy.release)
    requires s.row.attempt == w.Max() - 1 && Open(w, s, s.row.release)
    ensures Measure(w, Failing(w, s, copy, Ordinary, loaded, input, now)) + 1 == Measure(w, s) + Setback(w)
  {
    var t := Failing(w, s, copy, Ordinary, loaded, input, now);
    TriedAgain(w, s, copy, Ordinary, loaded, input, now);
    PutBack(w, s, t, copy);
  }

  // ---- runs -----------------------------------------------------------------------------------------

  /** The job, the copies of its row read so far, and those that an attempt is working from. */
  datatype Desk = Desk(s: State, copies: seq<Row>, working: set<nat>)

  /** What happens to an unfinished job. */
  datatype Event =
    | Reads                 // a pass reads the row
    | Claims(k: nat)        // an attempt starts from what a pass read, if the row is queued now
    | Delivers              // a worker has finished: its pages are taken on with a new reading of the row
    | Picks(k: nat, picked: Input)
    | Fails(k: nat, failure: Failure, loaded: bool, input: Input, now: int)
    | Writes(to: Status)    // somebody writes its status

  /** Before an attempt a job whose release or source row is gone, so that no candidate is it, gets another. */
  function Picked(w: World, s: State, copy: Row, input: Input): Option<(Option<Id>, bool)> {
    var next := NextCandidate(input.(blocklist := s.blocklist), w.cands);
    if KeysOf(w, copy.release) !! Keys(w.cands) && next.approved.Some? then
      Some((Some(next.approved.value.release.id), next.isUpgrade))
    else None
  }

  function Onto(row: Row, picked: (Option<Id>, bool)): Row {
    row.(release := picked.0, isUpgrade := picked.1)
  }

  predicate Works(d: Desk, k: nat) { k < |d.copies| && k in d.working }

  function Happens(w: World, d: Desk, e: Event): Desk {
    match e
    case Reads => d.(copies := d.copies + [d.s.row])
    case Claims(k) =>
      if k < |d.copies| && d.s.row.status.Queued? then
        d.(s := d.s.(row := d.s.row.(status := R.Downloading)), working := d.working + {k})
      else d
    case Delivers => d.(copies := d.copies + [d.s.row], working := d.working + {|d.copies|})
    case Picks(k, input) =>
      if !Works(d, k) then d else
        var picked := Picked(w, d.s, d.copies[k], input);
        if picked.None? then d
        else d.(s := d.s.(row := Onto(d.s.row, picked.value)), copies := d.copies[k := Onto(d.copies[k], picked.value)])
    case Fails(k, failure, loaded, input, now) =>
      if Works(d, k) then
        d.(s := Failing(w, d.s, d.copies[k], failure, loaded, input, now), working := d.working - {k})
      else d
    case Writes(to) => d.(s := d.s.(row := d.s.row.(status := to)))
  }

  lemma PickLowers(w: World, s: State, copy: Row, input: Input)
    requires w.Sound() && Picked(w, s, copy, input).Some?
    ensures Measure(w, s.(row := Onto(s.row, Picked(w, s, copy, input).value))) <= Measure(w, s)
  {
    var c := NextCandidate(input.(blocklist := s.blocklist), w.cands).approved.value;
    NextIsNotBlocklisted(input.(blocklist := s.blocklist), w.cands, c);
    OntoOpen(w, s, s.(row := Onto(s.row, Picked(w, s, copy, input).value)), c);
  }

  lemma OntoOpen(w: World, s: State, t: State, c: Candidate)
    requires w.Sound() && t.blocklist == s.blocklist && c in w.cands && KeyOf(c) !in s.blocklist
    requires t.row.release == Some(c.release.id) && t.row.attempt == s.row.attempt
    ensures Measure(w, t) <= Measure(w, s)
  {
    var open := |Unblocked(w, s)|;
    assert KeyOf(c) in Keys(w.cands);
    MeasureIs(w, s, open);
    MeasureIs(w, t, open);
    TimesApart(w.Max(), open, 1, OneIf(Open(w, s, s.row.release)));
  }

  /** A failure of an attempt that counts. */
  predicate CountsNow(d: Desk, e: Event) {
    e.Fails? && Works(d, e.k) && Counts(d.s, e.failure)
  }

  /** A failure, of whatever sort, of an attempt whose copy is no longer the row. */
  predicate StaleNow(d: Desk, e: Event) {
    e.Fails? && Works(d, e.k) && !FreshCopy(d.s, d.copies[e.k])
  }

  /** How many failures of a run count. */
  function CountedIn(w: World, d: Desk, events: seq<Event>): nat
    decreases |events|
  {
    if events == [] then 0 else OneIf(CountsNow(d, events[0])) + CountedIn(w, Happens(w, d, events[0]), events[1..])
  }

  /** How many failures of a run work from an older copy. */
  function StaleIn(w: World, d: Desk, events: seq<Event>): nat
    decreases |events|
  {
    if events == [] then 0 else OneIf(StaleNow(d, events[0])) + StaleIn(w, Happens(w, d, events[0]), events[1..])
  }

  /** Nothing before the last event ended the job. */
  predicate Unfinished(w: World, d: Desk, events: seq<Event>)
    decreases |events|
  {
    events == [] || (!d.s.row.status.Failed? && Unfinished(w, Happens(w, d, events[0]), events[1..]))
  }

  function Penalty(w: World, stale: bool): nat { if stale then Setback(w) else 0 }

  /** A failure that does not end the job: what it counts it pays for, unless its copy is old. */
  lemma FailurePays(w: World, d: Desk, e: Event)
    requires w.Sound() && e.Fails? && Works(d, e.k) && !Happens(w, d, e).s.row.status.Failed?
    ensures Measure(w, Happens(w, d, e).s) + OneIf(CountsNow(d, e)) <= Measure(w, d.s) + Penalty(w, StaleNow(d, e))
  {
    var copy := d.copies[e.k];
    assert Happens(w, d, e).s == Failing(w, d.s, copy, e.failure, e.loaded, e.input, e.now);
    if StaleNow(d, e) {
      CopyCosts(w, d.s, copy, e.failure, e.loaded, e.input, e.now);
    } else if Counts(d.s, e.failure) {
      FailureCounts(w, d.s, copy, e.failure, e.loaded, e.input, e.now);
    } else {
      FailureElse(w, d.s, copy, e.failure, e.loaded, e.input, e.now);
    }
  }

  lemma SameMeasure(w: World, s: State, t: State)
    requires t.blocklist == s.blocklist && t.row.release == s.row.release && t.row.attempt == s.row.attempt
    ensures Measure(w, t) == Measure(w, s)
  {
  }

  /** Nothing else raises the measure. */
  lemma OtherPays(w: World, d: Desk, e: Event)
    requires w.Sound() && !(e.Fails? && Works(d, e.k))
    ensures Measure(w, Happens(w, d, e).s) <= Measure(w, d.s)
  {
    if e.Picks? && Works(d, e.k) && Picked(w, d.s, d.copies[e.k], e.picked).Some? {
      PickLowers(w, d.s, d.copies[e.k], e.picked);
    } else {
      SameMeasure(w, d.s, Happens(w, d, e).s);
    }
  }

  /** An event that does not end the job, or after which there is nothing. */
  lemma EventPays(w: World, d: Desk, e: Event, t: Desk)
    requires w.Sound() && t == Happens(w, d, e) && !t.s.row.status.Failed?
    ensures Measure(w, t.s) + OneIf(CountsNow(d, e)) <= Measure(w, d.s) + Penalty(w, StaleNow(d, e))
  {
    if e.Fails? && Works(d, e.k) {
      FailurePays(w, d, e);
    } else {
      OtherPays(w, d, e);
    }
  }

  /** The desk after the first event, and what that event paid: one failure counted, at most, if it ended the job. */
  lemma FirstEvent(w: World, d: Desk, e: Event, events: seq<Event>) returns (t: Desk, counted: nat, stale: nat)
    requires w.Sound() && events != [] && e == events[0] && Unfinished(w, d, events)
    ensures Unfinished(w, t, events[1..])
    ensures CountedIn(w, d, events) == counted + CountedIn(w, t, events[1..])
    ensures StaleIn(w, d, events) == stale + StaleIn(w, t, events[1..])
    ensures stale <= 1 && counted <= 1
    ensures events[1..] == [] || Measure(w, t.s) + counted <= Measure(w, d.s) + Penalty(w, stale == 1)
  {
    t, counted, stale := Happens(w, d, e), OneIf(CountsNow(d, e)), OneIf(StaleNow(d, e));
    if !t.s.row.status.Failed? {
      EventPays(w, d, e, t);
    }
  }

  lemma {:induction false} FailuresRunOut(w: World, d: Desk, events: seq<Event>)
    requires w.Sound() && Unfinished(w, d, events)
    ensures CountedIn(w, d, events) <= Measure(w, d.s) + Times(Setback(w), StaleIn(w, d, events))
    decreases |events|
  {
    if events != [] {
      var t, counted, stale := FirstEvent(w, d, events[0], events);
      if events[1..] != [] {
        FailuresRunOut(w, t, events[1..]);
      }
    }
  }

  /**
   A job suffers at most maxAttempts failures for its first release and each one not yet blocklisted, and
   less than twice as many for each failure that worked from an older copy of its row.
   */
  lemma LadderTerminates(w: World, d: Desk, events: seq<Event>)
    requires w.Sound() && Unfinished(w, d, events)
    ensures CountedIn(w, d, events) <=
      w.Max() * (1 + |Unblocked(w, d.s)|) + (2 * w.Max() - 1) * StaleIn(w, d, events)
  {
    FailuresRunOut(w, d, events);
    var s := d.s;
    PartIsSmaller(Unblocked(w, s) - Current(w, s), Unblocked(w, s));
    TimesStep(w.Max(), |Unblocked(w, s) - Current(w, s)|, |Unblocked(w, s)|);
    assert w.Max() * (1 + |Unblocked(w, s)|) == w.Max() + w.Max() * |Unblocked(w, s)|;
  }

  // ---- an older copy is reached ------------------------------------------------------------------------

  const C0: Candidate := Candidate(Release(0, "a", "", None, false), Source(0, 0, true, None))
  const C1: Candidate := Candidate(Release(1, "b", "", None, false), Source(1, 0, true, None))
  const TWO: World := World([C0, C1], map[0 := KeyOf(C0), 1 := KeyOf(C1)], 3)
  const ASKED: Input :=
    Input(true, true, false, false, true, true, None, None, {}, 0, [], [], (name: string) => false)

  /** A queued job on the first release, which two passes have read. */
  const ROW: Row := Row(R.Queued, R.Download, 0, Some(0), false, 0)
  const START: Desk := Desk(State(ROW, {}), [], {})

  /** The first release fails for good and the job goes on to the second. */
  const FIRST_ATTEMPT: Event := Fails(0, Permanent, true, ASKED, 0)

  /** The second pass starts an attempt on the first release, and it fails. */
  const SECOND_ATTEMPT: Event := Fails(1, Ordinary, true, ASKED, 5)

  lemma MovesOn() returns (t: State)
    ensures t == Failing(TWO, State(ROW.(status := R.Downloading), {}), ROW, Permanent, true, ASKED, 0)
    ensures t == State(ROW.(release := Some(1), notBefore := 5), {KeyOf(C0)})
  {
    var s := State(ROW.(status := R.Downloading), {});
    t := Failing(TWO, s, ROW, Permanent, true, ASKED, 0);
    assert Blocklist(TWO, s, ROW.release).blocklist == {KeyOf(C0)};
    var asked := ASKED.(blocklist := {KeyOf(C0)});
    assert C1 in TWO.cands && ReleaseRejection(asked, C1).None?;
    NextExists(asked, TWO.cands, C1);
    NextIsNotBlocklisted(asked, TWO.cands, NextCandidate(asked, TWO.cands).approved.value);
  }

  lemma TwoMeasures(s: State)
    requires s.blocklist == {KeyOf(C0)} && s.row.release.Some? && s.row.release.value <= 1 && s.row.attempt < 3
    ensures Measure(TWO, s) == 3 - s.row.attempt + if s.row.release.value == 0 then 3 else 0
  {
    var two := TWO.cands;
    assert two[0] in two && two[1] in two;
    assert Keys(two) == {KeyOf(C0), KeyOf(C1)};
    assert Unblocked(TWO, s) == {KeyOf(C1)};
    assert TWO.known[s.row.release.value] == if s.row.release.value == 0 then KeyOf(C0) else KeyOf(C1);
    MeasureIs(TWO, s, 1);
  }

  function AfterFive(): Desk {
    Happens(TWO, Happens(TWO, Happens(TWO, Happens(TWO, Happens(TWO, START, Reads), Reads), Claims(0)), FIRST_ATTEMPT), Claims(1))
  }

  lemma FiveEvents()
    ensures AfterFive() == Desk(State(ROW.(status := R.Downloading, release := Some(1), notBefore := 5), {KeyOf(C0)}), [ROW, ROW], {1})
  {
    var reading := Happens(TWO, Happens(TWO, START, Reads), Reads);
    assert reading == Desk(State(ROW, {}), [ROW, ROW], {});
    var first := Happens(TWO, reading, Claims(0));
    assert first == Desk(State(ROW.(status := R.Downloading), {}), [ROW, ROW], {0});
    var moved := MovesOn();
    var second := Happens(TWO, first, FIRST_ATTEMPT);
    assert {0} - {0} == {};
    assert second == Desk(moved, [ROW, ROW], {});
    assert {} + {1} == {1};
  }

  lemma SixthEvent(d: Desk)
    requires d == Desk(State(ROW.(status := R.Downloading, release := Some(1), notBefore := 5), {KeyOf(C0)}), [ROW, ROW], {1})
    ensures var after := Happens(TWO, d, SECOND_ATTEMPT).s;
      after.blocklist == {KeyOf(C0)} && after.row.release == Some(0) && after.row.attempt == 1 && after.row.status.Queued?
  {
  }

  /**
   A run whose second attempt works from an older copy: it is a failure that counts, it puts the job back
   on the release just blocklisted, and the measure rises from 3 to 5.
   */
  lemma StaleCopyRaises()
    ensures CountsNow(AfterFive(), SECOND_ATTEMPT) && StaleNow(AfterFive(), SECOND_ATTEMPT)
    ensures var after := Happens(TWO, AfterFive(), SECOND_ATTEMPT);
      && Measure(TWO, AfterFive().s) == 3 && Measure(TWO, after.s) == 5
      && after.s.row.release == Some(0) && KeyOf(C0) in after.s.blocklist
  {
    FiveEvents();
    SixthEvent(AfterFive());
    TwoMeasures(AfterFive().s);
    TwoMeasures(Happens(TWO, AfterFive(), SECOND_ATTEMPT).s);
  }
}
