/** Quality assessments of businesses and the suspension that follows failed ones (BFIP section 12). */
module Assessments {
  import opened Common

  /** A `business_assessment_history` row. */
  datatype Row = Row(business: int, passed: bool, failedCount: nat, at: nat)

  /** The history, and when each suspended business was last suspended. */
  datatype Tables = Tables(history: seq<Row>, suspendedAt: map<int, nat>)

  datatype VisitStatus = Scheduled | InProgress | Completed | OtherStatus
  datatype Visit = Visit(staff: int, status: VisitStatus)
  datatype Checklist = Checklist(beaconFunctioning: bool, staffCorrect: bool, standardsMaintained: bool)

  predicate Passes(c: Checklist) { c.beaconFunctioning && c.staffCorrect && c.standardsMaintained }

  predicate FailedSince(row: Row, business: int, since: int) {
    row.business == business && !row.passed && row.at > since
  }

  function CountFails(history: seq<Row>, business: int, since: int): nat {
    if history == [] then 0
    else CountFails(history[..|history| - 1], business, since)
         + (if FailedSince(history[|history| - 1], business, since) then 1 else 0)
  }

  /** `record_assessment_history`; `yearAgo` is the database's `now() - interval '12 months'`. */
  function Record(t: Tables, yearAgo: nat -> int, business: int, passed: bool, now: nat): Tables {
    var at := Micros(now);
    var prior := CountFails(t.history, business, yearAgo(at));
    var count := if passed then prior else prior + 1;
    Tables(t.history + [Row(business, passed, count, at)],
           if !passed && count >= 3 then t.suspendedAt[business := at] else t.suspendedAt)
  }

  function Submit(t: Tables, yearAgo: nat -> int, visit: Option<Visit>, uid: int, admin: Option<bool>, business: int,
                  checklist: Checklist, now: nat): Result<Tables> {
    if visit.None? then Err(NotFound)
    else if visit.value.status != InProgress && visit.value.status != Completed then Err(Conflict)
    else if visit.value.staff != uid && admin.None? then Err(Unauthorized)
    else if visit.value.staff != uid && !admin.value then Err(Forbidden)
    else Ok(Record(t, yearAgo, business, Passes(checklist), now))
  }

  class AssessmentBook {
    var history: seq<Row>
    var suspendedAt: map<int, nat>

    function Contents(): Tables
      reads this
    {
      Tables(history, suspendedAt)
    }

    constructor ()
      ensures Contents() == Tables([], map[])
    {
      history, suspendedAt := [], map[];
    }

    method RecordHistory(yearAgo: nat -> int, business: int, passed: bool, now: nat) returns (count: nat)
      modifies this
      ensures Contents() == Record(old(Contents()), yearAgo, business, passed, now)
      ensures count == history[|history| - 1].failedCount
    {
      var at := Micros(now);
      count := CountFails(history, business, yearAgo(at));
      if !passed {
        count := count + 1;
      }
      history := history + [Row(business, passed, count, at)];
      if !passed && count >= 3 {
        suspendedAt := suspendedAt[business := at];
      }
    }

    /** `submit_quality_assessment`; `admin` is the requester's flag, if there is such a user. */
    method SubmitAssessment(yearAgo: nat -> int, visit: Option<Visit>, uid: int, admin: Option<bool>, business: int,
                            checklist: Checklist, now: nat) returns (r: Result<nat>)
      modifies this
      ensures match Submit(old(Contents()), yearAgo, visit, uid, admin, business, checklist, now)
              case Ok(after) => Contents() == after && |history| > 0 && r == Ok(history[|history| - 1].failedCount)
              case Err(e) => r == Err(e) && Contents() == old(Contents())
    {
      if visit.None? {
        return Err(NotFound);
      }
      if visit.value.status != InProgress && visit.value.status != Completed {
        return Err(Conflict);
      }
      if visit.value.staff != uid {
        if admin.None? {
          return Err(Unauthorized);
        }
        if !admin.value {
          return Err(Forbidden);
        }
      }
      var pass := checklist.beaconFunctioning && checklist.staffCorrect && checklist.standardsMaintained;
      var count := RecordHistory(yearAgo, business, pass, now);
      return Ok(count);
    }
  }

  // ---- runs ----

  /** An accepted assessment of a business, `delay` after the one before. */
  datatype Assessed = Assessed(delay: nat, business: int, passed: bool)

  function Clock(run: seq<Assessed>): nat {
    if run == [] then 0 else Clock(run[..|run| - 1]) + run[|run| - 1].delay
  }

  function Play(yearAgo: nat -> int, run: seq<Assessed>): Tables {
    if run == [] then Tables([], map[])
    else
      var last := run[|run| - 1];
      Record(Play(yearAgo, run[..|run| - 1]), yearAgo, last.business, last.passed, Clock(run))
  }

  /** The positions up to `k` of failed assessments of row `k`'s business less than twelve months before row `k`. */
  function WindowAt(history: seq<Row>, yearAgo: nat -> int, k: nat): set<nat>
    requires k < |history|
  {
    set i: nat | i <= k && FailedSince(history[i], history[k].business, yearAgo(history[k].at))
  }

  function PositionsSince(history: seq<Row>, n: nat, business: int, since: int): set<nat>
    requires n <= |history|
  {
    set i: nat | i < n && FailedSince(history[i], business, since)
  }

  lemma {:induction false} CountIsCardinality(history: seq<Row>, n: nat, business: int, since: int)
    requires n <= |history|
    ensures CountFails(history[..n], business, since) == |PositionsSince(history, n, business, since)|
  {
    if n > 0 {
      CountIsCardinality(history, n - 1, business, since);
      assert history[..n][..n - 1] == history[..n - 1];
      var before := PositionsSince(history, n - 1, business, since);
      assert PositionsSince(history, n, business, since)
          == if FailedSince(history[n - 1], business, since) then before + {n - 1} else before;
    } else {
      assert PositionsSince(history, 0, business, since) == {};
    }
  }

  /** Three failures, the first less than twelve months before the last. */
  predicate ThreeWithinYear(history: seq<Row>, yearAgo: nat -> int, business: int, i: int, j: int, k: int) {
    && 0 <= i < j < k < |history|
    && !history[i].passed && !history[j].passed && !history[k].passed
    && history[i].business == business && history[j].business == business && history[k].business == business
    && history[i].at > yearAgo(history[k].at)
  }

  predicate InOrder(history: seq<Row>) {
    forall i, j :: 0 <= i < j < |history| ==> history[i].at <= history[j].at
  }

  ghost predicate Consistent(t: Tables, yearAgo: nat -> int) {
    && InOrder(t.history)
    && (forall k :: 0 <= k < |t.history| ==> t.history[k].failedCount == |WindowAt(t.history, yearAgo, k)|)
    && (forall b :: b in t.suspendedAt <==> exists i, j, k :: ThreeWithinYear(t.history, yearAgo, b, i, j, k))
  }

  ghost predicate Past(yearAgo: nat -> int) { forall at :: yearAgo(at) < at }

  lemma {:induction false} OldWindow(history: seq<Row>, row: Row, yearAgo: nat -> int, k: nat)
    requires k < |history|
    ensures WindowAt(history + [row], yearAgo, k) == WindowAt(history, yearAgo, k)
  {
    assert forall i :: 0 <= i <= k ==> (history + [row])[i] == history[i];
  }

  /** The count the new row stores is the size of its window. */
  lemma {:induction false} NewWindow(t: Tables, yearAgo: nat -> int, business: int, passed: bool, now: nat)
    requires Past(yearAgo)
    ensures var history := Record(t, yearAgo, business, passed, now).history;
            history[|t.history|].failedCount == |WindowAt(history, yearAgo, |t.history|)|
  {
    var history, n, since := Record(t, yearAgo, business, passed, now).history, |t.history|, yearAgo(Micros(now));
    CountIsCardinality(history, n, business, since);
    assert history[..n] == t.history;
    var before := PositionsSince(history, n, business, since);
    assert WindowAt(history, yearAgo, n) == if passed then before else before + {n};
  }

  /**
   * A window of three holds two earlier failures; conversely three failures within a year fill the window of the
   * last.
   */
  lemma {:induction false} WindowOfThree(history: seq<Row>, yearAgo: nat -> int, k: nat)
    requires k < |history| && InOrder(history) && Past(yearAgo) && !history[k].passed
    ensures |WindowAt(history, yearAgo, k)| >= 3 <==>
              exists i, j :: ThreeWithinYear(history, yearAgo, history[k].business, i, j, k)
  {
    var window := WindowAt(history, yearAgo, k);
    assert k in window;
    if |window| >= 3 {
      assert |window - {k}| == |window| - 1;
      var i :| i in window - {k};
      assert |window - {k} - {i}| == |window| - 2;
      var j :| j in window - {k} - {i};
      var lo, hi := if i < j then i else j, if i < j then j else i;
      assert ThreeWithinYear(history, yearAgo, history[k].business, lo, hi, k);
    }
    if i, j :| ThreeWithinYear(history, yearAgo, history[k].business, i, j, k) {
      assert history[i].at <= history[j].at;
      assert {i, j, k} <= window;
      SubsetSize({i as nat, j, k}, window);
    }
  }

  lemma {:induction false} SubsetSize(a: set<nat>, b: set<nat>)
    requires a <= b
    ensures |a| <= |b|
  {
    assert b == a + (b - a);
  }

  lemma {:induction false} RecordConsistent(t: Tables, yearAgo: nat -> int, business: int, passed: bool, now: nat)
    requires Consistent(t, yearAgo) && Past(yearAgo)
    requires forall i :: 0 <= i < |t.history| ==> t.history[i].at <= Micros(now)
    ensures Consistent(Record(t, yearAgo, business, passed, now), yearAgo)
  {
    hide WindowAt, Past;
    var t' := Record(t, yearAgo, business, passed, now);
    var n := |t.history|;
    forall k | 0 <= k < |t'.history| ensures t'.history[k].failedCount == |WindowAt(t'.history, yearAgo, k)| {
      if k < n {
        OldWindow(t.history, t'.history[n], yearAgo, k);
      } else {
        NewWindow(t, yearAgo, business, passed, now);
      }
    }
    forall b ensures b in t'.suspendedAt <==> exists i, j, k :: ThreeWithinYear(t'.history, yearAgo, b, i, j, k) {
      SuspensionStep(t, yearAgo, business, passed, now, b);
    }
  }

  lemma {:induction false} SuspensionStep(t: Tables, yearAgo: nat -> int, business: int, passed: bool, now: nat, b: int)
    requires Consistent(t, yearAgo) && Past(yearAgo)
    requires forall i :: 0 <= i < |t.history| ==> t.history[i].at <= Micros(now)
    ensures var t' := Record(t, yearAgo, business, passed, now);
            b in t'.suspendedAt <==> exists i, j, k :: ThreeWithinYear(t'.history, yearAgo, b, i, j, k)
  {
    hide WindowAt, Past, CountFails;
    var t' := Record(t, yearAgo, business, passed, now);
    var n := |t.history|;
    NewWindow(t, yearAgo, business, passed, now);
    if !passed {
      WindowOfThree(t'.history, yearAgo, n);
    }
    if i, j, k :| ThreeWithinYear(t.history, yearAgo, b, i, j, k) {
      assert ThreeWithinYear(t'.history, yearAgo, b, i, j, k);
    }
    if i, j, k :| ThreeWithinYear(t'.history, yearAgo, b, i, j, k) {
      if k < n {
        assert ThreeWithinYear(t.history, yearAgo, b, i, j, k);
      }
    }
  }

  lemma {:induction false} PlayConsistent(yearAgo: nat -> int, run: seq<Assessed>)
    requires Past(yearAgo)
    ensures var t := Play(yearAgo, run);
            && Consistent(t, yearAgo) && |t.history| == |run|
            && forall i :: 0 <= i < |run| ==>
                 t.history[i].at <= Micros(Clock(run)) && t.history[i].business == run[i].business &&
                     t.history[i].passed == run[i].passed
  {
    hide Past, WindowAt;
    if run == [] {
    } else {
      var before, last := run[..|run| - 1], run[|run| - 1];
      PlayConsistent(yearAgo, before);
      MicrosMonotone(Clock(before), Clock(run));
      hide Consistent;
      RecordConsistent(Play(yearAgo, before), yearAgo, last.business, last.passed, Clock(run));
    }
  }

  /**
   * After any sequence of assessments, whatever the calendar makes of twelve months: every stored count is
   * the number of failures in its window, and a business is suspended exactly when it once failed three times
   * with the first less than twelve months before the last. Passing in between does not help, and nothing lifts it.
   */
  lemma {:induction false} SuspendedIff(yearAgo: nat -> int, run: seq<Assessed>, business: int)
    requires Past(yearAgo)
    ensures var t := Play(yearAgo, run);
            && |t.history| == |run|
            && (forall i :: 0 <= i < |run| ==>
                t.history[i].business == run[i].business && t.history[i].passed == run[i].passed)
            && (forall k :: 0 <= k < |t.history| ==> t.history[k].failedCount == |WindowAt(t.history, yearAgo, k)|)
            && (business in t.suspendedAt <==> exists i, j, k :: ThreeWithinYear(t.history, yearAgo, business, i, j, k))
  {
    hide WindowAt, ThreeWithinYear;
    PlayConsistent(yearAgo, run);
  }

  /** Each assessment of the run is stored with the time at which it was made. */
  lemma {:induction false} StoredAsMade(yearAgo: nat -> int, run: seq<Assessed>, i: nat)
    requires i < |run|
    ensures var history := Play(yearAgo, run).history;
            && |history| == |run| && history[i].at == Micros(Clock(run[..i + 1]))
            && history[i].business == run[i].business && history[i].passed == run[i].passed
  {
    hide Clock, Play;
    var n := |run| - 1;
    LastStored(yearAgo, run);
    assert run[..n + 1] == run;
    PlayLength(yearAgo, run[..n]);
    if i < n {
      StoredAsMade(yearAgo, run[..n], i);
      assert run[..n][..i + 1] == run[..i + 1];
      assert Play(yearAgo, run).history[i] == Play(yearAgo, run[..n]).history[i];
    }
  }

  lemma {:induction false} LastStored(yearAgo: nat -> int, run: seq<Assessed>)
    requires run != []
    ensures var n := |run| - 1;
            var before, after := Play(yearAgo, run[..n]).history, Play(yearAgo, run).history;
            && before <= after && |after| == |before| + 1
            && var row := after[|before|];
               row.at == Micros(Clock(run)) && row.business == run[n].business && row.passed == run[n].passed
  {
    hide Clock, CountFails;
  }

  lemma {:induction false} PlayLength(yearAgo: nat -> int, run: seq<Assessed>)
    ensures |Play(yearAgo, run).history| == |run|
  {
    hide Clock, CountFails;
    if run == [] {
    } else {
      PlayLength(yearAgo, run[..|run| - 1]);
    }
  }

  /** Three failed assessments of the business in the run, the first made less than twelve months before the last. */
  predicate FailsThrice(run: seq<Assessed>, yearAgo: nat -> int, business: int, i: int, j: int, k: int) {
    && 0 <= i < j < k < |run| && !run[i].passed && !run[j].passed && !run[k].passed
    && run[i].business == business && run[j].business == business && run[k].business == business
    && yearAgo(Micros(Clock(run[..k + 1]))) < Micros(Clock(run[..i + 1]))
  }

  /** Suspension read off the run alone: what was assessed, and when. */
  lemma {:induction false} SuspendedByRunIff(yearAgo: nat -> int, run: seq<Assessed>, business: int)
    requires Past(yearAgo)
    ensures business in Play(yearAgo, run).suspendedAt
       <==> exists i, j, k :: FailsThrice(run, yearAgo, business, i, j, k)
  {
    SuspendedIff(yearAgo, run, business);
    hide Past, Play, Clock, WindowAt;
    var history := Play(yearAgo, run).history;
    forall i, j, k
      ensures ThreeWithinYear(history, yearAgo, business, i, j, k) <==> FailsThrice(run, yearAgo, business, i, j, k)
    {
      if 0 <= i < j < k < |run| {
        StoredAsMade(yearAgo, run, i);
        StoredAsMade(yearAgo, run, j);
        StoredAsMade(yearAgo, run, k);
      }
    }
    hide ThreeWithinYear, FailsThrice;
  }

  /** Positions of the business's failed assessments less than twelve months before `at`. */
  function FailuresIn(history: seq<Row>, business: int, yearAgo: nat -> int, at: nat): set<nat> {
    set i: nat | i < |history| && history[i].business == business && !history[i].passed
                 && yearAgo(at) < history[i].at
  }

  /**
   * What a submission is answered and does: a visit under way or completed, assessed by its own staff or an
   * administrator. It passes iff all three points do. The row counts the failures of the last twelve months, itself
   * included, and a third one suspends the business as of now.
   */
  lemma {:induction false} SubmitAnswer(t: Tables, yearAgo: nat -> int, visit: Option<Visit>, uid: int,
                                        admin: Option<bool>, business: int, checklist: Checklist, now: nat)
    ensures var r := Submit(t, yearAgo, visit, uid, admin, business, checklist, now);
            && Refusal(r) == (if visit.None? then Some(NotFound)
                              else if visit.value.status !in {InProgress, Completed} then Some(Conflict)
                              else if uid == visit.value.staff || admin == Some(true) then None
                              else if admin.None? then Some(Unauthorized)
                              else Some(Forbidden))
            && (r.Ok? ==>
                  var passed := !(!checklist.beaconFunctioning || !checklist.staffCorrect
                                  || !checklist.standardsMaintained);
                  var count := |FailuresIn(t.history, business, yearAgo, Micros(now))| + (if passed then 0 else 1);
                  && r.value.history == t.history + [Row(business, passed, count, Micros(now))]
                  && r.value.suspendedAt == if !passed && count >= 3 then t.suspendedAt[business := Micros(now)]
                                            else t.suspendedAt)
  {
    var n, at := |t.history|, Micros(now);
    CountIsCardinality(t.history, n, business, yearAgo(at));
    assert t.history[..n] == t.history;
    assert PositionsSince(t.history, n, business, yearAgo(at)) == FailuresIn(t.history, business, yearAgo, at);
    hide CountFails, PositionsSince, FailuresIn, Micros;
  }

  /** Suspension is for good. */
  lemma {:induction false} SuspendedForever(yearAgo: nat -> int, run: seq<Assessed>, more: seq<Assessed>, business: int)
    requires business in Play(yearAgo, run).suspendedAt
    ensures business in Play(yearAgo, run + more).suspendedAt
  {
    if more == [] {
      assert run + more == run;
    } else {
      var before := run + more[..|more| - 1];
      SuspendedForever(yearAgo, run, more[..|more| - 1], business);
      assert (run + more)[..|run + more| - 1] == before;
    }
  }

  /** A new book that records any accepted assessments, each at its time. */
  method Operate(yearAgo: nat -> int, run: seq<Assessed>) returns (book: AssessmentBook)
    requires Past(yearAgo)
    ensures fresh(book) && book.Contents() == Play(yearAgo, run)
    ensures forall b :: b in book.suspendedAt <==> exists i, j, k :: ThreeWithinYear(book.history, yearAgo, b, i, j, k)
  {
    hide Past, ThreeWithinYear, WindowAt;
    book := new AssessmentBook();
    var now := 0;
    assert run[..0] == [];
    for n := 0 to |run|
      invariant fresh(book)
      invariant now == Clock(run[..n]) && book.Contents() == Play(yearAgo, run[..n])
    {
      now := now + run[n].delay;
      assert run[..n + 1][..n] == run[..n];
      var _ := book.RecordHistory(yearAgo, run[n].business, run[n].passed, now);
    }
    assert run[..|run|] == run;
    forall b ensures b in book.suspendedAt <==> exists i, j, k :: ThreeWithinYear(book.history, yearAgo, b, i, j, k) {
      SuspendedIff(yearAgo, run, b);
    }
  }
}
