/**
 * Presence tables: the event log, one threshold row per user with its counters, the links from
 * thresholds to the events that counted, and the PresenceThresholdMet notices published.
 */
module Presence {
  import opened Common

  /** A `presence_events` row; `day` numbers UTC calendar dates. */
  datatype Event = Event(user: int, business: int, day: nat, nfc: bool, qualifying: bool)

  datatype Threshold = Threshold(user: int, business: int, eventCount: nat, daysCount: nat,
                                 lastAt: Option<nat>, metAt: Option<nat>)

  /** Row ids of events and thresholds are positions. */
  datatype Tables = Tables(events: seq<Event>, thresholds: seq<Threshold>, links: set<(nat, nat)>, notices: seq<int>)

  const EMPTY := Tables([], [], {}, [])

  // ---- what the log says ----

  predicate Counts(events: seq<Event>, user: int, i: int) {
    0 <= i < |events| && events[i].user == user && events[i].qualifying
  }

  /** Ids of the user's qualifying events. */
  function Qualifying(events: seq<Event>, user: int): set<nat> {
    set i: nat | i < |events| && Counts(events, user, i)
  }

  /** The distinct (business, date) pairs among them. */
  function Pairs(events: seq<Event>, user: int): set<(int, nat)> {
    set i: nat | i < |events| && Counts(events, user, i) :: (events[i].business, events[i].day)
  }

  /** `qualifying_events_on_date`: per business. */
  function OnDate(events: seq<Event>, user: int, business: int, day: nat): set<nat> {
    set i: nat | i < |events| && Counts(events, user, i) && events[i].business == business && events[i].day == day
  }

  // ---- the operations ----

  /** The threshold of a user: the row the unique key on `user_id` names. */
  function Find(rows: seq<Threshold>, user: int): (r: Option<nat>)
    ensures r.Some? ==> r.value < |rows| && rows[r.value].user == user
    ensures r.None? ==> forall i :: 0 <= i < |rows| ==> rows[i].user != user
  {
    if rows == [] then None
    else if rows[|rows| - 1].user == user then Some(|rows| - 1)
    else Find(rows[..|rows| - 1], user)
  }

  /** Insert a zero row unless the user has one; the id of the user's row. */
  function GetOrCreate(rows: seq<Threshold>, user: int, business: int): (r: (seq<Threshold>, nat))
    ensures r.1 < |r.0| && r.0[r.1].user == user
  {
    match Find(rows, user)
    case Some(i) => (rows, i)
    case None => (rows + [Threshold(user, business, 0, 0, None, None)], |rows|)
  }

  /** `advance_threshold`; the event is already in the log. */
  function Advance(t: Tables, user: int, business: int, eventId: nat, day: nat, now: nat): Tables {
    var firstToday := |OnDate(t.events, user, business, day)| <= 1;
    var (rows, id) := GetOrCreate(t.thresholds, user, business);
    var row := rows[id];
    var events, days := row.eventCount + 1, if firstToday then row.daysCount + 1 else row.daysCount;
    var newlyMet := row.metAt.None? && events >= 3 && days >= 3;
    var metAt := if newlyMet then Some(Micros(now)) else row.metAt;
    Tables(t.events,
           rows[id := row.(eventCount := events, daysCount := days, lastAt := Some(Micros(now)), metAt := metAt)],
           t.links + {(id, eventId)},
           if newlyMet then t.notices + [user] else t.notices)
  }

  /** Append a qualifying event and advance. */
  function Qualify(t: Tables, user: int, business: int, day: nat, nfc: bool, now: nat): Tables {
    Advance(t.(events := t.events + [Event(user, business, day, nfc, true)]), user, business, |t.events|, day, now)
  }

  /** Append an event that failed validation; it counts for nothing. */
  function Refuse(t: Tables, user: int, business: int, day: nat, nfc: bool): Tables {
    t.(events := t.events + [Event(user, business, day, nfc, false)])
  }

  /** The threshold completed in the step from `t` to `t'`. */
  predicate NewlyMet(t: Tables, t': Tables) { |t'.notices| > |t.notices| }

  // ---- the counters agree with the log ----

  predicate Met(t: Tables, user: int) {
    exists i :: 0 <= i < |t.thresholds| && t.thresholds[i].user == user && t.thresholds[i].metAt.Some?
  }

  predicate OneRowEach(rows: seq<Threshold>) {
    forall i, j :: 0 <= i < j < |rows| ==> rows[i].user != rows[j].user
  }

  /** One threshold row tells the truth about the log. */
  predicate RowAgrees(events: seq<Event>, row: Threshold) {
    && row.eventCount == |Qualifying(events, row.user)|
    && row.daysCount == |Pairs(events, row.user)|
    && (row.metAt.Some? <==> row.eventCount >= 3 && row.daysCount >= 3)
  }

  ghost predicate LinksAgree(t: Tables) {
    forall i: nat, k: nat :: (i, k) in t.links <==> i < |t.thresholds| && Counts(t.events, t.thresholds[i].user, k)
  }

  ghost predicate NoticesAgree(t: Tables) {
    forall u :: multiset(t.notices)[u] == if Met(t, u) then 1 else 0
  }

  ghost predicate Valid(t: Tables) {
    && OneRowEach(t.thresholds)
    && (forall i :: 0 <= i < |t.thresholds| ==> RowAgrees(t.events, t.thresholds[i]))
    && (forall k :: 0 <= k < |t.events| && t.events[k].qualifying ==> Find(t.thresholds, t.events[k].user).Some?)
    && LinksAgree(t)
    && NoticesAgree(t)
  }

  lemma {:induction false} AppendOther(events: seq<Event>, e: Event, user: int)
    requires !(e.user == user && e.qualifying)
    ensures Qualifying(events + [e], user) == Qualifying(events, user)
    ensures Pairs(events + [e], user) == Pairs(events, user)
  {
    forall i | 0 <= i <= |events| ensures Counts(events + [e], user, i) <==> Counts(events, user, i) {}
    var all := events + [e];
    forall p ensures p in Pairs(all, user) <==> p in Pairs(events, user) {
      if p in Pairs(all, user) {
        var i: nat :| i < |all| && Counts(all, user, i) && p == (all[i].business, all[i].day);
        assert Counts(events, user, i);
      }
      if p in Pairs(events, user) {
        var i: nat :| i < |events| && Counts(events, user, i) && p == (events[i].business, events[i].day);
        assert Counts(all, user, i);
      }
    }
  }

  lemma {:induction false} AppendSets(events: seq<Event>, e: Event)
    requires e.qualifying
    ensures Qualifying(events + [e], e.user) == Qualifying(events, e.user) + {|events|}
    ensures Pairs(events + [e], e.user) == Pairs(events, e.user) + {(e.business, e.day)}
  {
    var all, u := events + [e], e.user;
    forall i | 0 <= i < |events| ensures Counts(all, u, i) <==> Counts(events, u, i) {}
    assert Counts(all, u, |events|);
    forall p ensures p in Pairs(all, u) <==> p in Pairs(events, u) + {(e.business, e.day)} {
      if p in Pairs(all, u) {
        var i: nat :| i < |all| && Counts(all, u, i) && p == (all[i].business, all[i].day);
      }
      if p in Pairs(events, u) {
        var i: nat :| i < |events| && Counts(events, u, i) && p == (events[i].business, events[i].day);
        assert Counts(all, u, i);
      }
      if p == (e.business, e.day) {
        assert all[|events|] == e;
      }
    }
  }

  lemma {:induction false} AppendCounted(events: seq<Event>, e: Event)
    requires e.qualifying
    ensures var all := events + [e];
            && |Qualifying(all, e.user)| == |Qualifying(events, e.user)| + 1
            && |Pairs(all, e.user)| == |Pairs(events, e.user)|
                 + (if (e.business, e.day) in Pairs(events, e.user) then 0 else 1)
            && (|OnDate(all, e.user, e.business, e.day)| <= 1 <==> (e.business, e.day) !in Pairs(events, e.user))
  {
    var all, u := events + [e], e.user;
    AppendSets(events, e);
    forall i | 0 <= i < |events| ensures Counts(all, u, i) <==> Counts(events, u, i) {}
    var before, after := OnDate(events, u, e.business, e.day), OnDate(all, u, e.business, e.day);
    assert after == before + {|events|};
    if (e.business, e.day) in Pairs(events, u) {
      var i: nat :| i < |events| && Counts(events, u, i) && (e.business, e.day) == (events[i].business, events[i].day);
      assert i in before;
      assert |before| >= 1;
      assert Pairs(all, u) == Pairs(events, u);
    } else {
      forall i: nat | i < |events| && Counts(events, u, i)
        ensures (events[i].business, events[i].day) != (e.business, e.day)
      {
        assert (events[i].business, events[i].day) in Pairs(events, u);
      }
      assert before == {};
    }
  }

  lemma {:induction false} RefuseKeepsValid(t: Tables, user: int, business: int, day: nat, nfc: bool)
    requires Valid(t)
    ensures Valid(Refuse(t, user, business, day, nfc))
    ensures Refuse(t, user, business, day, nfc).thresholds == t.thresholds
  {
    var t', e := Refuse(t, user, business, day, nfc), Event(user, business, day, nfc, false);
    forall i | 0 <= i < |t.thresholds| ensures RowAgrees(t'.events, t.thresholds[i]) {
      AppendOther(t.events, e, t.thresholds[i].user);
    }
    forall k, u ensures Counts(t'.events, u, k) <==> Counts(t.events, u, k) {}
    forall u ensures Met(t', u) <==> Met(t, u) {}
  }

  /** The row of the user after `Qualify`, and the frame for every other row. */
  lemma {:induction false} QualifyRow(t: Tables, user: int, business: int, day: nat, nfc: bool, now: nat)
    returns (id: nat)
    requires Valid(t)
    ensures var t' := Qualify(t, user, business, day, nfc, now);
            && t'.events == t.events + [Event(user, business, day, nfc, true)]
            && id < |t'.thresholds| && t'.thresholds[id].user == user
            && |t.thresholds| <= |t'.thresholds| <= |t.thresholds| + 1
            && (id < |t.thresholds| <==> |t'.thresholds| == |t.thresholds|)
            && (id < |t.thresholds| ==> t.thresholds[id].user == user)
            && (id >= |t.thresholds| ==> forall j :: 0 <= j < |t.thresholds| ==> t.thresholds[j].user != user)
            && (forall i :: 0 <= i < |t'.thresholds| && i != id ==>
                i < |t.thresholds| && t'.thresholds[i] == t.thresholds[i])
            && RowAgrees(t'.events, t'.thresholds[id])
            && t'.links == t.links + {(id, |t.events|)}
            && (id < |t.thresholds| && t.thresholds[id].metAt.Some? ==>
                  t'.thresholds[id].metAt == t.thresholds[id].metAt && t'.notices == t.notices)
            && (!(id < |t.thresholds| && t.thresholds[id].metAt.Some?) ==>
                  if t'.thresholds[id].metAt.Some? then t'.notices == t.notices + [user] else t'.notices == t.notices)
  {
    var e := Event(user, business, day, nfc, true);
    var all := t.events + [e];
    var (rows, i) := GetOrCreate(t.thresholds, user, business);
    id := i;
    AppendCounted(t.events, e);
    if i < |t.thresholds| {
      assert RowAgrees(t.events, t.thresholds[i]);
    } else {
      assert Find(t.thresholds, user).None?;
      forall k | 0 <= k < |t.events| ensures !Counts(t.events, user, k) {}
      assert Qualifying(t.events, user) == {};
      assert Pairs(t.events, user) == {};
    }
  }

  lemma {:induction false} QualifyKeepsValid(t: Tables, user: int, business: int, day: nat, nfc: bool, now: nat)
    requires Valid(t)
    ensures Valid(Qualify(t, user, business, day, nfc, now))
  {
    var t' := Qualify(t, user, business, day, nfc, now);
    var id := QualifyRow(t, user, business, day, nfc, now);
    var e := Event(user, business, day, nfc, true);
    forall i | 0 <= i < |t'.thresholds| ensures RowAgrees(t'.events, t'.thresholds[i]) {
      if i != id {
        AppendOther(t.events, e, t.thresholds[i].user);
      }
    }
    QualifyKeepsFind(t, user, business, day, nfc, now);
    QualifyKeepsLinks(t, user, business, day, nfc, now);
    QualifyKeepsNotices(t, user, business, day, nfc, now);
  }

  lemma {:induction false} QualifyKeepsFind(t: Tables, user: int, business: int, day: nat, nfc: bool, now: nat)
    requires Valid(t)
    ensures var t' := Qualify(t, user, business, day, nfc, now);
            && OneRowEach(t'.thresholds)
            && forall k :: 0 <= k < |t'.events| && t'.events[k].qualifying ==>
                 Find(t'.thresholds, t'.events[k].user).Some?
  {
    var t' := Qualify(t, user, business, day, nfc, now);
    var id := QualifyRow(t, user, business, day, nfc, now);
    forall k | 0 <= k < |t'.events| && t'.events[k].qualifying ensures Find(t'.thresholds, t'.events[k].user).Some? {
      var u := t'.events[k].user;
      if u == user {
        assert t'.thresholds[id].user == u;
      } else {
        assert t.events[k] == t'.events[k];
        var i := Find(t.thresholds, u).value;
        assert t'.thresholds[i].user == u;
      }
    }
  }

  lemma {:induction false} QualifyKeepsLinks(t: Tables, user: int, business: int, day: nat, nfc: bool, now: nat)
    requires Valid(t)
    ensures LinksAgree(Qualify(t, user, business, day, nfc, now))
  {
    var t' := Qualify(t, user, business, day, nfc, now);
    var id := QualifyRow(t, user, business, day, nfc, now);
    forall i: nat, k: nat
      ensures (i, k) in t'.links <==> i < |t'.thresholds| && Counts(t'.events, t'.thresholds[i].user, k)
    {
      if i < |t'.thresholds| {
        var u := t'.thresholds[i].user;
        if k == |t.events| {
          assert i != id ==> u != user;
        } else {
          assert Counts(t'.events, u, k) <==> Counts(t.events, u, k);
          assert i >= |t.thresholds| && k < |t.events| && t.events[k].qualifying ==> t.events[k].user != user;
        }
      }
    }
  }

  lemma {:induction false} QualifyKeepsNotices(t: Tables, user: int, business: int, day: nat, nfc: bool, now: nat)
    requires Valid(t)
    ensures NoticesAgree(Qualify(t, user, business, day, nfc, now))
  {
    var t' := Qualify(t, user, business, day, nfc, now);
    var id := QualifyRow(t, user, business, day, nfc, now);
    forall u ensures multiset(t'.notices)[u] == if Met(t', u) then 1 else 0 {
      if u != user {
        assert Met(t', u) <==> Met(t, u) by {
          if Met(t, u) {
            var i :| 0 <= i < |t.thresholds| && t.thresholds[i].user == u && t.thresholds[i].metAt.Some?;
            assert t'.thresholds[i] == t.thresholds[i];
          }
        }
      } else {
        OnlyRow(t, u, id);
        OnlyRow(t', u, id);
      }
    }
  }

  lemma {:induction false} OnlyRow(t: Tables, u: int, id: nat)
    requires forall i :: 0 <= i < |t.thresholds| && i != id ==> t.thresholds[i].user != u
    requires id < |t.thresholds| ==> t.thresholds[id].user == u
    ensures Met(t, u) <==> id < |t.thresholds| && t.thresholds[id].metAt.Some?
  {
  }

  // ---- consequences ----

  /** A met threshold stays met with the same completion time, for the same user. */
  predicate Grows(t: Tables, t': Tables) {
    && t.events <= t'.events
    && t.notices <= t'.notices
    && |t.thresholds| <= |t'.thresholds|
    && forall i :: 0 <= i < |t.thresholds| ==>
         && t'.thresholds[i].user == t.thresholds[i].user
         && t'.thresholds[i].eventCount >= t.thresholds[i].eventCount
         && (t.thresholds[i].metAt.Some? ==> t'.thresholds[i].metAt == t.thresholds[i].metAt)
  }

  lemma {:induction false} QualifyGrows(t: Tables, user: int, business: int, day: nat, nfc: bool, now: nat)
    requires Valid(t)
    ensures Grows(t, Qualify(t, user, business, day, nfc, now))
    ensures var t' := Qualify(t, user, business, day, nfc, now);
            && (NewlyMet(t, t') <==> !Met(t, user) && Met(t', user))
            && forall u :: u != user ==> (Met(t', u) <==> Met(t, u))
  {
    var t' := Qualify(t, user, business, day, nfc, now);
    var id := QualifyRow(t, user, business, day, nfc, now);
    OnlyRow(t, user, id);
    OnlyRow(t', user, id);
    forall u | u != user ensures Met(t', u) <==> Met(t, u) {
      if Met(t, u) {
        var i :| 0 <= i < |t.thresholds| && t.thresholds[i].user == u && t.thresholds[i].metAt.Some?;
        assert t'.thresholds[i] == t.thresholds[i];
      }
    }
  }

  /** A met threshold is backed by at least three qualifying events on three distinct (business, date) pairs. */
  lemma {:induction false} MetIsEarned(t: Tables, user: int)
    requires Valid(t)
    ensures Met(t, user) <==> |Qualifying(t.events, user)| >= 3 && |Pairs(t.events, user)| >= 3
    ensures multiset(t.notices)[user] == if Met(t, user) then 1 else 0
  {
    if Met(t, user) {
      var i :| 0 <= i < |t.thresholds| && t.thresholds[i].user == user && t.thresholds[i].metAt.Some?;
      assert RowAgrees(t.events, t.thresholds[i]);
    }
    if |Qualifying(t.events, user)| >= 3 && |Pairs(t.events, user)| >= 3 {
      assert exists k :: k in Qualifying(t.events, user) by { assert Qualifying(t.events, user) != {}; }
      var k :| k in Qualifying(t.events, user);
      var i := Find(t.thresholds, t.events[k].user).value;
      assert RowAgrees(t.events, t.thresholds[i]);
    }
  }

  // ---- pairs are not dates ----

  /** The distinct calendar dates of the user's qualifying events. */
  function Dates(events: seq<Event>, user: int): set<nat> {
    set i: nat | i < |events| && Counts(events, user, i) :: events[i].day
  }

  lemma {:induction false} ProjectCount(pairs: set<(int, nat)>, dates: set<nat>)
    requires forall p :: p in pairs ==> p.1 in dates
    requires forall d :: d in dates ==> exists p :: p in pairs && p.1 == d
    ensures |dates| <= |pairs|
    ensures |dates| == |pairs| <==> forall p, q :: p in pairs && q in pairs && p.1 == q.1 ==> p == q
    decreases |pairs|
  {
    if pairs == {} {
      forall d ensures d !in dates {}
      assert dates == {};
    } else {
      var p :| p in pairs;
      var rest := pairs - {p};
      if exists q :: q in rest && q.1 == p.1 {
        ProjectCount(rest, dates);
      } else {
        forall d | d in dates - {p.1} ensures exists q :: q in rest && q.1 == d {
          var q :| q in pairs && q.1 == d;
          assert q in rest;
        }
        ProjectCount(rest, dates - {p.1});
        assert |dates| == |dates - {p.1}| + 1;
        assert forall q :: q in rest ==> q.1 != p.1;
      }
    }
  }

  /**
   * `days_count` counts (business, date) pairs. It is the number of separate calendar days exactly
   * when no two businesses share a day.
   */
  lemma {:induction false} PairsAreDatesIff(t: Tables, i: nat)
    requires Valid(t) && i < |t.thresholds|
    ensures var u := t.thresholds[i].user;
            && t.thresholds[i].daysCount >= |Dates(t.events, u)|
            && (t.thresholds[i].daysCount == |Dates(t.events, u)|
                <==> (forall k, l ::
                        Counts(t.events, u, k) && Counts(t.events, u, l) && t.events[k].day == t.events[l].day ==>
                          t.events[k].business == t.events[l].business))
  {
    var u := t.thresholds[i].user;
    var pairs, dates := Pairs(t.events, u), Dates(t.events, u);
    assert RowAgrees(t.events, t.thresholds[i]);
    forall d | d in dates ensures exists p :: p in pairs && p.1 == d {
      var k: nat :| k < |t.events| && Counts(t.events, u, k) && t.events[k].day == d;
      assert (t.events[k].business, d) in pairs;
    }
    ProjectCount(pairs, dates);
    if forall p, q :: p in pairs && q in pairs && p.1 == q.1 ==> p == q {
      forall k, l | Counts(t.events, u, k) && Counts(t.events, u, l) && t.events[k].day == t.events[l].day
        ensures t.events[k].business == t.events[l].business
      {
        assert (t.events[k].business, t.events[k].day) in pairs && (t.events[l].business, t.events[l].day) in pairs;
      }
    }
  }

  /** One more qualifying event: what it adds for its user, and that it adds nothing for anyone else. */
  lemma {:induction false} QualifyAdds(t: Tables, user: int, business: int, day: nat, nfc: bool, now: nat)
    requires Valid(t)
    ensures var t' := Qualify(t, user, business, day, nfc, now);
            && Valid(t') && t'.events == t.events + [Event(user, business, day, nfc, true)]
            && |Qualifying(t'.events, user)| == |Qualifying(t.events, user)| + 1
            && Pairs(t'.events, user) == Pairs(t.events, user) + {(business, day)}
            && forall u :: u != user ==> Qualifying(t'.events, u) == Qualifying(t.events, u)
  {
    var e := Event(user, business, day, nfc, true);
    QualifyKeepsValid(t, user, business, day, nfc, now);
    AppendSets(t.events, e);
    AppendCounted(t.events, e);
    forall u | u != user ensures Qualifying(t.events + [e], u) == Qualifying(t.events, u) {
      AppendOther(t.events, e, u);
    }
    hide Valid, Qualifying, Pairs, OnDate;
  }

  predicate HadRow(t: Tables, user: int, id: nat) { id < |t.thresholds| && t.thresholds[id].user == user }

  /**
   * The user's row after a qualifying event, in full: counters equal to the log's, the time of the event, and the
   * completion time, which is kept if there was one and otherwise is now once three events on three pairs are logged.
   */
  lemma {:induction false} QualifyStamps(t: Tables, user: int, business: int, day: nat, nfc: bool, now: nat)
    returns (id: nat)
    requires Valid(t)
    ensures var t' := Qualify(t, user, business, day, nfc, now);
            && id < |t'.thresholds| && (id < |t.thresholds| ==> HadRow(t, user, id))
            && (id >= |t.thresholds| ==> id == |t.thresholds| && Find(t.thresholds, user).None?)
            && |t'.thresholds| == (if id < |t.thresholds| then |t.thresholds| else |t.thresholds| + 1)
            && (forall i :: 0 <= i < |t.thresholds| && i != id ==> t'.thresholds[i] == t.thresholds[i])
            && t'.links == t.links + {(id, |t.events|)}
            && var events, pairs := |Qualifying(t'.events, user)|, |Pairs(t'.events, user)|;
               && t'.thresholds[id] == Threshold(
                    user, if HadRow(t, user, id) then t.thresholds[id].business else business, events, pairs,
                    Some(Micros(now)),
                    if HadRow(t, user, id) && t.thresholds[id].metAt.Some? then t.thresholds[id].metAt
                    else if events >= 3 && pairs >= 3 then Some(Micros(now)) else None)
               && t'.notices == if !Met(t, user) && events >= 3 && pairs >= 3 then t.notices + [user] else t.notices
  {
    id := QualifyRow(t, user, business, day, nfc, now);
    OnlyRow(t, user, id);
    QualifyFields(t, user, business, day, nfc, now);
    hide Valid, Qualify, Met, Qualifying, Pairs, Find;
    assert Find(t.thresholds, user) == if id < |t.thresholds| then Some(id) else None by { FindOnly(t, user, id); }
  }

  lemma {:induction false} FindOnly(t: Tables, user: int, id: nat)
    requires forall i :: 0 <= i < |t.thresholds| && i != id ==> t.thresholds[i].user != user
    requires id < |t.thresholds| ==> t.thresholds[id].user == user
    ensures Find(t.thresholds, user) == if id < |t.thresholds| then Some(id) else None
  {
    hide Find;
  }

  lemma {:induction false} QualifyFields(t: Tables, user: int, business: int, day: nat, nfc: bool, now: nat)
    ensures var t', found := Qualify(t, user, business, day, nfc, now), Find(t.thresholds, user);
            var id := if found.Some? then found.value else |t.thresholds|;
            && id < |t'.thresholds|
            && t'.thresholds[id].business == (if found.Some? then t.thresholds[id].business else business)
            && t'.thresholds[id].lastAt == Some(Micros(now))
            && (t'.thresholds[id].metAt.Some? && !(found.Some? && t.thresholds[id].metAt.Some?) ==>
                  t'.thresholds[id].metAt == Some(Micros(now)))
  {
    hide OnDate, Find;
  }

  /** Three qualifying events at three businesses on one day complete the presence of a user who had none. */
  lemma {:induction false} ThreeEvents(t: Tables, user: int, day: nat, nfc: bool, now: nat)
    returns (t1: Tables, t2: Tables, t3: Tables)
    requires Valid(t) && Qualifying(t.events, user) == {}
    ensures t1 == Qualify(t, user, 1, day, nfc, now) && t2 == Qualify(t1, user, 2, day, nfc, now)
         && t3 == Qualify(t2, user, 3, day, nfc, now)
    ensures !NewlyMet(t, t1) && !NewlyMet(t1, t2) && NewlyMet(t2, t3) && Met(t3, user) && Grows(t, t3) && Valid(t3)
    ensures |t3.events| == |t.events| + 3 && t.events <= t3.events
    ensures forall i :: |t.events| <= i < |t3.events| ==> t3.events[i].day == day
    ensures forall u :: u != user ==> Qualifying(t3.events, u) == Qualifying(t.events, u)
  {
    hide Qualify, Met, Valid, NewlyMet, Qualifying, Pairs, Grows;
    t1 := Qualify(t, user, 1, day, nfc, now);
    QualifyAdds(t, user, 1, day, nfc, now);
    QualifyGrows(t, user, 1, day, nfc, now);
    t2 := Qualify(t1, user, 2, day, nfc, now);
    QualifyAdds(t1, user, 2, day, nfc, now);
    QualifyGrows(t1, user, 2, day, nfc, now);
    t3 := Qualify(t2, user, 3, day, nfc, now);
    QualifyAdds(t2, user, 3, day, nfc, now);
    QualifyGrows(t2, user, 3, day, nfc, now);
    GrowsTrans(t, t1, t2);
    GrowsTrans(t, t2, t3);
    NoEventsNoPairs(t.events, user);
    MetIsEarned(t, user);
    MetIsEarned(t1, user);
    MetIsEarned(t2, user);
    assert Pairs(t3.events, user) == {(1, day), (2, day), (3, day)};
    MetIsEarned(t3, user);
  }

  lemma {:induction false} GrowsTrans(a: Tables, b: Tables, c: Tables)
    requires Grows(a, b) && Grows(b, c)
    ensures Grows(a, c)
  {
  }

  lemma {:induction false} NoEventsNoPairs(events: seq<Event>, user: int)
    requires Qualifying(events, user) == {}
    ensures Pairs(events, user) == {}
  {
    forall i: nat | i < |events| ensures !Counts(events, user, i) {
      assert i !in Qualifying(events, user);
    }
  }

  /** Three qualifying taps at three businesses on one single day meet the threshold. */
  lemma {:induction false} OneDayCanSuffice(user: int, day: nat, nfc: bool, now: nat)
    returns (t1: Tables, t2: Tables, t: Tables)
    ensures t1 == Qualify(EMPTY, user, 1, day, nfc, now) && t2 == Qualify(t1, user, 2, day, nfc, now)
         && t == Qualify(t2, user, 3, day, nfc, now)
    ensures !NewlyMet(EMPTY, t1) && !NewlyMet(t1, t2) && NewlyMet(t2, t)
    ensures Valid(t) && Met(t, user) && forall d :: d in Dates(t.events, user) ==> d == day
  {
    assert Valid(EMPTY) by { assert forall u :: !Met(EMPTY, u); }
    hide Qualify, Met, Valid, NewlyMet;
    t1, t2, t := ThreeEvents(EMPTY, user, day, nfc, now);
  }
}
