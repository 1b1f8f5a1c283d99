/** BFIP section 6.5: choosing the two reviewers of an attestation. */
module Reviewers {
  import opened Common

  datatype Role = DeliveryStaff | AttestationReviewer

  /** A `staff_roles` row. */
  datatype RoleRow = RoleRow(user: int, role: Role, location: Option<int>, grantedAt: nat,
                             expiresAt: Option<nat>, revoked: bool)

  /** A `visit_signatures` row, keyed by visit and reviewer. */
  datatype SignatureRow = SignatureRow(record: string, evidence: string, deadline: nat, signedAt: nat)

  type Signatures = map<(int, int), SignatureRow>

  /** A held role that has neither been revoked nor expired at database time `now`. */
  predicate Holds(row: RoleRow, user: int, role: Role, now: nat) {
    row.user == user && row.role == role && !row.revoked
    && (row.expiresAt.None? || row.expiresAt.value > now)
  }

  predicate HasRole(roles: seq<RoleRow>, user: int, role: Role, now: nat) {
    exists i :: 0 <= i < |roles| && Holds(roles[i], user, role, now)
  }

  /** An unrevoked role at the location granted in the last 30 days excludes a candidate. */
  predicate WorkedThere(roles: seq<RoleRow>, user: int, location: int, now: nat) {
    exists i :: 0 <= i < |roles| && roles[i].user == user && roles[i].location == Some(location)
                && !roles[i].revoked && roles[i].grantedAt + 30 * DAY > now
  }

  predicate Eligible(roles: seq<RoleRow>, staff: int, location: int, now: nat, user: int) {
    HasRole(roles, user, AttestationReviewer, now) && user != staff && !WorkedThere(roles, user, location, now)
  }

  /** A role is held iff some row of it is neither revoked nor expired. */
  lemma {:induction false} HasRoleIff(roles: seq<RoleRow>, user: int, role: Role, now: nat)
    ensures HasRole(roles, user, role, now)
       <==> exists i :: 0 <= i < |roles| && roles[i].user == user && roles[i].role == role
                        && !roles[i].revoked && (roles[i].expiresAt.Some? ==> now < roles[i].expiresAt.value)
  {
    if i :| 0 <= i < |roles| && roles[i].user == user && roles[i].role == role
            && !roles[i].revoked && (roles[i].expiresAt.Some? ==> now < roles[i].expiresAt.value) {
      assert Holds(roles[i], user, role, now);
    }
  }

  /**
   * A user may review a visit iff they hold the reviewer role, are not its staff, and every unrevoked role they were
   * ever granted at its location was granted at least 30 days ago.
   */
  lemma {:induction false} EligibleIff(roles: seq<RoleRow>, staff: int, location: int, now: nat, user: int)
    ensures Eligible(roles, staff, location, now, user)
       <==> && user != staff && HasRole(roles, user, AttestationReviewer, now)
            && forall row :: row in roles && row.user == user && row.location == Some(location) && !row.revoked ==>
                 row.grantedAt + 30 * 86_400 * SECOND <= now
  {
    hide HasRole;
    if i :| 0 <= i < |roles| && roles[i].user == user && roles[i].location == Some(location) && !roles[i].revoked
            && roles[i].grantedAt + 30 * DAY > now {
      assert roles[i] in roles;
    }
  }

  predicate Ascending(ids: seq<int>) {
    forall i, j :: 0 <= i < j < |ids| ==> ids[i] < ids[j]
  }

  function InsertDistinct(ids: seq<int>, x: int): (r: seq<int>)
    requires Ascending(ids)
    ensures Ascending(r)
    ensures forall y :: y in r <==> y in ids || y == x
  {
    if ids == [] then [x]
    else if x < ids[0] then [x] + ids
    else if x == ids[0] then ids
    else
      var rest := InsertDistinct(ids[1..], x);
      assert forall y :: y in ids[1..] ==> exists k :: 1 <= k < |ids| && ids[k] == y;
      assert forall k :: 0 <= k < |rest| ==> rest[k] in rest;
      [ids[0]] + rest
  }

  function CandidatesFrom(rows: seq<RoleRow>, roles: seq<RoleRow>, staff: int, location: int, now: nat): (ids: seq<int>)
    ensures Ascending(ids)
    ensures forall u :: u in ids <==>
              exists i :: 0 <= i < |rows| && rows[i].user == u && Eligible(roles, staff, location, now, u)
  {
    if rows == [] then []
    else
      var last := rows[|rows| - 1].user;
      var rest := CandidatesFrom(rows[..|rows| - 1], roles, staff, location, now);
      if Eligible(roles, staff, location, now, last) then InsertDistinct(rest, last) else rest
  }

  /** `SELECT DISTINCT user_id … ORDER BY user_id` */
  function Candidates(roles: seq<RoleRow>, staff: int, location: int, now: nat): (ids: seq<int>)
    ensures Ascending(ids)
    ensures forall u :: u in ids <==> Eligible(roles, staff, location, now, u)
  {
    CandidatesFrom(roles, roles, staff, location, now)
  }

  /** Visits both reviewers signed, the first of them within the last 7 days. */
  function CosignedVisits(sigs: Signatures, r1: int, r2: int, now: nat): set<int> {
    set k <- sigs.Keys | k.1 == r1 && (k.0, r2) in sigs && sigs[k].signedAt + 7 * DAY > now :: k.0
  }

  /** The self-join count; (visit, reviewer) is unique, so it counts visits. */
  function Cosigns(sigs: Signatures, r1: int, r2: int, now: nat): nat {
    |CosignedVisits(sigs, r1, r2, now)|
  }

  /** A visit counts for a pair iff both signed it, the first of them less than a week ago. */
  lemma {:induction false} CosignedIff(sigs: Signatures, r1: int, r2: int, now: nat, visit: int)
    ensures visit in CosignedVisits(sigs, r1, r2, now)
       <==> (visit, r1) in sigs && (visit, r2) in sigs && sigs[(visit, r1)].signedAt + 7 * 86_400 * SECOND > now
    ensures Cosigns(sigs, r1, r2, now) == |CosignedVisits(sigs, r1, r2, now)|
  {
    if (visit, r1) in sigs {
      assert (visit, r1) in sigs.Keys;
    }
  }

  predicate PairAllowed(sigs: Signatures, ids: seq<int>, i: nat, j: nat, now: nat)
    requires i < j < |ids|
  {
    Cosigns(sigs, ids[i], ids[j], now) <= 3
  }

  /** Position order of pairs: the order of the nested loops. */
  predicate Before(i: int, j: int, i': int, j': int) { i < i' || (i == i' && j < j') }

  /** The first allowed pair of positions from (i, j) on. */
  function FirstPair(sigs: Signatures, ids: seq<int>, i: nat, j: nat, now: nat): Option<(nat, nat)>
    requires i < j
    decreases |ids| - i, |ids| - j
  {
    if i >= |ids| then None
    else if j >= |ids| then FirstPair(sigs, ids, i + 1, i + 2, now)
    else if PairAllowed(sigs, ids, i, j, now) then Some((i, j))
    else FirstPair(sigs, ids, i, j + 1, now)
  }

  /** It is allowed and nothing allowed precedes it; without one, no pair is allowed. */
  lemma {:induction false} FirstPairIsFirst(sigs: Signatures, ids: seq<int>, i: nat, j: nat, now: nat)
    requires i < j
    ensures var r := FirstPair(sigs, ids, i, j, now);
            && (r.Some? ==> r.value.0 < r.value.1 < |ids| && PairAllowed(sigs, ids, r.value.0, r.value.1, now))
            && forall k, l :: 0 <= k < l < |ids| && !Before(k, l, i, j) && PairAllowed(sigs, ids, k, l, now)
                              ==> r.Some? && !Before(k, l, r.value.0, r.value.1)
    decreases |ids| - i, |ids| - j
  {
    if i < |ids| {
      if j >= |ids| {
        FirstPairIsFirst(sigs, ids, i + 1, i + 2, now);
      } else if !PairAllowed(sigs, ids, i, j, now) {
        FirstPairIsFirst(sigs, ids, i, j + 1, now);
      }
    }
  }

  function Chosen(sigs: Signatures, ids: seq<int>, now: nat): Result<(int, int, nat)> {
    FirstPairIsFirst(sigs, ids, 0, 1, now);
    match FirstPair(sigs, ids, 0, 1, now)
    case None => Err(InvalidInput)
    case Some((i, j)) => Ok((ids[i], ids[j], Cosigns(sigs, ids[i], ids[j], now)))
  }

  /** The nested search over the candidate list. */
  method SearchPair(sigs: Signatures, ids: seq<int>, now: nat) returns (r: Result<(int, int, nat)>)
    ensures r == Chosen(sigs, ids, now)
  {
    if |ids| < 2 {
      FirstPairIsFirst(sigs, ids, 0, 1, now);
      return Err(InvalidInput);
    }
    for i := 0 to |ids|
      invariant FirstPair(sigs, ids, 0, 1, now) == FirstPair(sigs, ids, i, i + 1, now)
    {
      for j := i + 1 to |ids|
        invariant FirstPair(sigs, ids, 0, 1, now) == FirstPair(sigs, ids, i, j, now)
      {
        var cosigns := Cosigns(sigs, ids[i], ids[j], now);
        if cosigns <= 3 {
          return Ok((ids[i], ids[j], cosigns));
        }
      }
    }
    return Err(InvalidInput);
  }

  /** `assign_reviewers_for_visit` */
  function Assign(sigs: Signatures, roles: seq<RoleRow>, staff: int, location: int, now: nat): Result<(int, int, nat)> {
    Chosen(sigs, Candidates(roles, staff, location, now), now)
  }

  /** The assigned pair is eligible, in ascending order, and under the co-sign limit. */
  lemma {:induction false} AssignSound(sigs: Signatures, roles: seq<RoleRow>, staff: int, location: int, now: nat)
    requires Assign(sigs, roles, staff, location, now).Ok?
    ensures var (r1, r2, n) := Assign(sigs, roles, staff, location, now).value;
            && Eligible(roles, staff, location, now, r1) && Eligible(roles, staff, location, now, r2)
            && r1 < r2 && r1 != staff && r2 != staff && n == Cosigns(sigs, r1, r2, now) <= 3
  {
    var ids := Candidates(roles, staff, location, now);
    FirstPairIsFirst(sigs, ids, 0, 1, now);
    var (k, l) := FirstPair(sigs, ids, 0, 1, now).value;
    assert ids[k] in ids && ids[l] in ids;
  }

  /**
   * Complete and lexicographically first: any two eligible reviewers within the limit guarantee an
   * assignment, and none of them precedes the pair assigned.
   */
  lemma {:induction false} AssignComplete(sigs: Signatures, roles: seq<RoleRow>, staff: int, location: int, now: nat,
                                          a: int, b: int)
    requires a < b && Eligible(roles, staff, location, now, a) && Eligible(roles, staff, location, now, b)
    requires Cosigns(sigs, a, b, now) <= 3
    ensures var r := Assign(sigs, roles, staff, location, now);
            r.Ok? && (r.value.0 < a || (r.value.0 == a && r.value.1 <= b))
  {
    var ids := Candidates(roles, staff, location, now);
    assert a in ids && b in ids;
    var k :| 0 <= k < |ids| && ids[k] == a;
    var l :| 0 <= l < |ids| && ids[l] == b;
    assert k < l;
    FirstPairIsFirst(sigs, ids, 0, 1, now);
    assert PairAllowed(sigs, ids, k, l, now);
    var (i, j) := FirstPair(sigs, ids, 0, 1, now).value;
    assert !Before(k, l, i, j);
  }

  /** Assignment fails exactly when fewer than two reviewers are eligible or every eligible pair is over the limit. */
  lemma {:induction false} AssignFailsIff(sigs: Signatures, roles: seq<RoleRow>, staff: int, location: int, now: nat)
    ensures Assign(sigs, roles, staff, location, now).Err?
       <==> forall a, b :: Eligible(roles, staff, location, now, a) && Eligible(roles, staff, location, now, b) && a < b
                           ==> Cosigns(sigs, a, b, now) > 3
  {
    if Assign(sigs, roles, staff, location, now).Ok? {
      AssignSound(sigs, roles, staff, location, now);
    } else {
      forall a, b | Eligible(roles, staff, location, now, a) && Eligible(roles, staff, location, now, b) && a < b
        ensures Cosigns(sigs, a, b, now) > 3
      {
        if Cosigns(sigs, a, b, now) <= 3 {
          AssignComplete(sigs, roles, staff, location, now, a, b);
        }
      }
    }
  }
}
