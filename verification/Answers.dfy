/**
 * What each request is answered: every check with its error, in the order the service makes them, over the
 * rows as they are stored. `None` is acceptance.
 */
module Answers {
  import opened Common
  import opened Payloads
  import opened Platform
  import opened Reviewers
  import opened Safety
  import opened Text
  import A = Attestations
  import E = Ed25519
  import O = Orders
  import P = Presence
  import S = Soultokens

  predicate Known(s: State, uid: int) { uid in s.users && !s.users[uid].deleted }

  lemma {:induction false} IdentityAnswer(w: World, s: State, uid: int, session: string)
    ensures Refusal(Exec(w, s, CmdVerifyIdentity(uid, session)))
            == if !Known(s, uid) then Some(Unauthorized)
               else if s.users[uid].banned then Some(Forbidden)
               else if s.users[uid].status != Registered then Some(Conflict)
               else if exists i :: 0 <= i < |s.credentials| && s.credentials[i].session == session then Some(Conflict)
               else None
  {
  }

  // ---- presence ----

  /** Presence is closed to unknown, banned, attested and cleared users. */
  function PresenceClosed(s: State, uid: int): Option<Error> {
    if !Known(s, uid) then Some(Unauthorized)
    else if s.users[uid].banned then Some(Forbidden)
    else if s.users[uid].status in {Attested, Cleared} then Some(Conflict)
    else None
  }

  lemma {:induction false} DwellAnswer(w: World, s: State, uid: int, dwell: DwellRequest, gate: Option<Error>,
                                       beacon: Option<Beacon>)
    ensures Refusal(Exec(w, s, CmdDwell(uid, dwell, gate, beacon)))
            == if gate.Some? then gate
               else if PresenceClosed(s, uid).Some? then PresenceClosed(s, uid)
               else if beacon.None? then Some(NotFound)
               else if beacon.value.business != Some(dwell.business) then Some(InvalidInput)
               else None
  {
    hide Witness, P.Qualify, P.Refuse, WithPresence;
  }

  lemma {:induction false} TapAnswer(w: World, s: State, uid: int, boxId: nat, business: int, hmac: string,
                                     gate: Option<Error>, secret: Option<string>)
    ensures Refusal(Exec(w, s, CmdNfcTap(uid, boxId, business, hmac, gate, secret)))
            == if gate.Some? then gate
               else if PresenceClosed(s, uid).Some? then PresenceClosed(s, uid)
               else if boxId >= |s.orders.boxes| then Some(NotFound)
               else if s.orders.boxes[boxId].activatedAt.None? then Some(InvalidInput)
               else if s.orders.boxes[boxId].expiresAt.Some? && s.clock > s.orders.boxes[boxId].expiresAt.value
               then Some(InvalidInput)
               else if s.orders.boxes[boxId].tappedBy.Some? then Some(Conflict)
               else None
  {
    hide Witness, P.Qualify, P.Refuse, WithPresence, O.Tapped;
  }

  // ---- attestation ----

  /** Two eligible reviewers who have co-signed at most three visits in the last week. */
  predicate PairFits(sigs: Signatures, roles: seq<RoleRow>, staff: int, location: int, now: nat, a: int, b: int) {
    && a < b && Eligible(roles, staff, location, now, a) && Eligible(roles, staff, location, now, b)
    && Cosigns(sigs, a, b, now) <= 3
  }

  lemma {:induction false} InitiateAnswer(w: World, s: State, uid: int, init: InitiateRequest, visit: Option<Visit>,
                                          roles: seq<RoleRow>)
    ensures Refusal(Exec(w, s, CmdInitiate(uid, init, visit, roles)))
            == if visit.None? then Some(NotFound)
               else if !visit.value.inProgress then Some(Conflict)
               else if visit.value.staff != uid then Some(Forbidden)
               else if !Known(s, init.user) then Some(NotFound)
               else if s.users[init.user].status != PresenceConfirmed then Some(InvalidInput)
               else if init.threshold >= |s.presence.thresholds|
                       || s.presence.thresholds[init.threshold].user != init.user
                       || s.presence.thresholds[init.threshold].metAt.None?
               then Some(InvalidInput)
               else if exists i :: 0 <= i < |s.attestations| && s.attestations[i].visit == init.visit
                                   && s.attestations[i].user == init.user && s.attestations[i].status != A.Rejected
               then Some(Conflict)
               else if init.photoUri && init.photoHash.None? then Some(InvalidInput)
               else if init.photoHash.Some? && !A.IsSha256Hex(init.photoHash.value) then Some(InvalidInput)
               else if !exists a, b ::
                         PairFits(s.sigs, roles, uid, visit.value.location, Micros(s.clock), a, b)
               then Some(InvalidInput)
               else None
  {
    if visit.Some? {
      PairExistsIff(s.sigs, roles, uid, visit.value.location, Micros(s.clock));
    }
    hide A.IsSha256Hex, Assign, PairFits;
  }

  lemma {:induction false} PairExistsIff(sigs: Signatures, roles: seq<RoleRow>, staff: int, location: int, now: nat)
    ensures var r := Assign(sigs, roles, staff, location, now);
            && (r.Ok? <==> exists a, b :: PairFits(sigs, roles, staff, location, now, a, b))
            && (r.Err? ==> r.error == InvalidInput)
  {
    hide Eligible, Cosigns, Candidates, FirstPair;
    AssignFailsIff(sigs, roles, staff, location, now);
    forall a, b | PairFits(sigs, roles, staff, location, now, a, b)
      ensures Assign(sigs, roles, staff, location, now).Ok?
    {
    }
    if Assign(sigs, roles, staff, location, now).Ok? {
      AssignSound(sigs, roles, staff, location, now);
      var (a, b, _) := Assign(sigs, roles, staff, location, now).value;
      assert PairFits(sigs, roles, staff, location, now, a, b);
    }
  }

  lemma {:induction false} StaffSignAnswer(w: World, s: State, id: nat, uid: int, req: SignRequest)
    ensures Refusal(Exec(w, s, CmdStaffSign(id, uid, req)))
            == if id >= |s.attestations| then Some(NotFound)
               else
                 var row := s.attestations[id];
                 var hash := if req.photoHash.Some? then req.photoHash else row.photoHash;
                 if row.status != A.Pending then Some(Conflict)
                 else if row.staff != uid then Some(Forbidden)
                 else if E.Verify(w.primitives, req.keyHex, AttestationPayload(id, row.visit, row.user, hash),
                                  req.signature)
                         != E.Checked(true)
                 then Some(InvalidInput)
                 else None
  {
    hide E.Verify, E.EncodeRecord, AttestationPayload;
  }

  /** A partner's earlier signature counts only if it verifies over this attestation's payload. */
  lemma {:induction false} ReviewerSignAnswer(w: World, s: State, id: nat, uid: int, req: SignRequest)
    requires Inv(w, s)
    ensures Refusal(Exec(w, s, CmdReviewerSign(id, uid, req)))
            == if id >= |s.attestations| then Some(NotFound)
               else
                 var row := s.attestations[id];
                 var payload := AttestationPayload(id, row.visit, row.user, row.photoHash);
                 var partner := if uid == row.reviewer1 then row.reviewer2 else row.reviewer1;
                 if row.status != A.CoSignPending then Some(Conflict)
                 else if uid != row.reviewer1 && uid != row.reviewer2 then Some(Forbidden)
                 else if row.deadline.Some? && row.deadline.value < s.clock then Some(Conflict)
                 else if E.Verify(w.primitives, req.keyHex, payload, req.signature) != E.Checked(true)
                 then Some(InvalidInput)
                 else if (row.visit, uid) in s.sigs then Some(Conflict)
                 else if (row.visit, partner) in s.sigs
                         && !E.RecordVerifies(w.primitives, s.sigs[(row.visit, partner)].record, payload)
                 then Some(InvalidInput)
                 else None
  {
    hide AttestationPayload, E.Verify, RecordsVerify, E.RecordVerifies, E.EncodeRecord;
    if id < |s.attestations| {
      var row := s.attestations[id];
      assert A.RowValid(w.primitives, s.sigs, id, row);
      hide Inv;
      if A.AssignedTo(row, uid)
         && E.Verify(w.primitives, req.keyHex, A.Payload(id, row), req.signature) == E.Checked(true) {
        BothDecide(w, s, id, uid, req);
      }
    }
  }

  /** Once the request itself verifies, the two records verify together iff the partner's does. */
  lemma {:induction false} BothDecide(w: World, s: State, id: nat, uid: int, req: SignRequest)
    requires id < |s.attestations|
    requires var row := s.attestations[id]; row.reviewer1 != row.reviewer2 && A.AssignedTo(row, uid)
    requires E.Verify(w.primitives, req.keyHex, A.Payload(id, s.attestations[id]), req.signature) == E.Checked(true)
    ensures var row := s.attestations[id];
            var partner := if uid == row.reviewer1 then row.reviewer2 else row.reviewer1;
            var both := A.BothRecords(s.sigs[(row.visit, uid) := NewSignature(row, req, s.clock)], row.visit,
                                      row.reviewer1, row.reviewer2);
            && (both.Some? <==> (row.visit, partner) in s.sigs)
            && (both.Some? ==>
                  (RecordsVerify(w, both.value, A.Payload(id, row))
                   <==> E.RecordVerifies(w.primitives, s.sigs[(row.visit, partner)].record, A.Payload(id, row))))
  {
    hide A.Payload, E.Verify, RecordsVerify, E.RecordVerifies, E.EncodeRecord;
    var row := s.attestations[id];
    var both := A.BothRecords(s.sigs[(row.visit, uid) := NewSignature(row, req, s.clock)], row.visit,
                              row.reviewer1, row.reviewer2);
    A.RecordOfVerified(w.primitives, req.keyHex, A.Payload(id, row), req.signature);
    if both.Some? {
      if RecordsVerify(w, both.value, A.Payload(id, row)) {
        RecordsVerified(w, both.value, A.Payload(id, row));
      }
      if E.RecordVerifies(w.primitives, both.value.0, A.Payload(id, row))
         && E.RecordVerifies(w.primitives, both.value.1, A.Payload(id, row)) {
        BothVerify(w, both.value, A.Payload(id, row));
      }
    }
  }

  lemma {:induction false} RejectAnswer(w: World, s: State, id: nat, uid: int)
    ensures Refusal(Exec(w, s, CmdReject(id, uid)))
            == if id >= |s.attestations| then Some(NotFound)
               else if s.attestations[id].status in {A.Approved, A.Rejected} then Some(Conflict)
               else if uid !in {s.attestations[id].reviewer1, s.attestations[id].reviewer2} then Some(Forbidden)
               else None
  {
  }

  // ---- soultokens ----

  /** The user holds no unrevoked, unexpired token of the user kind. */
  predicate NoneLive(s: State, uid: int) {
    forall i :: 0 <= i < |s.tokens| && s.tokens[i].holder == uid && s.tokens[i].kind == "user" ==>
      s.tokens[i].revokedAt.Some? || s.tokens[i].expiresAt <= Micros(s.clock)
  }

  lemma {:induction false} IssueAnswer(w: World, s: State, uid: int, attestation: nat, kind: string, uuid: S.Uuid)
    ensures Refusal(Exec(w, s, CmdIssue(uid, attestation, kind, uuid)))
            == if !Known(s, uid) then Some(Unauthorized)
               else if s.users[uid].status != Attested then Some(InvalidInput)
               else if !NoneLive(s, uid) then Some(Conflict)
               else if attestation >= |s.attestations| || s.attestations[attestation].status != A.Approved
               then Some(InvalidInput)
               else None
  {
    LiveFound(s, uid);
    hide S.FindLive, S.Issued, NoneLive;
  }

  lemma {:induction false} LiveFound(s: State, uid: int)
    ensures S.FindLive(s.tokens, uid, s.clock).None? <==> NoneLive(s, uid)
  {
    forall i | 0 <= i < |s.tokens|
      ensures S.Live(s.tokens[i], uid, s.clock)
         <==> s.tokens[i].holder == uid && s.tokens[i].kind == "user"
              && !(s.tokens[i].revokedAt.Some? || s.tokens[i].expiresAt <= Micros(s.clock))
    {
    }
  }

  lemma {:induction false} RevokeAnswer(w: World, s: State, id: nat, uid: int, reason: string, roles: seq<RoleRow>)
    ensures Refusal(Exec(w, s, CmdRevoke(id, uid, reason, roles)))
            == if !Known(s, uid) then Some(Unauthorized)
               else if !s.users[uid].admin && !HasRole(roles, uid, AttestationReviewer, Micros(s.clock))
               then Some(Forbidden)
               else if id >= |s.tokens| then Some(NotFound)
               else if s.tokens[id].revokedAt.Some? then Some(Conflict)
               else if reason !in {"stripe_flag", "staff_rescission", "platform_ban"} then Some(InvalidInput)
               else None
  {
    hide HasRole;
  }

  lemma {:induction false} SurrenderAnswer(w: World, s: State, id: nat, uid: int, visitExists: bool, witnessedBy: int,
                                           roles: seq<RoleRow>)
    ensures Refusal(Exec(w, s, CmdSurrender(id, uid, visitExists, witnessedBy, roles)))
            == if id >= |s.tokens| then Some(NotFound)
               else if s.tokens[id].holder != uid then Some(Forbidden)
               else if s.tokens[id].revokedAt.Some? then Some(Conflict)
               else if !visitExists || !HasRole(roles, witnessedBy, DeliveryStaff, Micros(s.clock))
               then Some(InvalidInput)
               else None
  {
    hide HasRole;
  }

  lemma {:induction false} RenewAnswer(w: World, s: State, uid: int)
    ensures Refusal(Exec(w, s, CmdRenew(uid))) == if NoneLive(s, uid) then Some(NotFound) else None
  {
    LiveFound(s, uid);
    hide S.FindLive, S.Renewed, NoneLive;
  }

  // ---- orders ----

  lemma {:induction false} CreateOrderAnswer(w: World, s: State, uid: int, business: int, active: Option<bool>,
                                             boxCount: int, amount: int)
    ensures Refusal(Exec(w, s, CmdCreateOrder(uid, business, active, boxCount, amount)))
            == if !Known(s, uid) then Some(Unauthorized)
               else if s.users[uid].banned then Some(Forbidden)
               else if active.None? then Some(NotFound)
               else if active == Some(false) || boxCount <= 0 || amount <= 0 then Some(InvalidInput)
               else None
  {
  }

  lemma {:induction false} ActivateBoxAnswer(w: World, s: State, uid: int, visit: int, visitExists: bool, chip: string,
                                             expiresAt: nat, roles: seq<RoleRow>)
    ensures Refusal(Exec(w, s, CmdActivateBox(uid, visit, visitExists, chip, expiresAt, roles)))
            == if !HasRole(roles, uid, DeliveryStaff, Micros(s.clock)) then Some(Forbidden)
               else if !visitExists then Some(NotFound)
               else None
  {
    hide HasRole;
  }

  /** An order this collection could settle: pending, of the user, at a business where the box is. */
  predicate Collectable(o: O.Order, uid: int, businesses: set<int>) {
    o.status == O.Pending && o.user == uid && o.business in businesses
  }

  lemma {:induction false} CollectAnswer(w: World, s: State, uid: int, chip: string, businesses: set<int>)
    requires O.Valid(s.orders)
    ensures var boxes, orders, found := s.orders.boxes, s.orders.orders, O.FindBox(s.orders.boxes, chip);
            Refusal(Exec(w, s, CmdCollect(uid, chip, businesses)))
            == if !Known(s, uid) then Some(Unauthorized)
               else if s.users[uid].banned then Some(Forbidden)
               else if forall i :: 0 <= i < |boxes| ==> boxes[i].chip != chip then Some(NotFound)
               else if boxes[found.value].activatedAt.None? then Some(InvalidInput)
               else if boxes[found.value].expiresAt.Some? && s.clock > boxes[found.value].expiresAt.value
               then Some(InvalidInput)
               else if boxes[found.value].tappedBy.Some? then Some(Conflict)
               else if forall i :: 0 <= i < |orders| ==> !Collectable(orders[i], uid, businesses) then Some(NotFound)
               else None
  {
    hide O.FindBox, O.FindPending;
  }

  lemma {:induction false} CancelAnswer(w: World, s: State, id: nat, uid: int)
    ensures Refusal(Exec(w, s, CmdCancel(id, uid)))
            == if id >= |s.orders.orders| then Some(NotFound)
               else if s.orders.orders[id].user != uid then Some(Forbidden)
               else if s.orders.orders[id].status in {O.Collected, O.Cancelled} then Some(Conflict)
               else None
  {
  }

  /** A refused command leaves everything but the clock as it was; no command turns the clock back. */
  lemma {:induction false} StepAnswer(w: World, s: State, t: Timed)
    ensures var now := s.(clock := s.clock + t.delay);
            Step(w, s, t) == match Exec(w, now, t.cmd)
                             case Ok(after) => after
                             case Err(_) => now
    ensures Step(w, s, t).clock == s.clock + t.delay
  {
    hide Exec;
    var now := s.(clock := s.clock + t.delay);
    if Exec(w, now, t.cmd).Ok? {
      ClockStays(w, now, t.cmd);
    }
  }

  lemma {:induction false} ClockStays(w: World, s: State, cmd: Command)
    requires Exec(w, s, cmd).Ok?
    ensures Exec(w, s, cmd).value.clock == s.clock
  {
    hide RecordsVerify, A.Payload, E.Verify, E.EncodeRecord, S.FindLive, S.Issued, S.Renewed, P.Qualify, P.Refuse,
         Witness, Assign, A.IsSha256Hex, O.Collect, O.Cancel, O.Activated, O.TapCheck, HasRole, P.NewlyMet,
         FindUser, HasActive, ThresholdProblem, SignRefused, A.BothRecords;
  }
}
