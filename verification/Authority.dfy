/** Who may change which row: for every command of the platform, what a change of a table shows about its cause. */
module Authority {
  import opened Common
  import opened Platform
  import opened Reviewers
  import opened Safety
  import A = Attestations
  import E = Ed25519
  import O = Orders
  import P = Presence
  import S = Soultokens

  predicate IsAttested(s: State, u: int) { u in s.users && s.users[u].status == Attested }

  /** An attestation row changes only by its own staff, or by an assigned reviewer in time, and only forward. */
  predicate RowChange(s: State, cmd: Command, i: nat, row: A.Row, row': A.Row) {
    || row' == row
    || (cmd.CmdStaffSign? && cmd.id == i && cmd.uid == row.staff && row.status == A.Pending &&
        row'.status == A.CoSignPending)
    || (cmd.CmdReviewerSign? && cmd.id == i && A.AssignedTo(row, cmd.uid) && row.status == A.CoSignPending
        && row' == row.(status := A.Approved) && (row.deadline.Some? ==> s.clock <= row.deadline.value))
    || (cmd.CmdReject? && cmd.id == i && A.AssignedTo(row, cmd.uid) && A.Open(row) &&
        row' == row.(status := A.Rejected))
  }

  lemma {:induction false} RowAuthority(w: World, s: State, cmd: Command, i: nat)
    requires Exec(w, s, cmd).Ok? && i < |s.attestations|
    ensures var s' := Exec(w, s, cmd).value;
            i < |s'.attestations| && RowChange(s, cmd, i, s.attestations[i], s'.attestations[i])
  {
    hide RecordsVerify, A.Payload, E.Verify, E.EncodeRecord, S.FindLive, S.Issued, S.Renewed, P.Qualify, P.Refuse,
         Witness,
         Assign, A.IsSha256Hex, O.Collect, O.Cancel, O.Activated, O.TapCheck, HasRole, P.NewlyMet;
  }

  /**
   * A stored token is renewed only by its holder while it is live, and revoked only by an administrator or
   * attestation staff, or by its holder before delivery staff; each leaves exactly the row of that operation.
   */
  predicate TokenChange(w: World, s: State, cmd: Command, i: nat, t: S.Token, t': S.Token) {
    || t' == t
    || (cmd.CmdRenew? && S.Live(t, cmd.uid, s.clock) && t' == S.Renewed(w.keys, t, s.clock))
    || (cmd.CmdRevoke? && cmd.id == i && t.revokedAt.None? && FindUser(s.users, cmd.uid).Some?
        && (s.users[cmd.uid].admin || HasRole(cmd.roles, cmd.uid, AttestationReviewer, Micros(s.clock)))
        && t' == S.Revoked(t, cmd.reason, s.clock) && cmd.reason in {"stripe_flag", "staff_rescission", "platform_ban"})
    || (cmd.CmdSurrender? && cmd.id == i && t.revokedAt.None? && cmd.uid == t.holder && cmd.visitExists
        && HasRole(cmd.roles, cmd.witnessedBy, DeliveryStaff, Micros(s.clock))
        && t' == S.Revoked(t, "voluntary_surrender", s.clock))
  }

  lemma {:induction false} TokenAuthority(w: World, s: State, cmd: Command, i: nat)
    requires Exec(w, s, cmd).Ok? && i < |s.tokens|
    ensures var s' := Exec(w, s, cmd).value;
            i < |s'.tokens| && TokenChange(w, s, cmd, i, s.tokens[i], s'.tokens[i])
  {
    hide RecordsVerify, A.Payload, E.Verify, E.EncodeRecord, S.RowPayload, P.Qualify, P.Refuse, Witness,
         Assign, A.IsSha256Hex, O.Collect, O.Cancel, O.Activated, O.TapCheck, HasRole, P.NewlyMet, S.Sign;
  }

  /**
   * A token is issued only on an attested user's own request, to that user, when no token of theirs is live,
   * and rests on an approved attestation and on that attestation's threshold.
   */
  lemma {:induction false} IssueAuthority(w: World, s: State, cmd: Command, i: nat)
    requires Exec(w, s, cmd).Ok? && |s.tokens| <= i < |Exec(w, s, cmd).value.tokens|
    ensures cmd.CmdIssue? && IsAttested(s, cmd.uid) && S.FindLive(s.tokens, cmd.uid, s.clock).None?
    ensures var t := Exec(w, s, cmd).value.tokens[i];
            && t.holder == cmd.uid && t.kind == cmd.kind && t.attestation == cmd.attestation
            && t.attestation < |s.attestations| && s.attestations[t.attestation].status == A.Approved
            && t.threshold == s.attestations[t.attestation].threshold
  {
    hide RecordsVerify, A.Payload, E.Verify, E.EncodeRecord, S.RowPayload, P.Qualify, P.Refuse, Witness,
         Assign, A.IsSha256Hex, O.Collect, O.Cancel, O.Activated, O.TapCheck, HasRole, P.NewlyMet, S.Live;
  }

  /** The box `chip` names: active, unexpired and untapped before, tapped by `uid` after. */
  predicate BoxUsed(s: State, s': State, box: nat, chip: string, uid: int) {
    && box < |s.orders.boxes| && box < |s'.orders.boxes|
    && var b := s.orders.boxes[box];
       && b.chip == chip && b.activatedAt.Some? && (b.expiresAt.Some? ==> s.clock <= b.expiresAt.value)
       && b.tappedAt.None? && s'.orders.boxes[box] == O.Tapped(b, uid, s.clock)
  }

  /**
   * An order changes only by its owner: an open one is cancelled, or a pending one is collected with a
   * live box that this very command taps. Nothing but status and box of the order changes.
   */
  predicate OrderChange(s: State, s': State, cmd: Command, o: O.Order, o': O.Order) {
    || o' == o
    || (cmd.CmdCancel? && cmd.uid == o.user && (o.status == O.Pending || o.status == O.Paid)
        && o' == o.(status := O.Cancelled))
    || (cmd.CmdCollect? && cmd.uid == o.user && O.IsPendingFor(o, cmd.uid, cmd.businesses) && o'.box.Some?
        && o' == o.(status := O.Collected, box := o'.box) && BoxUsed(s, s', o'.box.value, cmd.chip, cmd.uid))
  }

  lemma {:induction false} OrderAuthority(w: World, s: State, cmd: Command, i: nat)
    requires O.Valid(s.orders) && Exec(w, s, cmd).Ok? && i < |s.orders.orders|
    ensures var s' := Exec(w, s, cmd).value;
            i < |s'.orders.orders| && OrderChange(s, s', cmd, s.orders.orders[i], s'.orders.orders[i])
  {
    hide RecordsVerify, A.Payload, E.Verify, E.EncodeRecord, S.FindLive, S.Issued, S.Renewed, P.Qualify, P.Refuse,
         Witness,
         Assign, A.IsSha256Hex, O.Activated, O.TapCheck, HasRole, P.NewlyMet;
  }

  /**
   * An order is placed only by an admitted user, for that user, at an active business; it is pending and has no box
   * yet.
   */
  lemma {:induction false} NewOrderAuthority(w: World, s: State, cmd: Command, i: nat)
    requires Exec(w, s, cmd).Ok? && |s.orders.orders| <= i < |Exec(w, s, cmd).value.orders.orders|
    ensures cmd.CmdCreateOrder? && Admitted(s.users, cmd.uid).Ok? && cmd.active == Some(true)
    ensures var o := Exec(w, s, cmd).value.orders.orders[i];
            && o.user == cmd.uid && o.business == cmd.business && o.boxCount >= 1 && o.amount > 0
            && o.status == O.Pending && o.box.None? && o.deadline == Micros(s.clock) + DAY
  {
    hide RecordsVerify, A.Payload, E.Verify, E.EncodeRecord, S.FindLive, S.Issued, S.Renewed, P.Qualify, P.Refuse,
         Witness, Assign, A.IsSha256Hex, O.Activated, O.TapCheck, HasRole, P.NewlyMet;
  }

  /** Boxes come only from delivery staff. */
  lemma {:induction false} BoxAuthority(w: World, s: State, cmd: Command, i: nat)
    requires Exec(w, s, cmd).Ok? && |s.orders.boxes| <= i < |Exec(w, s, cmd).value.orders.boxes|
    ensures cmd.CmdActivateBox? && HasRole(cmd.roles, cmd.uid, DeliveryStaff, Micros(s.clock))
  {
    hide RecordsVerify, A.Payload, E.Verify, E.EncodeRecord, S.FindLive, S.Issued, S.Renewed, P.Qualify, P.Refuse,
         Witness,
         Assign, A.IsSha256Hex, O.Activated, HasRole, P.NewlyMet;
  }

  /**
   * What stands behind a qualifying event: a dwell of at least 15 minutes with a strong enough signal and the
   * witness of a beacon of
   * that business for that user and day, or a tap of an active, unexpired, untapped box, which uses it up.
   */
  predicate Evidence(w: World, s: State, s': State, cmd: Command, e: P.Event) {
    || (cmd.CmdDwell? && cmd.beacon.Some? && cmd.beacon.value.business == Some(e.business) &&
        cmd.dwell.business == e.business
        && e.user == cmd.uid && e.day == cmd.dwell.day && !e.nfc
        && cmd.dwell.hmac == Witness(w, cmd.beacon.value.secret, e.business, e.day, e.user)
        && cmd.dwell.rssi >= cmd.beacon.value.minimumRssi && cmd.dwell.dwellMinutes >= 15)
    || (cmd.CmdNfcTap? && cmd.business == e.business && e.user == cmd.uid && e.day == s.clock / DAY && e.nfc
        && (cmd.secret.Some? ==> cmd.hmac == Witness(w, cmd.secret.value, e.business, e.day, e.user))
        && cmd.boxId < |s.orders.boxes| && s.orders.boxes[cmd.boxId].tappedBy.None? &&
             s.orders.boxes[cmd.boxId].activatedAt.Some?
        && (s.orders.boxes[cmd.boxId].expiresAt.Some? ==> s.clock <= s.orders.boxes[cmd.boxId].expiresAt.value)
        && cmd.boxId < |s'.orders.boxes| && s'.orders.boxes[cmd.boxId].tappedBy == Some(e.user))
  }

  /** No other command adds a qualifying event, and none is added for a banned, unknown, attested or cleared user. */
  lemma {:induction false} EventAuthority(w: World, s: State, cmd: Command, i: nat)
    requires Exec(w, s, cmd).Ok? && |s.presence.events| <= i < |Exec(w, s, cmd).value.presence.events|
    requires Exec(w, s, cmd).value.presence.events[i].qualifying
    ensures var s' := Exec(w, s, cmd).value;
            var e := s'.presence.events[i];
            && Evidence(w, s, s', cmd, e)
            && Admitted(s.users, e.user).Ok? && s.users[e.user].status != Attested && s.users[e.user].status != Cleared
  {
    hide RecordsVerify, A.Payload, E.Verify, E.EncodeRecord, S.FindLive, S.Issued, S.Renewed, Witness,
         Assign, A.IsSha256Hex, O.Collect, O.Cancel, O.Activated, HasRole, P.NewlyMet, P.OnDate, P.GetOrCreate;
  }

  /**
   * An attestation is opened only by the staff of a visit in progress, for a presence-confirmed user with a met
   * threshold of their own,
   * with two eligible reviewers other than the staff who co-signed at most three times together in the last week.
   */
  lemma {:induction false} OpeningAuthority(w: World, s: State, cmd: Command, i: nat)
    requires Exec(w, s, cmd).Ok? && |s.attestations| <= i < |Exec(w, s, cmd).value.attestations|
    ensures var row := Exec(w, s, cmd).value.attestations[i];
            && cmd.CmdInitiate? && cmd.visit.Some? && cmd.visit.value.inProgress &&
                 cmd.visit.value.staff == cmd.uid == row.staff
            && row.visit == cmd.init.visit && row.user == cmd.init.user && row.status == A.Pending
            && row.threshold == cmd.init.threshold && row.photoHash == cmd.init.photoHash
            && row.staffRecord.None? && row.deadline.None?
            && row.user in s.users && s.users[row.user].status == PresenceConfirmed &&
                 Backed(s.presence.thresholds, row)
            && var now := Micros(s.clock);
               && Eligible(cmd.roles, row.staff, cmd.visit.value.location, now, row.reviewer1)
               && Eligible(cmd.roles, row.staff, cmd.visit.value.location, now, row.reviewer2)
               && row.reviewer1 < row.reviewer2 && Cosigns(s.sigs, row.reviewer1, row.reviewer2, now) <= 3
  {
    OpensOnlyByInitiate(w, s, cmd);
    AssignSound(s.sigs, cmd.roles, cmd.uid, cmd.visit.value.location, Micros(s.clock));
    hide Assign, Eligible, Cosigns, A.IsSha256Hex;
  }

  /** Its reviewers are the first pair of all that would do. */
  lemma {:induction false} OpenedByFirstPair(w: World, s: State, cmd: Command, i: nat, a: int, b: int)
    requires Exec(w, s, cmd).Ok? && |s.attestations| <= i < |Exec(w, s, cmd).value.attestations|
    requires cmd.CmdInitiate? && cmd.visit.Some? && a < b
    requires var location, now := cmd.visit.value.location, Micros(s.clock);
             && Eligible(cmd.roles, cmd.uid, location, now, a) && Eligible(cmd.roles, cmd.uid, location, now, b)
             && Cosigns(s.sigs, a, b, now) <= 3
    ensures var row := Exec(w, s, cmd).value.attestations[i];
            row.reviewer1 < a || (row.reviewer1 == a && row.reviewer2 <= b)
  {
    AssignComplete(s.sigs, cmd.roles, cmd.uid, cmd.visit.value.location, Micros(s.clock), a, b);
    hide Assign, Eligible, Cosigns, A.IsSha256Hex;
  }

  lemma {:induction false} OpensOnlyByInitiate(w: World, s: State, cmd: Command)
    requires Exec(w, s, cmd).Ok? && |s.attestations| < |Exec(w, s, cmd).value.attestations|
    ensures cmd.CmdInitiate? && Exec(w, s, cmd) == InitiateAttestation(s, cmd.uid, cmd.init, cmd.visit, cmd.roles) &&
              cmd.visit.Some?
    ensures Assign(s.sigs, cmd.roles, cmd.uid, cmd.visit.value.location, Micros(s.clock)).Ok?
  {
    hide RecordsVerify, A.Payload, E.Verify, E.EncodeRecord, S.FindLive, S.Issued, S.Renewed, P.Qualify, P.Refuse,
         Witness,
         Assign, A.IsSha256Hex, O.Collect, O.Cancel, O.Activated, O.TapCheck, HasRole, P.NewlyMet;
  }

  /**
   * A signature row is never changed, and is written only by a co-signature of that reviewer for an attestation of
   * that visit they are assigned to: now, with the request's record and evidence, and the attestation's deadline.
   */
  lemma {:induction false} SignatureAuthority(w: World, s: State, cmd: Command, k: (int, int))
    requires Exec(w, s, cmd).Ok?
    ensures var s' := Exec(w, s, cmd).value;
            && (k in s.sigs ==> k in s'.sigs && s'.sigs[k] == s.sigs[k])
            && (k in s'.sigs && k !in s.sigs ==>
                  && cmd.CmdReviewerSign? && cmd.id < |s.attestations|
                  && var row, sig := s.attestations[cmd.id], s'.sigs[k];
                     && k == (row.visit, cmd.uid) && cmd.uid in {row.reviewer1, row.reviewer2}
                     && sig.signedAt == Micros(s.clock) && sig.evidence == cmd.req.evidence
                     && sig.record == cmd.req.keyHex + ":" + cmd.req.signature
                     && sig.deadline == if row.deadline.Some? then row.deadline.value
                                        else Micros(s.clock) + 48 * 3600 * SECOND)
            && (cmd.CmdReviewerSign? ==>
                  && cmd.id < |s.attestations|
                  && (s.attestations[cmd.id].visit, cmd.uid) in s'.sigs
                  && (s.attestations[cmd.id].visit, cmd.uid) !in s.sigs)
  {
    hide Exec, Micros;
    if cmd.CmdReviewerSign? {
      hide ReviewerSign;
      ExecSigns(w, s, cmd);
      SignatureWritten(w, s, cmd.id, cmd.uid, cmd.req);
    } else {
      SignaturesUntouched(w, s, cmd);
    }
  }

  lemma {:induction false} ExecSigns(w: World, s: State, cmd: Command)
    requires cmd.CmdReviewerSign?
    ensures Exec(w, s, cmd) == ReviewerSign(w, s, cmd.id, cmd.uid, cmd.req)
  {
    hide ReviewerSign;
  }

  /** The signature row spelled out: the request's record and evidence, the attestation's deadline, and now. */
  function Written(row: A.Row, req: SignRequest, now: nat): SignatureRow {
    SignatureRow(req.keyHex + ":" + req.signature, req.evidence,
                 if row.deadline.Some? then row.deadline.value else Micros(now) + 48 * 3600 * SECOND, Micros(now))
  }

  lemma {:induction false} SignatureSpelled(row: A.Row, req: SignRequest, now: nat)
    ensures NewSignature(row, req, now) == Written(row, req, now)
  {
    MicrosPlus(now, 48 * 3600 * 1_000_000);
    hide Micros;
  }

  /** What an accepted co-signature adds to the signature rows. */
  lemma {:induction false} SignatureWritten(w: World, s: State, id: nat, uid: int, req: SignRequest)
    requires ReviewerSign(w, s, id, uid, req).Ok?
    ensures id < |s.attestations|
    ensures var row := s.attestations[id];
            && uid in {row.reviewer1, row.reviewer2} && (row.visit, uid) !in s.sigs
            && ReviewerSign(w, s, id, uid, req).value.sigs == s.sigs[(row.visit, uid) := Written(row, req, s.clock)]
  {
    if id < |s.attestations| {
      SignatureSpelled(s.attestations[id], req, s.clock);
    }
    hide RecordsVerify, A.Payload, E.Verify, A.BothRecords, NewSignature, Written, WithStatus;
  }

  lemma {:induction false} SignaturesUntouched(w: World, s: State, cmd: Command)
    requires Exec(w, s, cmd).Ok? && !cmd.CmdReviewerSign?
    ensures Exec(w, s, cmd).value.sigs == s.sigs
  {
    hide RecordsVerify, A.Payload, E.Verify, S.FindLive, S.Issued, S.Renewed, P.Qualify, P.Refuse, Witness, Assign,
         A.IsSha256Hex, O.Collect, O.Cancel, O.Activated, O.TapCheck, HasRole, P.NewlyMet;
  }

  /**
   * An approval counts against its two reviewers from the moment it is given: as one more visit co-signed, unless
   * the first of them signed over a week before.
   */
  lemma {:induction false} ApprovalCounts(w: World, s: State, cmd: Command, i: nat)
    requires Exec(w, s, cmd).Ok? && i < |s.attestations| && i < |Exec(w, s, cmd).value.attestations|
    requires s.attestations[i].status != A.Approved && Exec(w, s, cmd).value.attestations[i].status == A.Approved
    ensures cmd.CmdReviewerSign? && cmd.uid in {s.attestations[i].reviewer1, s.attestations[i].reviewer2}
    ensures var s', row, now := Exec(w, s, cmd).value, s.attestations[i], Micros(s.clock);
            && (cmd.uid != row.reviewer1 ==> (row.visit, row.reviewer1) in s.sigs)
            && Cosigns(s'.sigs, row.reviewer1, row.reviewer2, now)
               == Cosigns(s.sigs, row.reviewer1, row.reviewer2, now)
                  + (if cmd.uid == row.reviewer1 || s.sigs[(row.visit, row.reviewer1)].signedAt + 7 * DAY > now
                     then 1 else 0)
  {
    ApprovedBySecond(w, s, cmd, i);
    var row := s.attestations[i];
    SignatureAuthority(w, s, cmd, (row.visit, cmd.uid));
    hide Exec, Cosigns;
    CosignsGrow(s.sigs, row.visit, row.reviewer1, row.reviewer2, cmd.uid, Exec(w, s, cmd).value.sigs, Micros(s.clock));
  }

  lemma {:induction false} ApprovedBySecond(w: World, s: State, cmd: Command, i: nat)
    requires Exec(w, s, cmd).Ok? && i < |s.attestations| && i < |Exec(w, s, cmd).value.attestations|
    requires s.attestations[i].status != A.Approved && Exec(w, s, cmd).value.attestations[i].status == A.Approved
    ensures cmd.CmdReviewerSign? && cmd.id == i
    ensures var s', row := Exec(w, s, cmd).value, s.attestations[i];
            && row.reviewer1 != row.reviewer2 && A.AssignedTo(row, cmd.uid)
            && (row.visit, row.reviewer1) in s'.sigs && (row.visit, row.reviewer2) in s'.sigs
            && (row.visit, cmd.uid) in s'.sigs
            && s'.sigs == s.sigs[(row.visit, cmd.uid) := s'.sigs[(row.visit, cmd.uid)]]
  {
    RowAuthority(w, s, cmd, i);
    hide RecordsVerify, A.Payload, E.Verify, E.EncodeRecord, NewSignature;
  }

  lemma {:induction false} CosignsGrow(sigs: Signatures, visit: int, r1: int, r2: int, uid: int, after: Signatures,
                                       now: nat)
    requires r1 != r2 && (uid == r1 || uid == r2) && (visit, uid) !in sigs
    requires (visit, uid) in after && after == sigs[(visit, uid) := after[(visit, uid)]]
    requires (visit, r1) in after && (visit, r2) in after && after[(visit, uid)].signedAt == now
    ensures Cosigns(after, r1, r2, now)
         == Cosigns(sigs, r1, r2, now) + (if after[(visit, r1)].signedAt + 7 * DAY > now then 1 else 0)
  {
    var before, grown := CosignedVisits(sigs, r1, r2, now), CosignedVisits(after, r1, r2, now);
    CosignedIff(sigs, r1, r2, now, visit);
    CosignedIff(after, r1, r2, now, visit);
    CosignedKeep(sigs, visit, r1, r2, uid, after, now);
    hide CosignedVisits;
    assert visit !in before;
    assert grown == if visit in grown then before + {visit} else before;
  }

  lemma {:induction false} CosignedKeep(sigs: Signatures, visit: int, r1: int, r2: int, uid: int, after: Signatures,
                                        now: nat)
    requires (visit, uid) in after && after == sigs[(visit, uid) := after[(visit, uid)]]
    ensures forall v :: v != visit ==>
              (v in CosignedVisits(after, r1, r2, now) <==> v in CosignedVisits(sigs, r1, r2, now))
  {
    hide CosignedVisits;
    forall v | v != visit
      ensures v in CosignedVisits(after, r1, r2, now) <==> v in CosignedVisits(sigs, r1, r2, now)
    {
      CosignedIff(after, r1, r2, now, v);
      CosignedIff(sigs, r1, r2, now, v);
    }
  }
}
