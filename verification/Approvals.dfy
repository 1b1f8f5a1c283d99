/** When an attestation can still be approved: an exact condition on the tables, over all continuations. */
module Approvals {
  import opened Authority
  import opened Common
  import opened Platform
  import opened Reviewers
  import opened Safety
  import A = Attestations
  import E = Ed25519

  /** Some key and signature verify over the payload. */
  ghost predicate Signable(w: World, payload: string) {
    exists key, sig :: E.Verify(w.primitives, key, payload, sig) == E.Checked(true)
  }

  /** The reviewer has not signed the visit, or the stored record verifies over this payload. */
  predicate UnsignedOrFits(w: World, sigs: Signatures, visit: int, reviewer: int, payload: string) {
    (visit, reviewer) in sigs ==> E.RecordVerifies(w.primitives, sigs[(visit, reviewer)].record, payload)
  }

  /** Its assigned reviewers can still co-sign row `i`, as it is in `row`, without a conflict. */
  ghost predicate CoSignable(w: World, sigs: Signatures, i: nat, row: A.Row) {
    var payload := A.Payload(i, row);
    && ((row.visit, row.reviewer1) !in sigs || (row.visit, row.reviewer2) !in sigs)
    && UnsignedOrFits(w, sigs, row.visit, row.reviewer1, payload)
    && UnsignedOrFits(w, sigs, row.visit, row.reviewer2, payload)
    && Signable(w, payload)
  }

  function WithHash(row: A.Row, photoHash: Option<string>): A.Row {
    if photoHash.Some? then row.(photoHash := photoHash) else row
  }

  /** What the tables must satisfy now for row `i` to be approved by some continuation. */
  ghost predicate Approvable(w: World, s: State, i: nat)
    requires i < |s.attestations|
  {
    var row := s.attestations[i];
    match row.status
    case Approved => true
    case Rejected => false
    case CoSignPending => (row.deadline.Some? ==> s.clock <= row.deadline.value) && CoSignable(w, s.sigs, i, row)
    case Pending => exists h: Option<string> :: CoSignable(w, s.sigs, i, WithHash(row, h))
  }

  predicate Approves(w: World, s: State, i: nat, cmds: seq<Timed>) {
    var s' := Run(w, s, cmds);
    i < |s'.attestations| && s'.attestations[i].status == A.Approved
  }

  // ---- a lost cause stays lost ----

  /** What was co-signable with more signatures was so with fewer. */
  lemma {:induction false} FewerSignatures(w: World, before: Signatures, after: Signatures, i: nat, row: A.Row)
    requires forall k :: k in before ==> k in after && after[k] == before[k]
    requires CoSignable(w, after, i, row)
    ensures CoSignable(w, before, i, row)
  {
    hide E.RecordVerifies, A.Payload, Signable;
  }

  /** The command that approves a row shows that it was co-signable. */
  lemma {:induction false} ApprovingShows(w: World, s: State, id: nat, uid: int, req: SignRequest)
    requires ReviewerSign(w, s, id, uid, req).Ok?
    requires ReviewerSign(w, s, id, uid, req).value.attestations[id].status == A.Approved
    ensures CoSignable(w, s.sigs, id, s.attestations[id])
  {
    var row := s.attestations[id];
    ApprovingFacts(w, s, id, uid, req);
    hide ReviewerSign, E.Verify, A.Payload, RecordsVerify, E.RecordVerifies, NewSignature;
    var sigs := s.sigs[(row.visit, uid) := NewSignature(row, req, s.clock)];
    RecordsVerified(w, A.BothRecords(sigs, row.visit, row.reviewer1, row.reviewer2).value, A.Payload(id, row));
  }

  lemma {:induction false} ApprovingFacts(w: World, s: State, id: nat, uid: int, req: SignRequest)
    requires ReviewerSign(w, s, id, uid, req).Ok?
    requires ReviewerSign(w, s, id, uid, req).value.attestations[id].status == A.Approved
    ensures var row, payload := s.attestations[id], A.Payload(id, s.attestations[id]);
            var sigs := s.sigs[(row.visit, uid) := NewSignature(row, req, s.clock)];
            var both := A.BothRecords(sigs, row.visit, row.reviewer1, row.reviewer2);
            && both.Some? && RecordsVerify(w, both.value, payload)
            && A.AssignedTo(row, uid) && (row.visit, uid) !in s.sigs
            && E.Verify(w.primitives, req.keyHex, payload, req.signature) == E.Checked(true)
  {
    hide E.Verify, A.Payload, RecordsVerify, NewSignature, WithStatus, A.BothRecords;
  }

  /** Staff sign leaves the reviewers, the visit and, but for a new hash, the payload. */
  lemma {:induction false} StaffSignRow(w: World, s: State, id: nat, uid: int, req: SignRequest)
    requires StaffSign(w, s, id, uid, req).Ok?
    ensures var row, row' := s.attestations[id], StaffSign(w, s, id, uid, req).value.attestations[id];
            && row'.visit == row.visit && row'.reviewer1 == row.reviewer1 && row'.reviewer2 == row.reviewer2
            && A.Payload(id, row') == A.Payload(id, WithHash(row, req.photoHash))
            && StaffSign(w, s, id, uid, req).value.sigs == s.sigs
  {
    hide E.Verify, E.EncodeRecord;
  }

  /** Co-signability reads a row's visit, reviewers and payload only. */
  lemma {:induction false} SamePayload(w: World, sigs: Signatures, i: nat, a: A.Row, b: A.Row)
    requires a.visit == b.visit && a.reviewer1 == b.reviewer1 && a.reviewer2 == b.reviewer2 &&
               A.Payload(i, a) == A.Payload(i, b)
    ensures CoSignable(w, sigs, i, a) <==> CoSignable(w, sigs, i, b)
  {
    hide E.RecordVerifies, A.Payload, Signable;
  }

  lemma {:induction false} ApprovableBefore(w: World, s: State, s': State, i: nat)
    requires i < |s.attestations| && i < |s'.attestations| && s'.attestations[i] == s.attestations[i] &&
               s.clock <= s'.clock
    requires forall k :: k in s.sigs ==> k in s'.sigs && s'.sigs[k] == s.sigs[k]
    requires Approvable(w, s', i)
    ensures Approvable(w, s, i)
  {
    hide CoSignable;
    var row := s.attestations[i];
    match row.status
    case CoSignPending => FewerSignatures(w, s.sigs, s'.sigs, i, row);
    case Pending =>
      var h: Option<string> :| CoSignable(w, s'.sigs, i, WithHash(row, h));
      FewerSignatures(w, s.sigs, s'.sigs, i, WithHash(row, h));
    case _ =>
  }

  lemma {:induction false} StaffSignApprovable(w: World, s: State, i: nat, uid: int, req: SignRequest)
    requires StaffSign(w, s, i, uid, req).Ok?
    requires Approvable(w, StaffSign(w, s, i, uid, req).value, i)
    ensures Approvable(w, s, i)
  {
    var row, row' := s.attestations[i], StaffSign(w, s, i, uid, req).value.attestations[i];
    assert row.status == A.Pending && row'.status == A.CoSignPending;
    hide CoSignable, StaffSign;
    StaffSignRow(w, s, i, uid, req);
    SamePayload(w, s.sigs, i, row', WithHash(row, req.photoHash));
  }

  lemma {:induction false} KeepsReads(s: State, s': State)
    requires Keeps(s, s')
    ensures s.clock <= s'.clock && forall k :: k in s.sigs ==> k in s'.sigs && s'.sigs[k] == s.sigs[k]
  {
  }

  lemma {:induction false} CommandApprovable(w: World, s: State, cmd: Command, i: nat)
    requires Inv(w, s) && i < |s.attestations| && Exec(w, s, cmd).Ok?
    requires var s' := Exec(w, s, cmd).value; i < |s'.attestations| && Approvable(w, s', i)
    ensures Approvable(w, s, i)
  {
    hide Inv, Keeps, CoSignable, WithHash, A.AssignedTo, A.Open,
         AddUser, SetFlags, InitiateVerification, BeaconDwell, NfcTap, InitiateAttestation, StaffSign, ReviewerSign,
         RejectAttestation, IssueSoultoken, RevokeSoultoken, SurrenderSoultoken, RenewSoultoken,
         CreateOrder, ActivateBox, CollectOrder, CancelOrder;
    RowAuthority(w, s, cmd, i);
    ExecSafe(w, s, cmd);
    var s' := Exec(w, s, cmd).value;
    var row, row' := s.attestations[i], s'.attestations[i];
    KeepsReads(s, s');
    if row' == row {
      ApprovableBefore(w, s, s', i);
    } else if cmd.CmdStaffSign? {
      StaffSignApprovable(w, s, i, cmd.uid, cmd.req);
    } else if cmd.CmdReviewerSign? {
      ApprovingShows(w, s, i, cmd.uid, cmd.req);
    }
  }

  /** What can be approved in a later state of a run could be approved before. */
  lemma {:induction false} RunApprovable(w: World, s: State, cmds: seq<Timed>, i: nat)
    requires Inv(w, s) && i < |s.attestations|
    requires i < |Run(w, s, cmds).attestations| && Approvable(w, Run(w, s, cmds), i)
    ensures Approvable(w, s, i)
  {
    hide Inv, Keeps, Approvable, Exec;
    if cmds == [] {
    } else {
      var before, t := Run(w, s, cmds[..|cmds| - 1]), cmds[|cmds| - 1];
      RunSafe(w, s, cmds[..|cmds| - 1]);
      RowsGrow(s, before);
      var now := before.(clock := before.clock + t.delay);
      ClockSafe(w, before, now.clock);
      if Exec(w, now, t.cmd).Ok? {
        CommandApprovable(w, now, t.cmd, i);
      }
      ApprovableBefore(w, before, now, i);
      RunApprovable(w, s, cmds[..|cmds| - 1], i);
    }
  }

  lemma {:induction false} RowsGrow(s: State, s': State)
    requires Keeps(s, s')
    ensures |s.attestations| <= |s'.attestations|
  {
  }

  // ---- and a chance can be taken ----

  /** The command with which `uid` co-signs row `i` at once. */
  function CoSign(i: nat, uid: int, key: string, sig: string): Timed {
    Timed(0, CmdReviewerSign(i, uid, SignRequest(key, sig, None, "")))
  }

  /**
   * Row `i` is waiting, in time, and `uid` is a reviewer of it who has not signed the visit; key and signature
   * verify.
   */
  predicate MaySign(w: World, s: State, i: nat, uid: int, key: string, sig: string) {
    && i < |s.attestations|
    && var row := s.attestations[i];
       && SignRefused(w, i, row, uid, SignRequest(key, sig, None, ""), s.clock).None?
       && (row.visit, uid) !in s.sigs && row.reviewer1 != row.reviewer2
  }

  lemma {:induction false} AtOnce(w: World, s: State, cmd: Command)
    requires Exec(w, s, cmd).Ok?
    ensures Step(w, s, Timed(0, cmd)) == Exec(w, s, cmd).value
  {
    hide Exec;
    assert s.(clock := s.clock + 0) == s;
  }

  lemma {:induction false} FirstSign(w: World, s: State, i: nat, uid: int, key: string, sig: string)
    requires MaySign(w, s, i, uid, key, sig)
    requires (s.attestations[i].visit, A.Partner(s.attestations[i], uid)) !in s.sigs
    ensures var row := s.attestations[i];
            var req := SignRequest(key, sig, None, "");
            Step(w, s, CoSign(i, uid, key, sig))
            == s.(sigs := s.sigs[(row.visit, uid) := NewSignature(row, req, s.clock)])
  {
    hide E.Verify, A.Payload, RecordsVerify, NewSignature, WithStatus;
    var row, req := s.attestations[i], SignRequest(key, sig, None, "");
    var signed := s.(sigs := s.sigs[(row.visit, uid) := NewSignature(row, req, s.clock)]);
    assert ReviewerSign(w, s, i, uid, req) == Ok(signed);
    hide ReviewerSign;
    AtOnce(w, s, CmdReviewerSign(i, uid, req));
  }

  /** The tables once the second signature approves the row. */
  function LastSigned(s: State, i: nat, uid: int, req: SignRequest): State
    requires i < |s.attestations|
  {
    var row := s.attestations[i];
    s.(sigs := s.sigs[(row.visit, uid) := NewSignature(row, req, s.clock)],
       attestations := s.attestations[i := row.(status := A.Approved)],
       users := WithStatus(s.users, row.user, Attested))
  }

  lemma {:induction false} LastSignOk(w: World, s: State, i: nat, uid: int, key: string, sig: string)
    requires MaySign(w, s, i, uid, key, sig)
    requires var row := s.attestations[i];
             var partner := (row.visit, A.Partner(row, uid));
             partner in s.sigs && E.RecordVerifies(w.primitives, s.sigs[partner].record, A.Payload(i, row))
    ensures var req := SignRequest(key, sig, None, "");
            ReviewerSign(w, s, i, uid, req) == Ok(LastSigned(s, i, uid, req))
  {
    var row, req := s.attestations[i], SignRequest(key, sig, None, "");
    MayReads(w, s, i, uid, key, sig);
    A.RecordOfVerified(w.primitives, key, A.Payload(i, row), sig);
    hide E.Verify, A.Payload, RecordsVerify, WithStatus, E.EncodeRecord, E.RecordVerifies;
    var sigs := s.sigs[(row.visit, uid) := NewSignature(row, req, s.clock)];
    BothVerify(w, A.BothRecords(sigs, row.visit, row.reviewer1, row.reviewer2).value, A.Payload(i, row));
  }

  lemma {:induction false} LastSign(w: World, s: State, i: nat, uid: int, key: string, sig: string)
    requires MaySign(w, s, i, uid, key, sig)
    requires var row := s.attestations[i];
             var partner := (row.visit, A.Partner(row, uid));
             partner in s.sigs && E.RecordVerifies(w.primitives, s.sigs[partner].record, A.Payload(i, row))
    ensures Step(w, s, CoSign(i, uid, key, sig)) == LastSigned(s, i, uid, SignRequest(key, sig, None, ""))
  {
    hide MaySign, ReviewerSign, LastSigned, E.RecordVerifies, A.Payload;
    LastSignOk(w, s, i, uid, key, sig);
    AtOnce(w, s, CmdReviewerSign(i, uid, SignRequest(key, sig, None, "")));
  }

  lemma {:induction false} RunSplice(w: World, s: State, first: seq<Timed>, more: seq<Timed>)
    ensures Run(w, s, first + more) == Run(w, Run(w, s, first), more)
  {
    hide Step;
    if more == [] {
      assert first + more == first;
    } else {
      var n := |more| - 1;
      RunSplice(w, s, first, more[..n]);
      assert (first + more)[..|first + more| - 1] == first + more[..n];
    }
  }

  lemma {:induction false} RunOne(w: World, s: State, t: Timed)
    ensures Run(w, s, [t]) == Step(w, s, t)
  {
    hide Step;
    assert [t][..0] == [] && Run(w, s, []) == s;
  }

  lemma {:induction false} RunTwo(w: World, s: State, t: Timed, u: Timed)
    ensures Run(w, s, [t, u]) == Step(w, Step(w, s, t), u)
  {
    hide Step;
    assert [t, u] == [t] + [u];
    RunSplice(w, s, [t], [u]);
    RunOne(w, s, t);
    RunOne(w, Step(w, s, t), u);
  }

  lemma {:induction false} RunThree(w: World, s: State, t: Timed, u: Timed, v: Timed)
    ensures Run(w, s, [t, u, v]) == Step(w, Step(w, Step(w, s, t), u), v)
  {
    hide Step;
    assert [t, u, v] == [t, u] + [v];
    RunSplice(w, s, [t, u], [v]);
    RunTwo(w, s, t, u);
    RunOne(w, Step(w, Step(w, s, t), u), v);
  }

  lemma {:induction false} OneSignatureApproves(w: World, s: State, i: nat, uid: int, key: string, sig: string)
    requires MaySign(w, s, i, uid, key, sig)
    requires var row := s.attestations[i];
             var partner := (row.visit, A.Partner(row, uid));
             partner in s.sigs && E.RecordVerifies(w.primitives, s.sigs[partner].record, A.Payload(i, row))
    ensures exists cmds :: Approves(w, s, i, cmds)
  {
    hide MaySign, E.RecordVerifies, A.Payload, Step, NewSignature, WithStatus;
    LastSign(w, s, i, uid, key, sig);
    RunOne(w, s, CoSign(i, uid, key, sig));
    assert i < |s.attestations| by { MayReads(w, s, i, uid, key, sig); }
    assert Approves(w, s, i, [CoSign(i, uid, key, sig)]);
  }

  lemma {:induction false} MayReads(w: World, s: State, i: nat, uid: int, key: string, sig: string)
    requires MaySign(w, s, i, uid, key, sig)
    ensures i < |s.attestations|
    ensures E.Verify(w.primitives, key, A.Payload(i, s.attestations[i]), sig) == E.Checked(true)
  {
  }

  lemma {:induction false} TwoSignaturesApprove(w: World, s: State, i: nat, key: string, sig: string)
    requires i < |s.attestations|
    requires MaySign(w, s, i, s.attestations[i].reviewer1, key, sig) &&
               MaySign(w, s, i, s.attestations[i].reviewer2, key, sig)
    ensures exists cmds :: Approves(w, s, i, cmds)
  {
    var row, req := s.attestations[i], SignRequest(key, sig, None, "");
    var one, two := CoSign(i, row.reviewer1, key, sig), CoSign(i, row.reviewer2, key, sig);
    var s1 := Step(w, s, one);
    assert row.reviewer1 != row.reviewer2;
    MayReads(w, s, i, row.reviewer1, key, sig);
    FirstSign(w, s, i, row.reviewer1, key, sig);
    A.RecordOfVerified(w.primitives, key, A.Payload(i, row), sig);
    hide E.RecordVerifies, A.Payload, Step, WithStatus, E.Verify, E.EncodeRecord, CoSign;
    LastSign(w, s1, i, row.reviewer2, key, sig);
    RunTwo(w, s, one, two);
    assert Approves(w, s, i, [one, two]);
  }

  lemma {:induction false} WaitingCanApprove(w: World, s: State, i: nat)
    requires Inv(w, s) && i < |s.attestations| && s.attestations[i].status == A.CoSignPending && Approvable(w, s, i)
    ensures exists cmds :: Approves(w, s, i, cmds)
  {
    var row := s.attestations[i];
    assert A.RowValid(w.primitives, s.sigs, i, row);
    hide Inv, E.RecordVerifies, A.Payload, E.Verify, Approves;
    var key, sig :| E.Verify(w.primitives, key, A.Payload(i, row), sig) == E.Checked(true);
    if (row.visit, row.reviewer2) in s.sigs {
      OneSignatureApproves(w, s, i, row.reviewer1, key, sig);
    } else if (row.visit, row.reviewer1) in s.sigs {
      OneSignatureApproves(w, s, i, row.reviewer2, key, sig);
    } else {
      TwoSignaturesApprove(w, s, i, key, sig);
    }
  }

  /** The staff's command that leaves the row waiting over the payload with this hash. */
  function SignAsStaff(i: nat, staff: int, key: string, sig: string, photoHash: Option<string>): Timed {
    Timed(0, CmdStaffSign(i, staff, SignRequest(key, sig, photoHash, "")))
  }

  lemma {:induction false} StaffSignWaits(w: World, s: State, i: nat, key: string, sig: string, h: Option<string>)
    requires i < |s.attestations| && s.attestations[i].status == A.Pending
    requires E.Verify(w.primitives, key, A.Payload(i, WithHash(s.attestations[i], h)), sig) == E.Checked(true)
    ensures var row := s.attestations[i];
            var signed := A.StaffSigned(row, E.EncodeRecord(key, sig), h, Micros(s.clock + 48 * HOUR));
            && Step(w, s, SignAsStaff(i, row.staff, key, sig, h)) == s.(attestations := s.attestations[i := signed])
            && A.Payload(i, signed) == A.Payload(i, WithHash(row, h)) && s.clock <= signed.deadline.value
  {
    hide E.Verify, E.EncodeRecord;
    var row, req := s.attestations[i], SignRequest(key, sig, h, "");
    var signed := A.StaffSigned(row, E.EncodeRecord(key, sig), h, Micros(s.clock + 48 * HOUR));
    assert A.Payload(i, signed) == A.Payload(i, WithHash(row, h));
    assert StaffSign(w, s, i, row.staff, req) == Ok(s.(attestations := s.attestations[i := signed]));
    hide StaffSign;
    AtOnce(w, s, CmdStaffSign(i, row.staff, req));
  }

  /** Staff sign with a suitable hash leaves an approvable waiting row. */
  lemma {:induction false} PendingWaits(w: World, s: State, i: nat) returns (t: Timed)
    requires i < |s.attestations| && s.attestations[i].status == A.Pending && Approvable(w, s, i)
    ensures var s1 := Step(w, s, t);
            && i < |s1.attestations| && s1.attestations[i].status == A.CoSignPending && Approvable(w, s1, i)
  {
    hide E.Verify, A.Payload, Step, UnsignedOrFits;
    var row := s.attestations[i];
    var h: Option<string> :| CoSignable(w, s.sigs, i, WithHash(row, h));
    var payload := A.Payload(i, WithHash(row, h));
    var key, sig :| E.Verify(w.primitives, key, payload, sig) == E.Checked(true);
    t := SignAsStaff(i, row.staff, key, sig, h);
    StaffSignWaits(w, s, i, key, sig, h);
    hide CoSignable, SignAsStaff;
    var s1 := Step(w, s, t);
    SamePayload(w, s.sigs, i, s1.attestations[i], WithHash(row, h));
  }

  lemma {:induction false} PendingCanApprove(w: World, s: State, i: nat)
    requires Inv(w, s) && i < |s.attestations| && s.attestations[i].status == A.Pending && Approvable(w, s, i)
    ensures exists cmds :: Approves(w, s, i, cmds)
  {
    hide Inv, Keeps, Step, Approvable;
    var t := PendingWaits(w, s, i);
    StepSafe(w, s, t);
    WaitingCanApprove(w, Step(w, s, t), i);
    var cmds :| Approves(w, Step(w, s, t), i, cmds);
    RunOne(w, s, t);
    RunSplice(w, s, [t], cmds);
    assert Approves(w, s, i, [t] + cmds);
  }

  /**
   * Exactly when an attestation can still be approved by some continuation: it is approved; or it awaits
   * co-signatures in time,
   * or staff sign with some photo hash, and then one of its reviewers has not signed the visit, each who has did so
   * with a record that verifies over its payload, and somebody's key signs that payload.
   */
  lemma {:induction false} ApprovalIff(w: World, s: State, i: nat)
    requires Inv(w, s) && i < |s.attestations|
    ensures (exists cmds :: Approves(w, s, i, cmds)) <==> Approvable(w, s, i)
  {
    hide Inv, CoSignable, Run;
    if cmds :| Approves(w, s, i, cmds) {
      RunApprovable(w, s, cmds, i);
    }
    if Approvable(w, s, i) {
      match s.attestations[i].status
      case Approved => AlreadyApproved(w, s, i);
      case CoSignPending => WaitingCanApprove(w, s, i);
      case Pending => PendingCanApprove(w, s, i);
      case Rejected =>
    }
  }

  lemma {:induction false} AlreadyApproved(w: World, s: State, i: nat)
    requires i < |s.attestations| && s.attestations[i].status == A.Approved
    ensures exists cmds :: Approves(w, s, i, cmds)
  {
    assert Approves(w, s, i, []);
  }

  /**
   * One signature made for another attestation of the visit is enough to strand an attestation: an assigned reviewer
   * who signed the visit with a record that does not verify over the payload leaves it unapproved for good.
   */
  lemma {:induction false} OneForeignSignatureStrands(w: World, s: State, i: nat, reviewer: int, cmds: seq<Timed>)
    requires Inv(w, s) && i < |s.attestations| && s.attestations[i].status == A.CoSignPending
    requires A.AssignedTo(s.attestations[i], reviewer)
    requires !UnsignedOrFits(w, s.sigs, s.attestations[i].visit, reviewer, A.Payload(i, s.attestations[i]))
    ensures !Approves(w, s, i, cmds)
  {
    hide Inv, UnsignedOrFits, Run, A.Payload, Signable;
    ApprovalIff(w, s, i);
    if reviewer == s.attestations[i].reviewer1 {
      assert !Approvable(w, s, i);
    } else {
      assert reviewer == s.attestations[i].reviewer2;
      assert !Approvable(w, s, i);
    }
  }
}
