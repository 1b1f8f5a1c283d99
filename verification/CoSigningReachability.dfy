/** Two reviewers' transactions, from registered users to an approved attestation, statement by statement. */
module CoSigningReachability {
  import opened Approvals
  import opened Common
  import opened Platform
  import opened Reachability
  import opened Reviewers
  import opened Safety
  import A = Attestations
  import C = CoSigning
  import E = Ed25519
  import O = Orders
  import P = Presence

  /** A run without co-signatures that leaves attestation 0, of user 1 at visit 1, waiting for reviewers 11 and 12. */
  lemma {:induction false} WaitingIsReached(w: World) returns (cmds: seq<Timed>)
    requires w.primitives == Honest()
    ensures var s := Run(w, Start(), cmds);
            && Waiting(s, 0) && s.sigs == map[] && s.attestations[0].reviewer1 == 11 &&
                 s.attestations[0].reviewer2 == 12
    ensures NoCoSign(cmds)
  {
    hide NoCoSign, Inv, Run, Cosigns, P.Valid, A.Valid, O.Valid, AllBacked, AttestedApproved, HoldersApproved,
         TokenIdsValid,
         P.Qualifying, P.Met, P.Grows, A.Payload, RecordOf;
    StartIsInitial(w);
    InvParts(w, Start());
    NoEvents(1);
    var present, p := GatherPresence(w, Start(), 1, 0);
    var s1 := Run(w, Start(), present);
    var threshold := MetRow(p, 1);
    FewVisits(s1.sigs, 11, 12, Micros(s1.clock), {});
    var opening := OpenAndStaffSign(w, s1, 1, 1, 10, 11, 12, threshold);
    cmds := present + opening;
    NoneSpliced(present, opening);
    RunSplice(w, Start(), present, opening);
    OpenedWaits(s1, 1, 1, 10, 11, 12, threshold);
    var s2 := Run(w, s1, opening);
    assert s2.attestations[0] == WaitingRow(s1, 1, 1, 10, 11, 12, threshold);
  }

  function CallBy(s: State, i: nat, uid: int): C.Call
    requires i < |s.attestations|
  {
    var payload := A.Payload(i, s.attestations[i]);
    C.Call(i, uid, SignRequest(KeyOf(payload), SignatureOf(payload), None, ""))
  }

  lemma {:induction false} WaitingAcceptable(w: World, s: State, i: nat, uid: int)
    requires w.primitives == Honest() && i < |s.attestations| && A.AssignedTo(s.attestations[i], uid)
    requires var row := s.attestations[i];
             && row.status == A.CoSignPending && (row.deadline.Some? ==> s.clock <= row.deadline.value)
             && row.reviewer1 != row.reviewer2 && (row.visit, uid) !in s.sigs
    ensures C.Acceptable(w, s, CallBy(s, i, uid))
  {
    WaitingMaySign(w, s, i, uid);
    hide KeyOf, SignatureOf, A.Payload, SignRefused;
  }

  /** The state of the system after the first reviewer's transaction. */
  function FirstCommitted(s: State, i: nat): C.Sys
    requires i < |s.attestations|
  {
    var row := s.attestations[i];
    var key := (row.visit, row.reviewer1);
    C.Sys(s.(sigs := s.sigs[key := CoSignature(s, i, row)]), map[key := i], [C.Committed(CallBy(s, i, row.reviewer1))])
  }

  lemma {:induction false} FirstTransaction(w: World, s: State, i: nat)
    requires w.primitives == Honest() && Waiting(s, i)
    ensures C.Play(w, true, C.Quiet(s), C.Alone(0, CallBy(s, i, s.attestations[i].reviewer1))) == FirstCommitted(s, i)
  {
    var row := s.attestations[i];
    var call := CallBy(s, i, row.reviewer1);
    WaitingAcceptable(w, s, i, row.reviewer1);
    hide KeyOf, SignatureOf, A.Payload, C.Play, C.Acceptable, NewSignature, WithStatus, C.Alone;
    assert C.Both(s.sigs, C.Inserted(call, row, s.clock)).None?;
    C.AloneCommits(w, C.Quiet(s), call, false);
  }

  /** The second transaction finds two records, and both verify. */
  lemma {:induction false} SecondSees(w: World, s: State, i: nat)
    requires w.primitives == Honest() && Waiting(s, i)
    ensures var row := s.attestations[i];
            var both := C.Both(FirstCommitted(s, i).db.sigs, C.Inserted(CallBy(s, i, row.reviewer2), row, s.clock));
            both.Some? && RecordsVerify(w, both.value, A.Payload(i, row))
  {
    var row := s.attestations[i];
    var payload := A.Payload(i, row);
    HonestVerifies(w, payload);
    A.RecordOfVerified(w.primitives, KeyOf(payload), payload, SignatureOf(payload));
    CoSignatureRecord(s, i, row);
    hide KeyOf, SignatureOf, A.Payload, E.EncodeRecord, E.Verify, E.RecordVerifies, RecordsVerify;
    var both := C.Both(FirstCommitted(s, i).db.sigs, C.Inserted(CallBy(s, i, row.reviewer2), row, s.clock));
    assert both == Some((RecordOf(payload), RecordOf(payload)));
    BothVerify(w, both.value, payload);
  }

  /** The state of the system after the second reviewer's transaction. */
  function SecondCommitted(s: State, i: nat): C.Sys
    requires i < |s.attestations|
  {
    var row, s1 := s.attestations[i], FirstCommitted(s, i);
    var call := CallBy(s, i, row.reviewer2);
    C.At(s1, C.Committed(call)).(db := Signed(s1.db, i, row.reviewer2, CoSignature(s, i, row), true),
                                 made := s1.made[(row.visit, row.reviewer2) := i])
  }

  lemma {:induction false} BothCommitted(s: State, i: nat)
    requires Waiting(s, i)
    ensures var s' := SecondCommitted(s, i);
            i < |s'.db.attestations| && C.BothMadeFor(s', i) && s'.db.attestations[i].status == A.Approved
  {
    hide CoSignature, CallBy, WithStatus;
  }

  lemma {:induction false} SecondTransaction(w: World, s: State, i: nat)
    requires w.primitives == Honest() && Waiting(s, i)
    ensures C.Play(w, true, FirstCommitted(s, i), C.Alone(1, CallBy(s, i, s.attestations[i].reviewer2)))
            == SecondCommitted(s, i)
  {
    var row, s1 := s.attestations[i], FirstCommitted(s, i);
    var call := CallBy(s, i, row.reviewer2);
    WaitingAcceptable(w, s1.db, i, row.reviewer2);
    SecondSees(w, s, i);
    hide KeyOf, SignatureOf, A.Payload, C.Play, C.Acceptable, C.Alone, C.Both, RecordsVerify, NewSignature, Signed;
    C.AloneCommits(w, s1, call, true);
  }

  /** From any state with a waiting row: two transactions, one after the other, approve it under the lock. */
  lemma {:induction false} TransactionsApprove(w: World, s: State, i: nat) returns (moves: seq<C.Move>)
    requires w.primitives == Honest() && Waiting(s, i)
    ensures var s' := C.Play(w, true, C.Quiet(s), moves);
            && i < |s'.db.attestations| && C.BothMadeFor(s', i) && s'.db.attestations[i].status == A.Approved
  {
    var row := s.attestations[i];
    var one, two := C.Alone(0, CallBy(s, i, row.reviewer1)), C.Alone(1, CallBy(s, i, row.reviewer2));
    FirstTransaction(w, s, i);
    SecondTransaction(w, s, i);
    BothCommitted(s, i);
    hide Waiting, C.Play, C.BothMadeFor, CallBy, FirstCommitted, SecondCommitted, C.Alone;
    moves := one + two;
    C.PlaySplice(w, C.Quiet(s), one, two);
  }

  /** An interleaving from registered users in which both signatures made for an attestation are committed. */
  lemma {:induction false} BothSignaturesAreReached(w: World) returns (moves: seq<C.Move>)
    requires w.primitives == Honest()
    ensures var s := C.Play(w, true, C.Quiet(Start()), moves);
            && 0 < |s.db.attestations| && C.BothMadeFor(s, 0) && s.db.attestations[0].status == A.Approved
  {
    hide Run, Waiting, C.Play, C.BothMadeFor;
    var cmds := WaitingIsReached(w);
    var signing := TransactionsApprove(w, Run(w, Start(), cmds), 0);
    C.OthersRun(w, Start(), cmds);
    moves := C.Others(cmds) + signing;
    C.PlaySplice(w, C.Quiet(Start()), C.Others(cmds), signing);
  }
}
