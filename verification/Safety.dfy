/** What every reachable state of the pipeline satisfies, and what no later command can undo. */
module Safety {
  import opened Common
  import opened Reviewers
  import opened Platform
  import E = Ed25519
  import P = Presence
  import A = Attestations
  import S = Soultokens
  import O = Orders

  // ---- the invariant ----

  /** An approved attestation of the user. */
  predicate ApprovedFor(rows: seq<A.Row>, user: int) {
    exists i :: 0 <= i < |rows| && rows[i].status == A.Approved && rows[i].user == user
  }

  /** The attestation rests on a met threshold of the same user. */
  predicate Backed(thresholds: seq<P.Threshold>, row: A.Row) {
    row.threshold < |thresholds| && thresholds[row.threshold].user == row.user && thresholds[row.threshold].metAt.Some?
  }

  predicate AllBacked(s: State) {
    forall i :: 0 <= i < |s.attestations| ==> Backed(s.presence.thresholds, s.attestations[i])
  }

  predicate AttestedApproved(s: State) {
    forall u :: u in s.users && s.users[u].status == Attested ==> ApprovedFor(s.attestations, u)
  }

  predicate HoldersApproved(s: State) {
    forall i :: 0 <= i < |s.tokens| ==> ApprovedFor(s.attestations, s.tokens[i].holder)
  }

  /** `users.soultoken_id`, when set, names an unrevoked token the user holds; a live user token is the one named. */
  predicate TokenIdValid(s: State, u: int)
    requires u in s.users
  {
    s.users[u].soultoken.Some? ==>
      var id := s.users[u].soultoken.value;
      && id < |s.tokens| && s.tokens[id].holder == u && s.tokens[id].revokedAt.None?
      && forall i :: 0 <= i < |s.tokens| && S.Live(s.tokens[i], u, s.clock) ==> i == id
  }

  predicate TokenIdsValid(s: State) {
    forall u :: u in s.users ==> TokenIdValid(s, u)
  }

  ghost predicate Inv(w: World, s: State) {
    && P.Valid(s.presence)
    && A.Valid(w.primitives, s.attestations, s.sigs)
    && S.Valid(w.keys, s.tokens, s.renewals, s.clock)
    && O.Valid(s.orders)
    && AllBacked(s) && AttestedApproved(s) && HoldersApproved(s) && TokenIdsValid(s)
  }

  /** The parts of the invariant that other modules read. */
  lemma {:induction false} InvParts(w: World, s: State)
    requires Inv(w, s)
    ensures P.Valid(s.presence) && A.Valid(w.primitives, s.attestations, s.sigs) && O.Valid(s.orders)
    ensures AllBacked(s) && AttestedApproved(s) && HoldersApproved(s) && TokenIdsValid(s)
  {
    hide P.Valid, A.Valid, S.Valid, O.Valid, AllBacked, AttestedApproved, HoldersApproved, TokenIdsValid;
  }

  /** What a step never undoes. */
  predicate Keeps(s: State, s': State) {
    && s.clock <= s'.clock
    && P.Grows(s.presence, s'.presence)
    && |s.attestations| <= |s'.attestations|
    && (forall i :: 0 <= i < |s.attestations| && s.attestations[i].status == A.Approved ==>
        s'.attestations[i] == s.attestations[i])
    && (forall i :: 0 <= i < |s.attestations| && s.attestations[i].status == A.Rejected ==>
        s'.attestations[i] == s.attestations[i])
    && (forall k :: k in s.sigs ==> k in s'.sigs && s'.sigs[k] == s.sigs[k])
    && |s.tokens| <= |s'.tokens|
    && (forall i :: 0 <= i < |s.tokens| ==> TokenKeeps(s.tokens[i], s'.tokens[i]))
    && s.renewals <= s'.renewals
    && O.Final(s.orders, s'.orders)
  }

  predicate TokenKeeps(t: S.Token, t': S.Token) {
    && t'.uuid == t.uuid && t'.holder == t.holder && t'.code == t.code && t'.kind == t.kind && t'.issuedAt == t.issuedAt
    && t'.attestation == t.attestation && t'.threshold == t.threshold && t.expiresAt <= t'.expiresAt
    && (t.revokedAt.Some? ==> t' == t)
  }

  lemma {:induction false} KeepsTrans(a: State, b: State, c: State)
    requires Keeps(a, b) && Keeps(b, c)
    ensures Keeps(a, c)
  {
    assert forall i :: 0 <= i < |a.tokens| ==>
        TokenKeeps(a.tokens[i], b.tokens[i]) && TokenKeeps(b.tokens[i], c.tokens[i]);
  }

  // ---- one command at a time ----

  lemma {:induction false} InitialSafe(w: World, s: State)
    requires Initial(s)
    ensures Inv(w, s)
  {
    assert forall u :: !P.Met(s.presence, u);
  }

  lemma {:induction false} ClockSafe(w: World, s: State, now: nat)
    requires Inv(w, s) && s.clock <= now
    ensures Inv(w, s.(clock := now)) && Keeps(s, s.(clock := now))
  {
    hide P.Valid, A.Valid, O.Valid, S.Valid;
    S.TimePasses(w.keys, s.tokens, s.renewals, s.clock, now);
    MicrosMonotone(s.clock, now);
    var s' := s.(clock := now);
    forall u | u in s.users ensures TokenIdValid(s', u) {
      assert TokenIdValid(s, u);
      assert forall i :: 0 <= i < |s.tokens| && S.Live(s.tokens[i], u, now) ==> S.Live(s.tokens[i], u, s.clock);
    }
  }

  /** A change of users alone, that attests nobody and moves no token id. */
  lemma {:induction false} UsersOnly(w: World, s: State, s': State)
    requires Inv(w, s) && s' == s.(users := s'.users, credentials := s'.credentials)
    requires forall u :: u in s'.users && s'.users[u].status == Attested ==>
               u in s.users && s.users[u].status == Attested
    requires forall u :: u in s'.users && s'.users[u].soultoken.Some? ==>
               u in s.users && s.users[u].soultoken == s'.users[u].soultoken
    ensures Inv(w, s') && Keeps(s, s')
  {
    hide P.Valid, A.Valid, O.Valid, S.Valid;
    forall u | u in s'.users ensures TokenIdValid(s', u) {
      assert u in s.users && s'.users[u].soultoken.Some? ==> TokenIdValid(s, u);
    }
  }

  /** A change of presence tables, with the promotion that may come with it. */
  lemma {:induction false} PresenceSafe(w: World, s: State, uid: int, presence: P.Tables)
    requires Inv(w, s) && P.Valid(presence) && P.Grows(s.presence, presence)
    ensures Inv(w, WithPresence(s, uid, presence)) && Keeps(s, WithPresence(s, uid, presence))
  {
    hide P.Valid, A.Valid, O.Valid, S.Valid;
    var s1 := s.(presence := presence);
    assert AllBacked(s1) by {
      forall i | 0 <= i < |s.attestations| ensures Backed(presence.thresholds, s.attestations[i]) {
        assert Backed(s.presence.thresholds, s.attestations[i]);
      }
    }
    forall u | u in s1.users ensures TokenIdValid(s1, u) {
      assert TokenIdValid(s, u);
    }
    UsersOnly(w, s1, WithPresence(s, uid, presence));
  }

  lemma {:induction false} OrdersSafe(w: World, s: State, orders: O.Tables)
    requires Inv(w, s) && O.Valid(orders) && O.Final(s.orders, orders)
    ensures Inv(w, s.(orders := orders)) && Keeps(s, s.(orders := orders))
  {
    hide P.Valid, A.Valid, O.Valid, S.Valid, O.Final;
    forall u | u in s.users ensures TokenIdValid(s.(orders := orders), u) {
      assert TokenIdValid(s, u);
    }
  }

  lemma {:induction false} DwellSafe(w: World, s: State, uid: int, req: DwellRequest, gate: Option<Error>,
                                     beacon: Option<Beacon>)
    requires Inv(w, s) && BeaconDwell(w, s, uid, req, gate, beacon).Ok?
    ensures var s' := BeaconDwell(w, s, uid, req, gate, beacon).value; Inv(w, s') && Keeps(s, s')
  {
    hide Witness, Inv, Keeps;
    var s' := BeaconDwell(w, s, uid, req, gate, beacon).value;
    RefuseSafe(w, s, uid, req.business, req.day, false);
    QualifySafe(w, s, uid, req.business, req.day, false);
  }

  lemma {:induction false} RefuseSafe(w: World, s: State, uid: int, business: int, day: nat, nfc: bool)
    requires Inv(w, s)
    ensures var s' := s.(presence := P.Refuse(s.presence, uid, business, day, nfc)); Inv(w, s') && Keeps(s, s')
  {
    P.RefuseKeepsValid(s.presence, uid, business, day, nfc);
    hide P.Valid, A.Valid, O.Valid, S.Valid;
    var p := P.Refuse(s.presence, uid, business, day, nfc);
    PresenceSafe(w, s, uid, p);
    assert WithPresence(s, uid, p) == s.(presence := p);
  }

  lemma {:induction false} QualifySafe(w: World, s: State, uid: int, business: int, day: nat, nfc: bool)
    requires Inv(w, s)
    ensures var s' := WithPresence(s, uid, P.Qualify(s.presence, uid, business, day, nfc, s.clock));
            Inv(w, s') && Keeps(s, s')
  {
    hide P.Qualify, A.Valid, O.Valid, S.Valid, WithPresence, Keeps;
    P.QualifyKeepsValid(s.presence, uid, business, day, nfc, s.clock);
    P.QualifyGrows(s.presence, uid, business, day, nfc, s.clock);
    PresenceSafe(w, s, uid, P.Qualify(s.presence, uid, business, day, nfc, s.clock));
  }

  lemma {:induction false} NfcTapSafe(w: World, s: State, uid: int, boxId: nat, business: int, hmac: string,
                                      gate: Option<Error>, secret: Option<string>)
    requires Inv(w, s) && NfcTap(w, s, uid, boxId, business, hmac, gate, secret).Ok?
    ensures var s' := NfcTap(w, s, uid, boxId, business, hmac, gate, secret).value; Inv(w, s') && Keeps(s, s')
  {
    hide Witness, P.Valid, A.Valid, S.Valid, P.Refuse, P.Qualify, WithPresence, O.Final, Keeps,
         AllBacked, AttestedApproved, HoldersApproved, TokenIdsValid;
    var day := s.clock / DAY;
    RefuseSafe(w, s, uid, business, day, true);
    if O.TapCheck(s.orders.boxes, boxId, s.clock).Ok? {
      O.TapKeeps(s.orders, boxId, uid, s.clock, s.clock);
      var orders := s.orders.(boxes := s.orders.boxes[boxId := O.Tapped(s.orders.boxes[boxId], uid, s.clock)]);
      OrdersSafe(w, s, orders);
      var s1 := s.(orders := orders);
      QualifySafe(w, s1, uid, business, day, true);
      KeepsTrans(s, s1, WithPresence(s1, uid, P.Qualify(s.presence, uid, business, day, true, s.clock)));
    }
  }

  /** A change of one attestation row that keeps its user and threshold and undoes no approval. */
  lemma {:induction false} RowSafe(w: World, s: State, s': State, id: nat, row: A.Row)
    requires Inv(w, s) && id < |s.attestations|
    requires A.Open(s.attestations[id])
    requires row.user == s.attestations[id].user && row.threshold == s.attestations[id].threshold
    requires s' == s.(attestations := s.attestations[id := row], sigs := s'.sigs, users := s'.users)
    requires forall k :: k in s.sigs ==> k in s'.sigs && s'.sigs[k] == s.sigs[k]
    requires A.Valid(w.primitives, s'.attestations, s'.sigs)
    requires forall u :: u in s'.users ==> u in s.users && s'.users[u].soultoken == s.users[u].soultoken
    requires forall u :: u in s'.users && s'.users[u].status == Attested && s.users[u].status != Attested ==>
               u == row.user && row.status == A.Approved
    ensures Inv(w, s') && Keeps(s, s')
  {
    hide P.Valid, A.Valid, O.Valid, S.Valid;
    ApprovalsGrow(s.attestations, s'.attestations);
    if row.status == A.Approved {
      assert s'.attestations[id] == row;
    }
    assert AllBacked(s') by {
      forall i | 0 <= i < |s'.attestations| ensures Backed(s'.presence.thresholds, s'.attestations[i]) {
        assert Backed(s.presence.thresholds, s.attestations[i]);
      }
    }
    forall u | u in s'.users ensures TokenIdValid(s', u) {
      assert TokenIdValid(s, u);
    }
  }

  lemma {:induction false} ApprovalsGrow(rows: seq<A.Row>, rows': seq<A.Row>)
    requires |rows| <= |rows'|
    requires forall i :: 0 <= i < |rows| && rows[i].status == A.Approved ==> rows'[i] == rows[i]
    ensures forall u :: ApprovedFor(rows, u) ==> ApprovedFor(rows', u)
  {
    forall u | ApprovedFor(rows, u) ensures ApprovedFor(rows', u) {
      var i :| 0 <= i < |rows| && rows[i].status == A.Approved && rows[i].user == u;
      assert rows'[i] == rows[i];
    }
  }

  lemma {:induction false} NewRowSafe(w: World, s: State, row: A.Row)
    requires Inv(w, s) && A.Valid(w.primitives, s.attestations + [row], s.sigs)
    requires Backed(s.presence.thresholds, row)
    ensures var s' := s.(attestations := s.attestations + [row]); Inv(w, s') && Keeps(s, s')
  {
    hide P.Valid, O.Valid, S.Valid, A.Valid;
    var s' := s.(attestations := s.attestations + [row]);
    assert AllBacked(s') by {
      forall i | 0 <= i < |s'.attestations| ensures Backed(s'.presence.thresholds, s'.attestations[i]) {
        assert i < |s.attestations| ==> Backed(s.presence.thresholds, s.attestations[i]);
      }
    }
    ApprovalsGrow(s.attestations, s'.attestations);
    forall u | u in s'.users ensures TokenIdValid(s', u) {
      assert TokenIdValid(s, u);
    }
  }

  lemma {:induction false} InitiateSafe(w: World, s: State, uid: int, req: InitiateRequest, visit: Option<Visit>,
                                        roles: seq<RoleRow>)
    requires Inv(w, s) && InitiateAttestation(s, uid, req, visit, roles).Ok?
    ensures var s' := InitiateAttestation(s, uid, req, visit, roles).value; Inv(w, s') && Keeps(s, s')
  {
    assert A.Valid(w.primitives, s.attestations, s.sigs);
    hide Inv, Keeps, A.Valid, A.IsSha256Hex, Assign;
    var s' := InitiateAttestation(s, uid, req, visit, roles).value;
    AssignSound(s.sigs, roles, uid, visit.value.location, Micros(s.clock));
    var row := s'.attestations[|s.attestations|];
    A.AddRow(w.primitives, s.attestations, s.sigs, row);
    NewRowSafe(w, s, row);
  }

  lemma {:induction false} StaffSignSafe(w: World, s: State, id: nat, uid: int, req: SignRequest)
    requires Inv(w, s) && StaffSign(w, s, id, uid, req).Ok?
    ensures var s' := StaffSign(w, s, id, uid, req).value; Inv(w, s') && Keeps(s, s')
  {
    hide P.Valid, O.Valid, S.Valid, E.Verify, E.EncodeRecord, A.Payload, E.RecordVerifies, Keeps;
    var s' := StaffSign(w, s, id, uid, req).value;
    var row := s'.attestations[id];
    A.RecordOfVerified(w.primitives, req.keyHex, A.Payload(id, row), req.signature);
    assert A.RowValid(w.primitives, s.sigs, id, s.attestations[id]);
    A.UpdateRow(w.primitives, s.attestations, s.sigs, id, row);
    RowSafe(w, s, s', id, row);
  }

  lemma {:induction false} RejectSafe(w: World, s: State, id: nat, uid: int)
    requires Inv(w, s) && RejectAttestation(s, id, uid).Ok?
    ensures var s' := RejectAttestation(s, id, uid).value; Inv(w, s') && Keeps(s, s')
  {
    hide P.Valid, O.Valid, S.Valid, E.RecordVerifies, A.Payload, Keeps;
    var s' := RejectAttestation(s, id, uid).value;
    var row := s'.attestations[id];
    assert A.RowValid(w.primitives, s.sigs, id, s.attestations[id]);
    A.UpdateRow(w.primitives, s.attestations, s.sigs, id, row);
    RowSafe(w, s, s', id, row);
  }

  /** What the aggregated check establishes about the two records it parsed. */
  lemma {:induction false} RecordsVerified(w: World, both: (string, string), payload: string)
    requires RecordsVerify(w, both, payload)
    ensures E.RecordVerifies(w.primitives, both.0, payload) && E.RecordVerifies(w.primitives, both.1, payload)
  {
    hide E.ParseRecord, E.Verify;
    var one, two := E.ParseRecord(both.0).value, E.ParseRecord(both.1).value;
    var keys, sigs := [one.0, two.0], [one.1, two.1];
    E.AggregatedIff(w.primitives, keys, payload, sigs);
    assert E.Verify(w.primitives, keys[0], payload, sigs[0]) == E.Checked(true);
    assert E.Verify(w.primitives, keys[1], payload, sigs[1]) == E.Checked(true);
  }

  lemma {:induction false} BothVerify(w: World, both: (string, string), payload: string)
    requires E.RecordVerifies(w.primitives, both.0, payload) && E.RecordVerifies(w.primitives, both.1, payload)
    ensures RecordsVerify(w, both, payload)
  {
    hide E.ParseRecord, E.Verify;
    var one, two := E.ParseRecord(both.0).value, E.ParseRecord(both.1).value;
    E.AggregatedIff(w.primitives, [one.0, two.0], payload, [one.1, two.1]);
  }

  /** Writing a co-signature, and the approval when both records verify over the row's payload. */
  lemma {:induction false} SignedSafe(w: World, s: State, id: nat, uid: int, sig: SignatureRow, approve: bool)
    requires Inv(w, s) && id < |s.attestations|
    requires var row := s.attestations[id];
             row.status == A.CoSignPending && A.AssignedTo(row, uid) && (row.visit, uid) !in s.sigs
    requires var row := s.attestations[id];
             approve ==> var both := A.BothRecords(s.sigs[(row.visit, uid) := sig], row.visit, row.reviewer1,
                                                   row.reviewer2);
                         both.Some? && RecordsVerify(w, both.value, A.Payload(id, row))
    ensures var s' := Signed(s, id, uid, sig, approve); Inv(w, s') && Keeps(s, s')
  {
    hide P.Valid, O.Valid, S.Valid, E.Verify, E.EncodeRecord, A.Payload, E.RecordVerifies, RecordsVerify, Keeps;
    var s' := Signed(s, id, uid, sig, approve);
    var row, row' := s.attestations[id], s'.attestations[id];
    var key := (row.visit, uid);
    assert A.RowValid(w.primitives, s.sigs, id, row);
    A.MoreSignatures(w.primitives, s.attestations, s.sigs, key, sig);
    if approve {
      RecordsVerified(w, A.BothRecords(s'.sigs, row.visit, row.reviewer1, row.reviewer2).value, A.Payload(id, row));
      PayloadIgnoresStatus(id, row);
      FreshSignerNewPair(w, s, row, uid);
      A.UpdateRow(w.primitives, s.attestations, s'.sigs, id, row');
    }
    assert s'.attestations == s.attestations[id := row'];
    RowSafe(w, s, s', id, row');
  }

  lemma {:induction false} ReviewerSignSafe(w: World, s: State, id: nat, uid: int, req: SignRequest)
    requires Inv(w, s) && ReviewerSign(w, s, id, uid, req).Ok?
    ensures var s' := ReviewerSign(w, s, id, uid, req).value; Inv(w, s') && Keeps(s, s')
  {
    hide Inv, Keeps, Signed, RecordsVerify, E.Verify, A.Payload, NewSignature;
    var row := s.attestations[id];
    var sig := NewSignature(row, req, s.clock);
    SignedSafe(w, s, id, uid, sig, A.BothRecords(s.sigs[(row.visit, uid) := sig], row.visit, row.reviewer1,
                                                 row.reviewer2).Some?);
  }

  /** A reviewer who has not signed the visit yet belongs to no pair that already approved there. */
  lemma {:induction false} FreshSignerNewPair(w: World, s: State, row: A.Row, uid: int)
    requires A.Valid(w.primitives, s.attestations, s.sigs)
    requires A.AssignedTo(row, uid) && (row.visit, uid) !in s.sigs
    ensures forall j :: 0 <= j < |s.attestations| && s.attestations[j].status == A.Approved ==>
              !A.SamePair(row, s.attestations[j])
  {
    hide E.RecordVerifies, A.Payload;
    forall j | 0 <= j < |s.attestations| && s.attestations[j].status == A.Approved
      ensures !A.SamePair(row, s.attestations[j]) {
      var other := s.attestations[j];
      assert A.RowValid(w.primitives, s.sigs, j, other);
      assert uid in {row.reviewer1, row.reviewer2};
    }
  }

  lemma {:induction false} PayloadIgnoresStatus(id: nat, row: A.Row)
    ensures A.Payload(id, row.(status := A.Approved)) == A.Payload(id, row)
  {
  }

  /** A change of the token table and of the ids that name its rows. */
  lemma {:induction false} TokensSafe(w: World, s: State, s': State)
    requires Inv(w, s)
    requires s' == s.(tokens := s'.tokens, renewals := s'.renewals, users := s'.users)
    requires S.Valid(w.keys, s'.tokens, s'.renewals, s.clock)
    requires |s.tokens| <= |s'.tokens| && s.renewals <= s'.renewals
    requires forall i :: 0 <= i < |s.tokens| ==> TokenKeeps(s.tokens[i], s'.tokens[i])
    requires forall i :: |s.tokens| <= i < |s'.tokens| ==> ApprovedFor(s.attestations, s'.tokens[i].holder)
    requires forall u :: u in s'.users && s'.users[u].status == Attested ==>
               u in s.users && s.users[u].status == Attested
    requires forall u :: u in s'.users ==> TokenIdValid(s', u)
    ensures Inv(w, s') && Keeps(s, s')
  {
    hide P.Valid, A.Valid, O.Valid, S.Valid;
    forall i | 0 <= i < |s'.tokens| ensures ApprovedFor(s'.attestations, s'.tokens[i].holder) {
      assert i < |s.tokens| ==> TokenKeeps(s.tokens[i], s'.tokens[i]);
    }
  }

  lemma {:induction false} IssueSafe(w: World, s: State, uid: int, attestation: nat, kind: string, uuid: S.Uuid)
    requires Inv(w, s) && IssueSoultoken(w, s, uid, attestation, kind, uuid).Ok?
    ensures var s' := IssueSoultoken(w, s, uid, attestation, kind, uuid).value;
            && Inv(w, s') && Keeps(s, s')
            && |s'.tokens| == |s.tokens| + 1 && s'.tokens[|s.tokens|].holder == uid
            && s'.users == s.users[uid := s.users[uid].(soultoken := Some(|s.tokens|))]
  {
    hide P.Valid, A.Valid, O.Valid, S.RowPayload, S.OneLive, S.RowsValid, S.RowValid, S.Issued, Keeps;
    var s' := IssueSoultoken(w, s, uid, attestation, kind, uuid).value;
    var n := |s.tokens|;
    var t := s'.tokens[n];
    S.IssuedRow(w.keys, s.renewals, n, uuid, uid, kind, s.attestations[attestation].threshold, attestation, s.clock);
    S.IssueKeepsValid(w.keys, s.tokens, s.renewals, t, s.clock);
    forall u | u in s'.users ensures TokenIdValid(s', u) {
      assert TokenIdValid(s, u);
    }
    TokensSafe(w, s, s');
  }

  lemma {:induction false} RevokeSafe(w: World, s: State, id: nat, reason: string)
    requires Inv(w, s) && id < |s.tokens| && s.tokens[id].revokedAt.None?
    ensures var s', holder := RevokeToken(s, id, reason), s.tokens[id].holder;
            && Inv(w, s') && Keeps(s, s')
            && s'.tokens[id].revokedAt == Some(Micros(s.clock))
            && (holder in s.users ==> s'.users[holder].status == Registered && s'.users[holder].soultoken.None?)
            && forall u :: u in s.users && u != holder ==> s'.users[u] == s.users[u]
  {
    hide P.Valid, A.Valid, O.Valid, S.Valid, Keeps;
    var s' := RevokeToken(s, id, reason);
    S.RevokeKeepsValid(w.keys, s.tokens, s.renewals, id, reason, s.clock);
    forall u | u in s'.users ensures TokenIdValid(s', u) {
      assert TokenIdValid(s, u);
      assert forall i :: 0 <= i < |s.tokens| && S.Live(s'.tokens[i], u, s.clock) ==> S.Live(s.tokens[i], u, s.clock);
    }
    TokensSafe(w, s, s');
  }

  lemma {:induction false} RenewSafe(w: World, s: State, uid: int)
    requires Inv(w, s) && RenewSoultoken(w, s, uid).Ok?
    ensures var s' := RenewSoultoken(w, s, uid).value; Inv(w, s') && Keeps(s, s')
  {
    hide P.Valid, A.Valid, O.Valid, S.RowPayload, S.OneLive, S.RowValid, Keeps;
    var s' := RenewSoultoken(w, s, uid).value;
    var id := S.FindLive(s.tokens, uid, s.clock).value;
    assert S.RowValid(w.keys, s.renewals, id, s.tokens[id], s.clock);
    S.RenewedRow(w.keys, s.renewals, id, s.tokens[id], s.clock);
    S.RenewKeepsValid(w.keys, s.tokens, s.renewals, id, s'.tokens[id], s'.renewals[|s.renewals|], s.clock);
    forall u | u in s'.users ensures TokenIdValid(s', u) {
      assert TokenIdValid(s, u);
      assert forall i :: 0 <= i < |s.tokens| && S.Live(s'.tokens[i], u, s.clock) ==> S.Live(s.tokens[i], u, s.clock);
    }
    TokensSafe(w, s, s');
  }

  lemma {:induction false} OrderCommandSafe(w: World, s: State, cmd: Command)
    requires Inv(w, s) && Exec(w, s, cmd).Ok?
    requires cmd.CmdCreateOrder? || cmd.CmdActivateBox? || cmd.CmdCollect? || cmd.CmdCancel?
    ensures var s' := Exec(w, s, cmd).value; Inv(w, s') && Keeps(s, s')
  {
    hide P.Valid, A.Valid, S.Valid, Keeps, O.Valid, O.Final, O.Collect, O.Cancel, O.Activated;
    var s' := Exec(w, s, cmd).value;
    match cmd
    case CmdCreateOrder(uid, business, active, boxCount, amount) =>
      O.AddOrderKeeps(s.orders, s'.orders.orders[|s.orders.orders|]);
      OrdersSafe(w, s, s'.orders);
    case CmdActivateBox(uid, visit, visitExists, chip, expiresAt, roles) =>
      O.AddBoxKeeps(s.orders, visit, chip, expiresAt, s.clock);
      OrdersSafe(w, s, s'.orders);
    case CmdCollect(uid, chip, businesses) =>
      O.CollectKeeps(s.orders, uid, chip, businesses, s.clock);
      OrdersSafe(w, s, s'.orders);
    case CmdCancel(id, uid) =>
      O.CancelKeeps(s.orders, id, uid);
      OrdersSafe(w, s, s'.orders);
  }

  lemma {:induction false} AccountCommandSafe(w: World, s: State, cmd: Command)
    requires Inv(w, s) && Exec(w, s, cmd).Ok?
    requires cmd.CmdAddUser? || cmd.CmdSetFlags? || cmd.CmdVerifyIdentity?
    ensures var s' := Exec(w, s, cmd).value; Inv(w, s') && Keeps(s, s')
  {
    hide P.Valid, A.Valid, S.Valid, O.Valid, Inv, Keeps;
    UsersOnly(w, s, Exec(w, s, cmd).value);
  }

  lemma {:induction false} ExecSafe(w: World, s: State, cmd: Command)
    requires Inv(w, s) && Exec(w, s, cmd).Ok?
    ensures var s' := Exec(w, s, cmd).value; Inv(w, s') && Keeps(s, s')
  {
    hide Inv, Keeps, BeaconDwell, NfcTap, InitiateAttestation, StaffSign, ReviewerSign,
         RejectAttestation, IssueSoultoken, RenewSoultoken, RevokeToken;
    match cmd
    case CmdDwell(uid, dwell, gate, beacon) => DwellSafe(w, s, uid, dwell, gate, beacon);
    case CmdNfcTap(uid, boxId, business, hmac, gate, secret) =>
      NfcTapSafe(w, s, uid, boxId, business, hmac, gate, secret);
    case CmdInitiate(uid, init, visit, roles) => InitiateSafe(w, s, uid, init, visit, roles);
    case CmdStaffSign(id, uid, req) => StaffSignSafe(w, s, id, uid, req);
    case CmdReviewerSign(id, uid, req) => ReviewerSignSafe(w, s, id, uid, req);
    case CmdReject(id, uid) => RejectSafe(w, s, id, uid);
    case CmdIssue(uid, attestation, kind, uuid) => IssueSafe(w, s, uid, attestation, kind, uuid);
    case CmdRevoke(id, uid, reason, roles) => RevokeSafe(w, s, id, reason);
    case CmdSurrender(id, uid, visitExists, witnessedBy, roles) => RevokeSafe(w, s, id, "voluntary_surrender");
    case CmdRenew(uid) => RenewSafe(w, s, uid);
    case CmdCreateOrder(_, _, _, _, _) => OrderCommandSafe(w, s, cmd);
    case CmdActivateBox(_, _, _, _, _, _) => OrderCommandSafe(w, s, cmd);
    case CmdCollect(_, _, _) => OrderCommandSafe(w, s, cmd);
    case CmdCancel(_, _) => OrderCommandSafe(w, s, cmd);
    case CmdAddUser(_) => AccountCommandSafe(w, s, cmd);
    case CmdSetFlags(_, _, _, _) => AccountCommandSafe(w, s, cmd);
    case CmdVerifyIdentity(_, _) => AccountCommandSafe(w, s, cmd);
  }

  lemma {:induction false} StepSafe(w: World, s: State, t: Timed)
    requires Inv(w, s)
    ensures Inv(w, Step(w, s, t)) && Keeps(s, Step(w, s, t))
  {
    hide Inv, Keeps, Exec;
    var now := s.(clock := s.clock + t.delay);
    ClockSafe(w, s, s.clock + t.delay);
    if Exec(w, now, t.cmd).Ok? {
      ExecSafe(w, now, t.cmd);
      KeepsTrans(s, now, Exec(w, now, t.cmd).value);
    }
  }

  /** Whole runs keep the invariant, and nothing they have made permanent is undone. */
  lemma {:induction false} RunSafe(w: World, s: State, cmds: seq<Timed>)
    requires Inv(w, s)
    ensures Inv(w, Run(w, s, cmds)) && Keeps(s, Run(w, s, cmds))
  {
    hide Inv, Keeps, Step;
    if cmds == [] {
      ClockSafe(w, s, s.clock);
    } else {
      var before := Run(w, s, cmds[..|cmds| - 1]);
      RunSafe(w, s, cmds[..|cmds| - 1]);
      StepSafe(w, before, cmds[|cmds| - 1]);
      KeepsTrans(s, before, Run(w, s, cmds));
    }
  }
}
