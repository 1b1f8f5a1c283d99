/**
 * What each accepted command leaves in each table, row by row and field by field. Together with `Answers` this
 * says of every request what it is answered and what it does.
 */
module Effects {
  import opened Answers
  import opened Authority
  import opened Common
  import opened Payloads
  import opened Platform
  import opened Reviewers
  import opened Safety
  import opened Text
  import A = Attestations
  import Base36
  import E = Ed25519
  import O = Orders
  import P = Presence
  import S = Soultokens

  // ---- users ----

  /** How the row of user `u` changes: `x` before and `x'` after. */
  predicate UserChange(s: State, s': State, cmd: Command, u: int, x: User, x': User) {
    match cmd
    case CmdSetFlags(uid, banned, admin, deleted) =>
      x' == if u == uid then x.(banned := banned, admin := admin, deleted := deleted) else x
    case CmdVerifyIdentity(uid, _) => x' == if u == uid then x.(status := IdentityConfirmed) else x
    case CmdDwell(uid, _, _, _) => x' == if u == uid && Completes(s, s', u) then x.(status := PresenceConfirmed) else x
    case CmdNfcTap(uid, _, _, _, _, _) =>
      x' == if u == uid && Completes(s, s', u) then x.(status := PresenceConfirmed) else x
    case CmdReviewerSign(id, _, _) => x' == if Approves(s, s', id) && s.attestations[id].user == u
                                            then x.(status := Attested) else x
    case CmdReject(id, _) => x' == if id < |s.attestations| && s.attestations[id].user == u
                                   then x.(status := PresenceConfirmed) else x
    case CmdIssue(uid, _, _, _) => x' == if u == uid then x.(soultoken := Some(|s.tokens|)) else x
    case CmdRevoke(id, _, _, _) => x' == if HeldBy(s, id, u) then x.(status := Registered, soultoken := None) else x
    case CmdSurrender(id, _, _, _, _) =>
      x' == if HeldBy(s, id, u) then x.(status := Registered, soultoken := None) else x
    case _ => x' == x
  }

  /** The presence of `u` becomes met. */
  predicate Completes(s: State, s': State, u: int) { !P.Met(s.presence, u) && P.Met(s'.presence, u) }

  /** Attestation `id` becomes approved. */
  predicate Approves(s: State, s': State, id: nat) {
    && id < |s.attestations| && id < |s'.attestations|
    && s.attestations[id].status != A.Approved && s'.attestations[id].status == A.Approved
  }

  predicate HeldBy(s: State, id: nat, u: int) { id < |s.tokens| && s.tokens[id].holder == u }

  /**
   * Every command does to every user exactly what is listed: only an approval attests, and only the attestation's
   * user; only the completion of a threshold confirms presence, and only its own user's.
   */
  lemma {:induction false} UsersAfter(w: World, s: State, cmd: Command, u: int)
    requires Inv(w, s) && Exec(w, s, cmd).Ok?
    ensures var s' := Exec(w, s, cmd).value;
            && (u in s.users ==> u in s'.users && UserChange(s, s', cmd, u, s.users[u], s'.users[u]))
            && (u in s'.users && u !in s.users ==>
                  cmd == CmdAddUser(u) && s'.users[u] == User(Registered, false, false, false, None))
            && (cmd.CmdAddUser? ==> cmd.uid in s'.users)
  {
    hide Inv, Exec, P.Met;
    if cmd.CmdDwell? || cmd.CmdNfcTap? {
      PresenceUsers(w, s, cmd, u);
    } else if cmd.CmdReviewerSign? {
      SignUsers(w, s, cmd, u);
    } else {
      OtherUsers(w, s, cmd, u);
    }
  }

  lemma {:induction false} PresenceUsers(w: World, s: State, cmd: Command, u: int)
    requires Inv(w, s) && Exec(w, s, cmd).Ok? && (cmd.CmdDwell? || cmd.CmdNfcTap?)
    ensures var s' := Exec(w, s, cmd).value;
            && (u in s.users ==> u in s'.users && UserChange(s, s', cmd, u, s.users[u], s'.users[u]))
            && (u in s'.users ==> u in s.users)
  {
    InvParts(w, s);
    hide Inv, P.Valid, P.Met, BeaconDwell, NfcTap, Completes;
    match cmd {
      case CmdDwell(uid, dwell, gate, beacon) => DwellUsers(w, s, uid, dwell, gate, beacon);
      case CmdNfcTap(uid, boxId, business, hmac, gate, secret) =>
        TapUsers(w, s, uid, boxId, business, hmac, gate, secret);
    }
  }

  /** Users, when `uid` may have completed presence between `s` and `s'`. */
  predicate PromotedOnly(s: State, s': State, uid: int) {
    && s'.users.Keys == s.users.Keys
    && forall u :: u in s.users ==>
         s'.users[u] == if u == uid && Completes(s, s', u) then s.users[u].(status := PresenceConfirmed)
                        else s.users[u]
  }

  lemma {:induction false} DwellUsers(w: World, s: State, uid: int, dwell: DwellRequest, gate: Option<Error>,
                                      beacon: Option<Beacon>)
    requires P.Valid(s.presence) && BeaconDwell(w, s, uid, dwell, gate, beacon).Ok?
    ensures PromotedOnly(s, BeaconDwell(w, s, uid, dwell, gate, beacon).value, uid)
  {
    Refused(s, s.(presence := P.Refuse(s.presence, uid, dwell.business, dwell.day, false)), uid);
    Promoted(s, uid, dwell.business, dwell.day, false);
    hide PromotedOnly, PresenceUser, Witness, P.Valid, P.Qualify, P.Refuse, WithPresence;
  }

  lemma {:induction false} TapUsers(w: World, s: State, uid: int, boxId: nat, business: int, hmac: string,
                                    gate: Option<Error>, secret: Option<string>)
    requires P.Valid(s.presence) && NfcTap(w, s, uid, boxId, business, hmac, gate, secret).Ok?
    ensures PromotedOnly(s, NfcTap(w, s, uid, boxId, business, hmac, gate, secret).value, uid)
  {
    var day := s.clock / DAY;
    Refused(s, s.(presence := P.Refuse(s.presence, uid, business, day, true)), uid);
    hide PresenceUser, Witness, P.Valid, P.Qualify, P.Refuse, WithPresence, PromotedOnly, O.Tapped;
    var box := O.TapCheck(s.orders.boxes, boxId, s.clock).value;
    hide O.TapCheck;
    TapPromoted(s, uid, business, day, s.orders.boxes[boxId := O.Tapped(box, uid, s.clock)]);
  }

  lemma {:induction false} TapPromoted(s: State, uid: int, business: int, day: nat, boxes: seq<O.Box>)
    requires P.Valid(s.presence)
    ensures var s1 := s.(orders := s.orders.(boxes := boxes));
            PromotedOnly(s, WithPresence(s1, uid, P.Qualify(s.presence, uid, business, day, true, s.clock)), uid)
  {
    hide P.Valid, P.Qualify, WithPresence, PromotedOnly;
    var s1 := s.(orders := s.orders.(boxes := boxes));
    Promoted(s1, uid, business, day, true);
    SameBefore(s, s1, WithPresence(s1, uid, P.Qualify(s.presence, uid, business, day, true, s.clock)), uid);
  }

  lemma {:induction false} SameBefore(s: State, s1: State, s': State, uid: int)
    requires s1.users == s.users && s1.presence == s.presence && PromotedOnly(s1, s', uid)
    ensures PromotedOnly(s, s', uid)
  {
    hide P.Met;
  }

  lemma {:induction false} Refused(s: State, s': State, uid: int)
    requires s'.users == s.users && s'.presence.thresholds == s.presence.thresholds
    ensures PromotedOnly(s, s', uid)
  {
    assert P.Met(s'.presence, uid) <==> P.Met(s.presence, uid);
    hide P.Met;
  }

  /** A qualifying event promotes its user, if there is one, exactly when it completes their presence. */
  lemma {:induction false} Promoted(s: State, uid: int, business: int, day: nat, nfc: bool)
    requires P.Valid(s.presence)
    ensures var s' := WithPresence(s, uid, P.Qualify(s.presence, uid, business, day, nfc, s.clock));
            PromotedOnly(s, s', uid)
  {
    hide P.Met, P.Qualify, P.Valid, P.NewlyMet, P.Grows;
    P.QualifyGrows(s.presence, uid, business, day, nfc, s.clock);
  }

  lemma {:induction false} SignUsers(w: World, s: State, cmd: Command, u: int)
    requires Exec(w, s, cmd).Ok? && cmd.CmdReviewerSign?
    ensures var s' := Exec(w, s, cmd).value;
            && (u in s.users ==> u in s'.users && UserChange(s, s', cmd, u, s.users[u], s'.users[u]))
            && (u in s'.users ==> u in s.users)
  {
    hide RecordsVerify, A.Payload, E.Verify, E.EncodeRecord, A.BothRecords;
  }

  lemma {:induction false} OtherUsers(w: World, s: State, cmd: Command, u: int)
    requires Exec(w, s, cmd).Ok? && !cmd.CmdDwell? && !cmd.CmdNfcTap? && !cmd.CmdReviewerSign?
    ensures var s' := Exec(w, s, cmd).value;
            && (u in s.users ==> u in s'.users && UserChange(s, s', cmd, u, s.users[u], s'.users[u]))
            && (u in s'.users && u !in s.users ==>
                  cmd == CmdAddUser(u) && s'.users[u] == User(Registered, false, false, false, None))
            && (cmd.CmdAddUser? ==> cmd.uid in s'.users)
  {
    hide A.Payload, E.Verify, E.EncodeRecord, S.FindLive, S.Issued, S.Renewed, Assign, A.IsSha256Hex, O.Collect,
         O.Cancel, O.Activated, HasRole, P.Met;
  }

  // ---- identity ----

  /** A verification adds one credential, of the requester for that session; nothing else touches credentials. */
  lemma {:induction false} CredentialsAfter(w: World, s: State, cmd: Command)
    requires Exec(w, s, cmd).Ok?
    ensures Exec(w, s, cmd).value.credentials
         == if cmd.CmdVerifyIdentity? then s.credentials + [Credential(cmd.uid, cmd.session)] else s.credentials
  {
    hide RecordsVerify, A.Payload, E.Verify, E.EncodeRecord, S.FindLive, S.Issued, S.Renewed, P.Qualify, P.Refuse,
         Witness, Assign, A.IsSha256Hex, O.Collect, O.Cancel, O.Activated, O.TapCheck, HasRole, P.NewlyMet;
  }

  // ---- presence ----

  /** The witness of a beacon key for the user on the day. */
  function WitnessOf(w: World, secret: string, business: int, day: nat, uid: int): string {
    w.hmac(secret, Dec(business) + ":" + DateText(w.keys.civil(day * DAY).date) + ":" + Dec(uid))
  }

  lemma {:induction false} WitnessIs(w: World, secret: string, business: int, day: nat, uid: int)
    ensures Witness(w, secret, business, day, uid) == WitnessOf(w, secret, business, day, uid)
  {
    WitnessLayout(business, DateOf(w, day), uid);
  }

  /** What counts an event for `uid`: one more event and its pair, for nobody else, with a row that says so now. */
  ghost predicate Gains(s: State, s': State, uid: int, business: int, day: nat, nfc: bool) {
    && s'.presence.events == s.presence.events + [P.Event(uid, business, day, nfc, true)]
    && |P.Qualifying(s'.presence.events, uid)| == |P.Qualifying(s.presence.events, uid)| + 1
    && P.Pairs(s'.presence.events, uid) == P.Pairs(s.presence.events, uid) + {(business, day)}
    && (forall u :: u != uid ==> P.Qualifying(s'.presence.events, u) == P.Qualifying(s.presence.events, u))
    && exists i :: 0 <= i < |s'.presence.thresholds| && RowSays(s', s'.presence.thresholds[i], uid)
  }

  predicate RowSays(s': State, row: P.Threshold, uid: int) {
    && row.user == uid && row.lastAt == Some(Micros(s'.clock))
    && row.eventCount == |P.Qualifying(s'.presence.events, uid)| && row.daysCount == |P.Pairs(s'.presence.events, uid)|
    && (row.metAt.Some? <==> row.eventCount >= 3 && row.daysCount >= 3)
  }

  /** The event is logged and nothing else about presence changes. */
  predicate OnlyLogged(s: State, s': State, e: P.Event) {
    s'.presence == s.presence.(events := s.presence.events + [e])
  }

  predicate AddsQualifying(s: State, r: Result<State>) {
    r.Ok? && exists i :: |s.presence.events| <= i < |r.value.presence.events| && r.value.presence.events[i].qualifying
  }

  /** A tap that must count: open gate, a user who may gather presence, a live untapped box, the right witness. */
  predicate TapCounts(w: World, s: State, cmd: Command)
    requires cmd.CmdNfcTap?
  {
    && cmd.gate.None? && PresenceClosed(s, cmd.uid).None? && cmd.boxId < |s.orders.boxes|
    && var box := s.orders.boxes[cmd.boxId];
       && box.activatedAt.Some? && (box.expiresAt.Some? ==> s.clock <= box.expiresAt.value) && box.tappedBy.None?
       && (cmd.secret.Some? ==>
             cmd.hmac == WitnessOf(w, cmd.secret.value, cmd.business, s.clock / DAY, cmd.uid))
  }

  /** Exactly such a tap adds a qualifying event; any other accepted tap is logged and counts for nothing. */
  lemma {:induction false} TapCountsIff(w: World, s: State, cmd: Command)
    requires Inv(w, s) && cmd.CmdNfcTap?
    ensures var r, day := Exec(w, s, cmd), s.clock / DAY;
            && (AddsQualifying(s, r) <==> TapCounts(w, s, cmd))
            && (TapCounts(w, s, cmd) ==> r.Ok? && Gains(s, r.value, cmd.uid, cmd.business, day, true))
            && (r.Ok? && !TapCounts(w, s, cmd) ==>
                  OnlyLogged(s, r.value, P.Event(cmd.uid, cmd.business, day, true, false)))
  {
    InvParts(w, s);
    hide Inv, Exec, P.Valid, A.Valid, O.Valid, AllBacked, AttestedApproved, HoldersApproved, TokenIdsValid;
    hide Gains, OnlyLogged, WitnessOf, NfcTap;
    ExecTaps(w, s, cmd);
    TapOutcome(w, s, cmd);
    if TapCounts(w, s, cmd) {
      GainsBy(s, Exec(w, s, cmd).value, cmd.uid, cmd.business, s.clock / DAY, true);
    }
    if Exec(w, s, cmd).Ok? && !TapCounts(w, s, cmd) {
      LoggedBy(s, Exec(w, s, cmd).value, P.Event(cmd.uid, cmd.business, s.clock / DAY, true, false));
    }
  }

  lemma {:induction false} ExecTaps(w: World, s: State, cmd: Command)
    requires cmd.CmdNfcTap?
    ensures Exec(w, s, cmd) == NfcTap(w, s, cmd.uid, cmd.boxId, cmd.business, cmd.hmac, cmd.gate, cmd.secret)
  {
    hide NfcTap;
  }

  lemma {:induction false} TapOutcome(w: World, s: State, cmd: Command)
    requires cmd.CmdNfcTap?
    ensures var r := NfcTap(w, s, cmd.uid, cmd.boxId, cmd.business, cmd.hmac, cmd.gate, cmd.secret);
            var day := s.clock / DAY;
            if TapCounts(w, s, cmd) then Qualified(s, r, cmd.uid, cmd.business, day, true)
            else r.Ok? ==> r.value.presence == P.Refuse(s.presence, cmd.uid, cmd.business, day, true)
  {
    if cmd.secret.Some? {
      WitnessIs(w, cmd.secret.value, cmd.business, s.clock / DAY, cmd.uid);
    }
    hide Witness, WitnessOf, P.Qualify, P.Refuse, P.NewlyMet, O.Tapped;
  }

  predicate Qualified(s: State, r: Result<State>, uid: int, business: int, day: nat, nfc: bool) {
    && r.Ok? && r.value.clock == s.clock
    && r.value.presence == P.Qualify(s.presence, uid, business, day, nfc, s.clock)
  }

  /** What a qualifying event does to the presence tables. */
  lemma {:induction false} GainsBy(s: State, s': State, uid: int, business: int, day: nat, nfc: bool)
    requires P.Valid(s.presence) && s'.clock == s.clock
    requires s'.presence == P.Qualify(s.presence, uid, business, day, nfc, s.clock)
    ensures Gains(s, s', uid, business, day, nfc) && AddsQualifying(s, Ok(s'))
  {
    P.QualifyAdds(s.presence, uid, business, day, nfc, s.clock);
    hide P.Valid, P.Qualify, P.Qualifying, P.Pairs, P.Met, P.Find;
    var i := P.QualifyStamps(s.presence, uid, business, day, nfc, s.clock);
    assert P.RowAgrees(s'.presence.events, s'.presence.thresholds[i]) by {
      ValidRow(s'.presence, i);
    }
    assert RowSays(s', s'.presence.thresholds[i], uid);
    assert s'.presence.events[|s.presence.events|].qualifying;
  }

  lemma {:induction false} ValidRow(p: P.Tables, i: nat)
    requires P.Valid(p) && i < |p.thresholds|
    ensures P.RowAgrees(p.events, p.thresholds[i])
  {
  }

  lemma {:induction false} LoggedBy(s: State, s': State, e: P.Event)
    requires s'.presence == P.Refuse(s.presence, e.user, e.business, e.day, e.nfc) && !e.qualifying
    ensures OnlyLogged(s, s', e) && !AddsQualifying(s, Ok(s'))
  {
  }

  /** A dwell that must count: of at least 15 minutes, in range, with the witness of that business's beacon. */
  predicate DwellCounts(w: World, s: State, cmd: Command)
    requires cmd.CmdDwell?
  {
    && cmd.gate.None? && PresenceClosed(s, cmd.uid).None? && cmd.beacon.Some?
    && cmd.beacon.value.business == Some(cmd.dwell.business)
    && cmd.dwell.rssi >= cmd.beacon.value.minimumRssi && cmd.dwell.dwellMinutes >= 15
    && cmd.dwell.hmac == WitnessOf(w, cmd.beacon.value.secret, cmd.dwell.business, cmd.dwell.day, cmd.uid)
  }

  lemma {:induction false} DwellCountsIff(w: World, s: State, cmd: Command)
    requires Inv(w, s) && cmd.CmdDwell?
    ensures var r, d := Exec(w, s, cmd), cmd.dwell;
            && (AddsQualifying(s, r) <==> DwellCounts(w, s, cmd))
            && (DwellCounts(w, s, cmd) ==> r.Ok? && Gains(s, r.value, cmd.uid, d.business, d.day, false))
            && (r.Ok? && !DwellCounts(w, s, cmd) ==>
                  OnlyLogged(s, r.value, P.Event(cmd.uid, d.business, d.day, false, false)))
  {
    InvParts(w, s);
    hide Inv, Exec, P.Valid, A.Valid, O.Valid, AllBacked, AttestedApproved, HoldersApproved, TokenIdsValid;
    hide Gains, OnlyLogged, WitnessOf, BeaconDwell;
    ExecDwells(w, s, cmd);
    DwellOutcome(w, s, cmd);
    if DwellCounts(w, s, cmd) {
      GainsBy(s, Exec(w, s, cmd).value, cmd.uid, cmd.dwell.business, cmd.dwell.day, false);
    }
    if Exec(w, s, cmd).Ok? && !DwellCounts(w, s, cmd) {
      LoggedBy(s, Exec(w, s, cmd).value, P.Event(cmd.uid, cmd.dwell.business, cmd.dwell.day, false, false));
    }
  }

  lemma {:induction false} ExecDwells(w: World, s: State, cmd: Command)
    requires cmd.CmdDwell?
    ensures Exec(w, s, cmd) == BeaconDwell(w, s, cmd.uid, cmd.dwell, cmd.gate, cmd.beacon)
  {
    hide BeaconDwell;
  }

  lemma {:induction false} DwellOutcome(w: World, s: State, cmd: Command)
    requires cmd.CmdDwell?
    ensures var r, d := BeaconDwell(w, s, cmd.uid, cmd.dwell, cmd.gate, cmd.beacon), cmd.dwell;
            if DwellCounts(w, s, cmd) then Qualified(s, r, cmd.uid, d.business, d.day, false)
            else r.Ok? ==> r.value.presence == P.Refuse(s.presence, cmd.uid, d.business, d.day, false)
  {
    if cmd.beacon.Some? {
      WitnessIs(w, cmd.beacon.value.secret, cmd.dwell.business, cmd.dwell.day, cmd.uid);
    }
    hide Witness, WitnessOf, P.Qualify, P.Refuse, P.NewlyMet;
  }

  /** No other command touches presence. */
  lemma {:induction false} PresenceAfter(w: World, s: State, cmd: Command)
    requires Exec(w, s, cmd).Ok? && !cmd.CmdDwell? && !cmd.CmdNfcTap?
    ensures Exec(w, s, cmd).value.presence == s.presence
  {
    hide RecordsVerify, A.Payload, E.Verify, E.EncodeRecord, S.FindLive, S.Issued, S.Renewed, Assign, A.IsSha256Hex,
         O.Collect, O.Cancel, O.Activated, HasRole;
  }

  // ---- attestations ----

  /** Both assigned reviewers have signed the visit. */
  predicate BothSigned(sigs: Signatures, row: A.Row) {
    (row.visit, row.reviewer1) in sigs && (row.visit, row.reviewer2) in sigs
  }

  /**
   * How row `i` changes: staff sign stores the record, keeps the photo hash unless the request brings one, and sets
   * the deadline; a co-signature approves once both have signed; a rejection rejects.
   */
  predicate AttestationChange(s: State, s': State, cmd: Command, i: nat, row: A.Row, row': A.Row) {
    match cmd
    case CmdStaffSign(id, _, req) =>
      row' == if i != id then row
              else row.(status := A.CoSignPending, staffRecord := Some(req.keyHex + ":" + req.signature),
                        photoHash := if req.photoHash.Some? then req.photoHash else row.photoHash,
                        deadline := Some(Micros(s.clock) + 48 * 3600 * SECOND))
    case CmdReviewerSign(id, _, _) =>
      row' == if i == id && BothSigned(s'.sigs, row) then row.(status := A.Approved) else row
    case CmdReject(id, _) => row' == if i == id then row.(status := A.Rejected) else row
    case _ => row' == row
  }

  lemma {:induction false} AttestationsAfter(w: World, s: State, cmd: Command)
    requires Inv(w, s) && Exec(w, s, cmd).Ok?
    ensures var s' := Exec(w, s, cmd).value;
            && |s'.attestations| == |s.attestations| + (if cmd.CmdInitiate? then 1 else 0)
            && forall i :: 0 <= i < |s.attestations| ==>
                 AttestationChange(s, s', cmd, i, s.attestations[i], s'.attestations[i])
  {
    hide Inv, Exec;
    if cmd.CmdReviewerSign? {
      SignAttestations(w, s, cmd);
    } else {
      OtherAttestations(w, s, cmd);
    }
  }

  lemma {:induction false} SignAttestations(w: World, s: State, cmd: Command)
    requires Inv(w, s) && Exec(w, s, cmd).Ok? && cmd.CmdReviewerSign?
    ensures var s' := Exec(w, s, cmd).value;
            && |s'.attestations| == |s.attestations|
            && forall i :: 0 <= i < |s.attestations| ==>
                 AttestationChange(s, s', cmd, i, s.attestations[i], s'.attestations[i])
  {
    assert cmd.id < |s.attestations| ==> A.RowValid(w.primitives, s.sigs, cmd.id, s.attestations[cmd.id]);
    hide Inv, Exec, ReviewerSign, E.RecordVerifies;
    ExecSigns(w, s, cmd);
    SignedRow(w, s, cmd.id, cmd.uid, cmd.req);
  }

  lemma {:induction false} SignedRow(w: World, s: State, id: nat, uid: int, req: SignRequest)
    requires ReviewerSign(w, s, id, uid, req).Ok?
    ensures id < |s.attestations|
    ensures var s', row := ReviewerSign(w, s, id, uid, req).value, s.attestations[id];
            s'.attestations == s.attestations[
              id := if row.reviewer1 != row.reviewer2 && BothSigned(s'.sigs, row) then row.(status := A.Approved)
                    else row]
  {
    hide SignRefused, RecordsVerify, A.Payload, NewSignature, WithStatus;
  }

  lemma {:induction false} OtherAttestations(w: World, s: State, cmd: Command)
    requires Exec(w, s, cmd).Ok? && !cmd.CmdReviewerSign?
    ensures var s' := Exec(w, s, cmd).value;
            && |s'.attestations| == |s.attestations| + (if cmd.CmdInitiate? then 1 else 0)
            && forall i :: 0 <= i < |s.attestations| ==>
                 AttestationChange(s, s', cmd, i, s.attestations[i], s'.attestations[i])
  {
    MicrosPlus(s.clock, 48 * 3600 * 1_000_000);
    hide A.Payload, E.Verify, S.FindLive, S.Issued, S.Renewed, P.Qualify, P.Refuse, Witness, Assign, A.IsSha256Hex,
         O.Collect, O.Cancel, O.Activated, O.TapCheck, HasRole, P.NewlyMet, Micros;
  }

  /** A row that is still pending is the row as it was opened. */
  lemma {:induction false} PendingUnchanged(w: World, s: State, cmds: seq<Timed>, i: nat)
    requires Inv(w, s) && i < |s.attestations|
    ensures var s' := Run(w, s, cmds);
            && i < |s'.attestations|
            && (s'.attestations[i].status == A.Pending ==> s'.attestations[i] == s.attestations[i])
  {
    hide Inv, Keeps, Step;
    if cmds == [] {
    } else {
      PendingUnchanged(w, s, cmds[..|cmds| - 1], i);
      RunSafe(w, s, cmds[..|cmds| - 1]);
      PendingStep(w, Run(w, s, cmds[..|cmds| - 1]), cmds[|cmds| - 1], i);
    }
  }

  lemma {:induction false} PendingStep(w: World, s: State, t: Timed, i: nat)
    requires i < |s.attestations|
    ensures var s' := Step(w, s, t);
            && i < |s'.attestations|
            && (s'.attestations[i].status == A.Pending ==> s'.attestations[i] == s.attestations[i])
  {
    hide Exec;
    var now := s.(clock := s.clock + t.delay);
    if Exec(w, now, t.cmd).Ok? {
      RowAuthority(w, now, t.cmd, i);
    }
  }

  /**
   * The photo hash an attestation was opened with is what staff sign covers: at any later time, while the row is
   * pending, a request of its staff without a hash of its own is accepted iff its signature verifies over the
   * payload with that hash.
   */
  lemma {:induction false} OpenedHashIsSigned(w: World, s: State, cmd: Command, cmds: seq<Timed>, i: nat,
                                              req: SignRequest)
    requires Inv(w, s) && Exec(w, s, cmd).Ok? && cmd.CmdInitiate? && i == |s.attestations|
    requires var s2 := Run(w, Exec(w, s, cmd).value, cmds);
             i < |s2.attestations| && s2.attestations[i].status == A.Pending && req.photoHash.None?
    ensures var s2 := Run(w, Exec(w, s, cmd).value, cmds);
            var hash := if cmd.init.photoHash.Some? then cmd.init.photoHash.value else "";
            Exec(w, s2, CmdStaffSign(i, cmd.uid, req)).Ok?
            <==> E.Verify(w.primitives, req.keyHex,
                          Dec(i) + "|" + Dec(cmd.init.visit) + "|" + Dec(cmd.init.user) + "|" + hash
                          + "|BFIP_ATTESTATION_V1",
                          req.signature)
                 == E.Checked(true)
  {
    hide Inv, Exec, Run, E.Verify, Backed, Eligible, Cosigns, Keeps;
    var s1 := Exec(w, s, cmd).value;
    AttestationsAfter(w, s, cmd);
    ExecSafe(w, s, cmd);
    PendingUnchanged(w, s1, cmds, i);
    OpeningAuthority(w, s, cmd, i);
    StaffSignAnswer(w, Run(w, s1, cmds), i, cmd.uid, req);
    AttestationLayout(i, cmd.init.visit, cmd.init.user, cmd.init.photoHash);
  }

  // ---- soultokens ----

  /** Timestamps as signed: RFC 3339 text of the stored instants. */
  function SignedText(w: World, t: S.Token): string {
    UuidText(t.uuid) + "|" + Dec(t.holder) + "|" + Rfc3339(w.keys.civil(t.issuedAt)) + "|"
    + Rfc3339(w.keys.civil(t.expiresAt)) + "|" + t.code
  }

  lemma {:induction false} RowPayloadLayout(w: World, t: S.Token)
    ensures S.RowPayload(w.keys, t) == SignedText(w, t)
  {
    SoultokenLayout(t.uuid, t.holder, Rfc3339(w.keys.civil(t.issuedAt)), Rfc3339(w.keys.civil(t.expiresAt)), t.code);
  }

  /** Unrevoked, unexpired, of the user kind, held by `uid`. */
  predicate LiveFor(s: State, t: S.Token, uid: int) {
    t.holder == uid && t.kind == "user" && t.revokedAt.None? && Micros(s.clock) < t.expiresAt
  }

  /** How token `i` changes: a renewal sets expiry, renewal time and signature of the requester's live one. */
  predicate TokenEffect(w: World, s: State, cmd: Command, t: S.Token, i: nat, t': S.Token) {
    match cmd
    case CmdRenew(uid) =>
      if LiveFor(s, t, uid)
      then t' == t.(expiresAt := Micros(s.clock) + YEAR, renewedAt := Some(Micros(s.clock)),
                    signature := Some(w.keys.sign(SignedText(w, t.(expiresAt := Micros(s.clock) + YEAR)))))
      else t' == t
    case CmdRevoke(id, _, reason, _) =>
      t' == if i == id then t.(revokedAt := Some(Micros(s.clock)), reason := reason) else t
    case CmdSurrender(id, _, _, _, _) =>
      t' == if i == id then t.(revokedAt := Some(Micros(s.clock)), reason := "voluntary_surrender") else t
    case _ => t' == t
  }

  lemma {:induction false} TokensAfter(w: World, s: State, cmd: Command, i: nat)
    requires Inv(w, s) && Exec(w, s, cmd).Ok? && i < |s.tokens|
    ensures var s' := Exec(w, s, cmd).value;
            && |s'.tokens| == |s.tokens| + (if cmd.CmdIssue? then 1 else 0)
            && TokenEffect(w, s, cmd, s.tokens[i], i, s'.tokens[i])
  {
    hide Inv, Exec;
    if cmd.CmdRenew? {
      var id := RenewalEffect(w, s, cmd);
      OnlyLive(w, s, cmd.uid, id, i);
    } else {
      OtherTokens(w, s, cmd, i);
    }
  }

  lemma {:induction false} OnlyLive(w: World, s: State, uid: int, id: nat, i: nat)
    requires Inv(w, s) && id < |s.tokens| && i < |s.tokens| && LiveFor(s, s.tokens[id], uid)
    ensures LiveFor(s, s.tokens[i], uid) <==> i == id
  {
    assert S.OneLive(s.tokens, s.clock);
    hide Inv;
    assert S.Live(s.tokens[id], uid, s.clock);
    assert LiveFor(s, s.tokens[i], uid) ==> S.Live(s.tokens[i], uid, s.clock);
  }

  lemma {:induction false} OtherTokens(w: World, s: State, cmd: Command, i: nat)
    requires Exec(w, s, cmd).Ok? && !cmd.CmdRenew? && i < |s.tokens|
    ensures var s' := Exec(w, s, cmd).value;
            && |s'.tokens| == |s.tokens| + (if cmd.CmdIssue? then 1 else 0)
            && TokenEffect(w, s, cmd, s.tokens[i], i, s'.tokens[i])
  {
    hide RecordsVerify, A.Payload, E.Verify, E.EncodeRecord, S.FindLive, S.Issued, P.Qualify, P.Refuse, Witness,
         Assign, A.IsSha256Hex, O.Collect, O.Cancel, O.Activated, O.TapCheck, HasRole, P.NewlyMet, SignedText, Micros;
  }

  /**
   * Every renewal gives a year from now: it extends the requester's live token to exactly that, re-signs it over
   * that, and logs the step from the old expiry. No other command writes the log.
   */
  lemma {:induction false} RenewalEffect(w: World, s: State, cmd: Command) returns (id: nat)
    requires Exec(w, s, cmd).Ok? && cmd.CmdRenew?
    ensures id < |s.tokens| && LiveFor(s, s.tokens[id], cmd.uid)
    ensures var s', t, until := Exec(w, s, cmd).value, s.tokens[id], Micros(s.clock) + 365 * 86_400 * SECOND;
            && s'.tokens == s.tokens[id := t.(
                 expiresAt := until, renewedAt := Some(Micros(s.clock)),
                 signature := Some(w.keys.sign(SignedText(w, t.(expiresAt := until)))))]
            && s'.renewals == s.renewals + [S.Renewal(id, cmd.uid, t.expiresAt, until)]
  {
    hide *;
    ExecRenews(w, s, cmd);
    id := RenewalRows(w, s, cmd.uid);
    RenewedSpelled(w, s.tokens[id], s.clock);
  }

  lemma {:induction false} ExecRenews(w: World, s: State, cmd: Command)
    requires cmd.CmdRenew?
    ensures Exec(w, s, cmd) == RenewSoultoken(w, s, cmd.uid)
  {
    hide RenewSoultoken;
  }

  lemma {:induction false} RenewalRows(w: World, s: State, uid: int) returns (id: nat)
    requires RenewSoultoken(w, s, uid).Ok?
    ensures id < |s.tokens| && LiveFor(s, s.tokens[id], uid)
    ensures var s', t' := RenewSoultoken(w, s, uid).value, S.Renewed(w.keys, s.tokens[id], s.clock);
            && s'.tokens == s.tokens[id := t']
            && s'.renewals == s.renewals + [S.Renewal(id, uid, s.tokens[id].expiresAt, t'.expiresAt)]
  {
    id := S.FindLive(s.tokens, uid, s.clock).value;
    hide S.Renewed, S.FindLive;
  }

  lemma {:induction false} RenewedSpelled(w: World, t: S.Token, now: nat)
    ensures var until := Micros(now) + 365 * 86_400 * SECOND;
            S.Renewed(w.keys, t, now)
            == t.(expiresAt := until, renewedAt := Some(Micros(now)),
                  signature := Some(w.keys.sign(SignedText(w, t.(expiresAt := until)))))
  {
    MicrosPlusYear(now);
    var t' := t.(expiresAt := Micros(now) + YEAR, renewedAt := Some(Micros(now)));
    RowPayloadLayout(w, t');
    assert SignedText(w, t') == SignedText(w, t.(expiresAt := Micros(now) + YEAR));
    hide S.RowPayload, SignedText, Micros;
  }

  lemma {:induction false} RenewalsAfter(w: World, s: State, cmd: Command)
    requires Exec(w, s, cmd).Ok? && !cmd.CmdRenew?
    ensures Exec(w, s, cmd).value.renewals == s.renewals
  {
    hide RecordsVerify, A.Payload, E.Verify, E.EncodeRecord, S.FindLive, S.Issued, P.Qualify, P.Refuse, Witness,
         Assign, A.IsSha256Hex, O.Collect, O.Cancel, O.Activated, O.TapCheck, HasRole, P.NewlyMet;
  }

  /**
   * A renewed token is live for a year: in every continuation without another renewal by its holder, and in which
   * it has not been revoked, it is live exactly until 365 days after the renewal.
   */
  lemma {:induction false} RenewedForAYearIff(w: World, s: State, cmd: Command, id: nat, cmds: seq<Timed>)
    requires Inv(w, s) && Exec(w, s, cmd).Ok? && cmd.CmdRenew?
    requires id < |s.tokens| && LiveFor(s, s.tokens[id], cmd.uid)
    requires forall t :: t in cmds ==> t.cmd != CmdRenew(cmd.uid)
    ensures var s2 := Run(w, Exec(w, s, cmd).value, cmds);
            && id < |s2.tokens|
            && (s2.tokens[id].revokedAt.None? ==>
                  (LiveFor(s2, s2.tokens[id], cmd.uid)
                   <==> Micros(s2.clock) < Micros(s.clock) + 365 * 86_400 * SECOND))
  {
    hide Inv, Exec, Run, SignedText, Keeps;
    var s1 := Exec(w, s, cmd).value;
    var at := RenewalEffect(w, s, cmd);
    OnlyLive(w, s, cmd.uid, at, id);
    ExecSafe(w, s, cmd);
    UnrenewedUnchanged(w, s1, cmd.uid, id, cmds);
  }

  /** Without a renewal by its holder, a token that has not been revoked is the token as it was. */
  lemma {:induction false} UnrenewedUnchanged(w: World, s: State, uid: int, id: nat, cmds: seq<Timed>)
    requires Inv(w, s) && id < |s.tokens| && s.tokens[id].holder == uid
    requires forall t :: t in cmds ==> t.cmd != CmdRenew(uid)
    ensures var s' := Run(w, s, cmds);
            id < |s'.tokens| && (s'.tokens[id] == s.tokens[id] || s'.tokens[id].revokedAt.Some?)
  {
    hide Inv, Keeps, Step;
    if cmds == [] {
    } else {
      var before, t := Run(w, s, cmds[..|cmds| - 1]), cmds[|cmds| - 1];
      assert forall x :: x in cmds[..|cmds| - 1] ==> x in cmds;
      UnrenewedUnchanged(w, s, uid, id, cmds[..|cmds| - 1]);
      RunSafe(w, s, cmds[..|cmds| - 1]);
      assert t in cmds;
      UnrenewedStep(w, before, uid, id, t);
    }
  }

  lemma {:induction false} UnrenewedStep(w: World, s: State, uid: int, id: nat, t: Timed)
    requires Inv(w, s) && id < |s.tokens| && t.cmd != CmdRenew(uid)
    requires s.tokens[id].holder == uid || s.tokens[id].revokedAt.Some?
    ensures var s' := Step(w, s, t);
            && id < |s'.tokens|
            && (s'.tokens[id] == s.tokens[id] || s'.tokens[id].revokedAt.Some?)
            && (s.tokens[id].revokedAt.Some? ==> s'.tokens[id].revokedAt.Some?)
  {
    hide Exec, Inv, Keeps, SignedText;
    var now := s.(clock := s.clock + t.delay);
    ClockSafe(w, s, now.clock);
    if Exec(w, now, t.cmd).Ok? {
      TokensAfter(w, now, t.cmd, id);
    }
  }

  /** The token issued: for the requester, over the named attestation, valid for a year, with its code and signature. */
  lemma {:induction false} IssueEffect(w: World, s: State, cmd: Command)
    requires Exec(w, s, cmd).Ok? && cmd.CmdIssue?
    ensures var s', now := Exec(w, s, cmd).value, Micros(s.clock);
            && |s'.tokens| == |s.tokens| + 1
            && var t := s'.tokens[|s.tokens|];
               && t.uuid == cmd.uuid && t.holder == cmd.uid && t.kind == cmd.kind
               && t.attestation == cmd.attestation < |s.attestations|
               && t.threshold == s.attestations[cmd.attestation].threshold
               && t.issuedAt == now && t.expiresAt == now + 365 * 86_400 * SECOND
               && t.renewedAt.None? && t.revokedAt.None? && t.reason == ""
               && t.code == Base36.DisplayCode(w.keys.mac(cmd.uuid))
               && t.signature == Some(w.keys.sign(SignedText(w, t)))
  {
    hide *;
    assert Exec(w, s, cmd) == IssueSoultoken(w, s, cmd.uid, cmd.attestation, cmd.kind, cmd.uuid) by {
      ExecIssues(w, s, cmd);
    }
    IssuedRows(w, s, cmd.uid, cmd.attestation, cmd.kind, cmd.uuid);
    IssuedSpelled(w, cmd.uuid, cmd.uid, cmd.kind, s.attestations[cmd.attestation].threshold, cmd.attestation, s.clock);
  }

  lemma {:induction false} ExecIssues(w: World, s: State, cmd: Command)
    requires cmd.CmdIssue?
    ensures Exec(w, s, cmd) == IssueSoultoken(w, s, cmd.uid, cmd.attestation, cmd.kind, cmd.uuid)
  {
    hide IssueSoultoken;
  }

  lemma {:induction false} IssuedRows(w: World, s: State, uid: int, attestation: nat, kind: string, uuid: S.Uuid)
    requires IssueSoultoken(w, s, uid, attestation, kind, uuid).Ok?
    ensures attestation < |s.attestations|
    ensures IssueSoultoken(w, s, uid, attestation, kind, uuid).value.tokens
         == s.tokens + [S.Issued(w.keys, uuid, uid, kind, s.attestations[attestation].threshold, attestation, s.clock)]
  {
    hide S.Issued, S.FindLive;
  }

  lemma {:induction false} IssuedSpelled(w: World, uuid: S.Uuid, holder: int, kind: string, threshold: nat,
                                         attestation: nat, now: nat)
    ensures var t := S.Issued(w.keys, uuid, holder, kind, threshold, attestation, now);
            t == S.Token(uuid, Base36.DisplayCode(w.keys.mac(uuid)), holder, kind, threshold, attestation,
                         Some(w.keys.sign(SignedText(w, t))), Micros(now), Micros(now) + 365 * 86_400 * SECOND,
                         None, None, "")
  {
    MicrosPlusYear(now);
    RowPayloadLayout(w, S.Issued(w.keys, uuid, holder, kind, threshold, attestation, now).(signature := None));
    var t := S.Issued(w.keys, uuid, holder, kind, threshold, attestation, now);
    assert SignedText(w, t) == SignedText(w, t.(signature := None));
    hide S.RowPayload, SignedText, Base36.DisplayCode, Micros;
  }

  // ---- orders and boxes ----

  /** The oldest order this collection could settle. */
  predicate OldestCollectable(orders: seq<O.Order>, i: nat, uid: int, businesses: set<int>) {
    && i < |orders| && Collectable(orders[i], uid, businesses)
    && forall j :: 0 <= j < i ==> !Collectable(orders[j], uid, businesses)
  }

  predicate OrderEffect(s: State, cmd: Command, i: nat, o: O.Order, o': O.Order) {
    match cmd
    case CmdCancel(id, _) => o' == if i == id then o.(status := O.Cancelled) else o
    case CmdCollect(uid, chip, businesses) =>
      o' == if OldestCollectable(s.orders.orders, i, uid, businesses)
            then o.(status := O.Collected, box := O.FindBox(s.orders.boxes, chip)) else o
    case _ => o' == o
  }

  /** A collection settles the oldest order it could, with the box of that chip; a cancellation only its own order. */
  lemma {:induction false} OrdersAfter(w: World, s: State, cmd: Command)
    requires O.Valid(s.orders) && Exec(w, s, cmd).Ok?
    ensures var orders, orders' := s.orders.orders, Exec(w, s, cmd).value.orders.orders;
            && |orders'| == |orders| + (if cmd.CmdCreateOrder? then 1 else 0)
            && (forall i :: 0 <= i < |orders| ==> OrderEffect(s, cmd, i, orders[i], orders'[i]))
            && (cmd.CmdCreateOrder? ==>
                  orders'[|orders|] == O.Order(cmd.uid, cmd.business, cmd.boxCount, cmd.amount, O.Pending, None,
                                               Micros(s.clock) + 86_400 * SECOND))
  {
    hide Exec, Micros;
    if cmd.CmdCollect? {
      CollectedOrders(w, s, cmd);
    } else {
      OtherOrders(w, s, cmd);
    }
  }

  lemma {:induction false} CollectedOrders(w: World, s: State, cmd: Command)
    requires O.Valid(s.orders) && Exec(w, s, cmd).Ok? && cmd.CmdCollect?
    ensures var orders, orders' := s.orders.orders, Exec(w, s, cmd).value.orders.orders;
            |orders'| == |orders| && forall i :: 0 <= i < |orders| ==> OrderEffect(s, cmd, i, orders[i], orders'[i])
  {
    hide O.FindBox, O.FindPending, Micros;
    assert Exec(w, s, cmd) == CollectOrder(s, cmd.uid, cmd.chip, cmd.businesses);
    hide Exec;
  }

  lemma {:induction false} OtherOrders(w: World, s: State, cmd: Command)
    requires Exec(w, s, cmd).Ok? && !cmd.CmdCollect?
    ensures var orders, orders' := s.orders.orders, Exec(w, s, cmd).value.orders.orders;
            && |orders'| == |orders| + (if cmd.CmdCreateOrder? then 1 else 0)
            && (forall i :: 0 <= i < |orders| ==> OrderEffect(s, cmd, i, orders[i], orders'[i]))
            && (cmd.CmdCreateOrder? ==>
                  orders'[|orders|] == O.Order(cmd.uid, cmd.business, cmd.boxCount, cmd.amount, O.Pending, None,
                                               Micros(s.clock) + 86_400 * SECOND))
  {
    hide RecordsVerify, A.Payload, E.Verify, E.EncodeRecord, S.FindLive, S.Issued, S.Renewed, P.Qualify, P.Refuse,
         Witness, Assign, A.IsSha256Hex, O.Activated, O.TapCheck, HasRole, P.NewlyMet, O.FindBox, Micros;
  }

  predicate BoxEffect(w: World, s: State, cmd: Command, i: nat, b: O.Box, b': O.Box) {
    match cmd
    case CmdNfcTap(uid, boxId, business, hmac, _, secret) =>
      b' == if i == boxId && (secret.Some? ==>
                              hmac == WitnessOf(w, secret.value, business, s.clock / DAY, uid))
            then b.(tappedBy := Some(uid), tappedAt := Some(Micros(s.clock))) else b
    case CmdCollect(uid, chip, _) =>
      b' == if O.FindBox(s.orders.boxes, chip) == Some(i)
            then b.(tappedBy := Some(uid), tappedAt := Some(Micros(s.clock))) else b
    case _ => b' == b
  }

  /** A tap with the right witness uses up exactly its box; a collection the box of its chip; nothing else taps. */
  lemma {:induction false} BoxesAfter(w: World, s: State, cmd: Command)
    requires Exec(w, s, cmd).Ok?
    ensures var boxes, boxes' := s.orders.boxes, Exec(w, s, cmd).value.orders.boxes;
            && |boxes'| == |boxes| + (if cmd.CmdActivateBox? then 1 else 0)
            && (forall i :: 0 <= i < |boxes| ==> BoxEffect(w, s, cmd, i, boxes[i], boxes'[i]))
            && (cmd.CmdActivateBox? ==>
                  boxes'[|boxes|] == O.Box(cmd.visitId, cmd.chip, None, Some(Micros(s.clock)),
                                           Some(Micros(cmd.expiresAt)), None, None, false))
  {
    hide Exec, Micros, WitnessOf;
    if cmd.CmdNfcTap? {
      TappedBox(w, s, cmd);
    } else if cmd.CmdCollect? {
      CollectedBox(w, s, cmd);
    } else {
      OtherBoxes(w, s, cmd);
    }
  }

  lemma {:induction false} TappedBox(w: World, s: State, cmd: Command)
    requires Exec(w, s, cmd).Ok? && cmd.CmdNfcTap?
    ensures var boxes, boxes' := s.orders.boxes, Exec(w, s, cmd).value.orders.boxes;
            |boxes'| == |boxes| && forall i :: 0 <= i < |boxes| ==> BoxEffect(w, s, cmd, i, boxes[i], boxes'[i])
  {
    if cmd.secret.Some? {
      WitnessIs(w, cmd.secret.value, cmd.business, s.clock / DAY, cmd.uid);
    }
    hide Witness, WitnessOf, PresenceUser, P.Qualify, P.Refuse, P.NewlyMet, Micros;
    assert Exec(w, s, cmd) == NfcTap(w, s, cmd.uid, cmd.boxId, cmd.business, cmd.hmac, cmd.gate, cmd.secret);
    hide Exec;
  }

  lemma {:induction false} CollectedBox(w: World, s: State, cmd: Command)
    requires Exec(w, s, cmd).Ok? && cmd.CmdCollect?
    ensures var boxes, boxes' := s.orders.boxes, Exec(w, s, cmd).value.orders.boxes;
            |boxes'| == |boxes| && forall i :: 0 <= i < |boxes| ==> BoxEffect(w, s, cmd, i, boxes[i], boxes'[i])
  {
    hide O.FindBox, O.OrderFor, Micros;
    assert Exec(w, s, cmd) == CollectOrder(s, cmd.uid, cmd.chip, cmd.businesses);
    hide Exec;
  }

  lemma {:induction false} OtherBoxes(w: World, s: State, cmd: Command)
    requires Exec(w, s, cmd).Ok? && !cmd.CmdNfcTap? && !cmd.CmdCollect?
    ensures var boxes, boxes' := s.orders.boxes, Exec(w, s, cmd).value.orders.boxes;
            && |boxes'| == |boxes| + (if cmd.CmdActivateBox? then 1 else 0)
            && (forall i :: 0 <= i < |boxes| ==> BoxEffect(w, s, cmd, i, boxes[i], boxes'[i]))
            && (cmd.CmdActivateBox? ==>
                  boxes'[|boxes|] == O.Box(cmd.visitId, cmd.chip, None, Some(Micros(s.clock)),
                                           Some(Micros(cmd.expiresAt)), None, None, false))
  {
    hide RecordsVerify, A.Payload, E.Verify, E.EncodeRecord, S.FindLive, S.Issued, S.Renewed, P.Qualify, P.Refuse,
         Witness, WitnessOf, Assign, A.IsSha256Hex, HasRole, P.NewlyMet, O.FindBox, Micros;
  }
}
