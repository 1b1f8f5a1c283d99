/** The end-to-end guarantees of the pipeline, over every run, and where the code falls short of its documentation. */
module Guarantees {
  import opened Common
  import opened Platform
  import opened Authority
  import opened Reviewers
  import opened Safety
  import E = Ed25519
  import P = Presence
  import A = Attestations
  import S = Soultokens
  import O = Orders

  // ---- what an attested user can show ----

  /** Attestation `i` is approved for `u` by two independent reviewers, over evidence that still verifies. */
  predicate ApprovedProperly(w: World, s: State, i: nat, u: int) {
    && i < |s.attestations|
    && var row := s.attestations[i];
       && row.user == u && row.status == A.Approved && A.Independent(row)
       && A.StaffVerified(w.primitives, i, row) && A.CoSigned(w.primitives, s.sigs, i, row)
  }

  /** Its threshold is the user's own, met on three qualifying events on three distinct (business, date) pairs. */
  predicate PresenceProperly(s: State, i: nat, u: int) {
    && i < |s.attestations| && Backed(s.presence.thresholds, s.attestations[i]) && s.attestations[i].user == u
    && |P.Qualifying(s.presence.events, u)| >= 3 && |P.Pairs(s.presence.events, u)| >= 3
  }

  predicate Earned(w: World, s: State, u: int) {
    exists i: nat :: i < |s.attestations| && ApprovedProperly(w, s, i, u) && PresenceProperly(s, i, u)
  }

  lemma {:induction false} ApprovedIsEarned(w: World, s: State, u: int)
    requires Inv(w, s) && ApprovedFor(s.attestations, u)
    ensures Earned(w, s, u)
  {
    var i :| 0 <= i < |s.attestations| && s.attestations[i].status == A.Approved && s.attestations[i].user == u;
    assert A.RowValid(w.primitives, s.sigs, i, s.attestations[i]);
    assert Backed(s.presence.thresholds, s.attestations[i]);
    assert P.Met(s.presence, u);
    P.MetIsEarned(s.presence, u);
    assert ApprovedProperly(w, s, i, u) && PresenceProperly(s, i, u);
  }

  predicate HoldsToken(s: State, u: int) {
    exists i :: 0 <= i < |s.tokens| && s.tokens[i].holder == u
  }

  /**
   * From registered users and empty tables, in every state of every run: each attested user and each
   * holder of an issued soultoken has a properly approved attestation and properly met presence, and
   * still has them after any further commands.
   */
  lemma {:induction false} PipelineIsEarned(w: World, s0: State, cmds: seq<Timed>, more: seq<Timed>, u: int)
    requires Initial(s0)
    ensures var s := Run(w, s0, cmds);
            IsAttested(s, u) || HoldsToken(s, u) ==> Earned(w, s, u) && Earned(w, Run(w, s, more), u)
  {
    hide Initial, Inv, Keeps, Run, Earned;
    var s := Run(w, s0, cmds);
    var later := Run(w, s, more);
    InitialSafe(w, s0);
    RunSafe(w, s0, cmds);
    RunSafe(w, s, more);
    if IsAttested(s, u) || HoldsToken(s, u) {
      AttestedOrHolder(w, s, u);
      ApprovalLasts(s, later, u);
      ApprovedIsEarned(w, s, u);
      ApprovedIsEarned(w, later, u);
    }
  }

  lemma {:induction false} AttestedOrHolder(w: World, s: State, u: int)
    requires Inv(w, s)
    requires IsAttested(s, u) || HoldsToken(s, u)
    ensures ApprovedFor(s.attestations, u)
  {
    assert AttestedApproved(s) && HoldersApproved(s);
    hide Inv, ApprovedFor;
    if HoldsToken(s, u) {
      var i :| 0 <= i < |s.tokens| && s.tokens[i].holder == u;
    }
  }

  lemma {:induction false} ApprovalLasts(s: State, s': State, u: int)
    requires Keeps(s, s') && ApprovedFor(s.attestations, u)
    ensures ApprovedFor(s'.attestations, u)
  {
    ApprovalsGrow(s.attestations, s'.attestations);
  }

  /** An approved row and both its signature records never change again. */
  lemma {:induction false} ApprovedForever(w: World, s: State, more: seq<Timed>, i: nat, u: int)
    requires Inv(w, s) && ApprovedProperly(w, s, i, u)
    ensures var s' := Run(w, s, more);
            && ApprovedProperly(w, s', i, u) && s'.attestations[i] == s.attestations[i]
            && var (v, r1, r2) := (s.attestations[i].visit, s.attestations[i].reviewer1, s.attestations[i].reviewer2);
               s'.sigs[(v, r1)] == s.sigs[(v, r1)] && s'.sigs[(v, r2)] == s.sigs[(v, r2)]
  {
    hide Inv, Run, E.RecordVerifies, A.Payload;
    RunSafe(w, s, more);
  }

  /**
   * At most one attestation per visit and user is ever active, and one reviewer pair approves at most once per
   * visit.
   */
  lemma {:induction false} ApprovalsAreUnique(w: World, s0: State, cmds: seq<Timed>, i: nat, j: nat)
    requires Initial(s0)
    requires var rows := Run(w, s0, cmds).attestations;
             i < j < |rows| && rows[i].status == A.Approved && rows[j].status == A.Approved
    ensures var rows := Run(w, s0, cmds).attestations;
            (rows[i].visit, rows[i].user) != (rows[j].visit, rows[j].user) && !A.SamePair(rows[i], rows[j])
  {
    hide Initial, Run, A.RowValid;
    InitialSafe(w, s0);
    RunSafe(w, s0, cmds);
  }

  // ---- a reviewer's one signature per visit ----

  /** Both reviewers have signed the visit, yet the attestation is not approved. */
  predicate Stranded(s: State, i: nat) {
    && i < |s.attestations|
    && var row := s.attestations[i];
       row.status != A.Approved && (row.visit, row.reviewer1) in s.sigs && (row.visit, row.reviewer2) in s.sigs
  }

  /** How one command changes an existing attestation row: only a fresh reviewer signature approves, nothing reopens. */
  lemma {:induction false} RowStep(w: World, s: State, cmd: Command, i: nat)
    requires Exec(w, s, cmd).Ok? && i < |s.attestations|
    ensures var s', row := Exec(w, s, cmd).value, s.attestations[i];
            && |s.attestations| <= |s'.attestations|
            && var row' := s'.attestations[i];
               && row'.visit == row.visit && row'.user == row.user && row'.reviewer1 == row.reviewer1 &&
                    row'.reviewer2 == row.reviewer2
               && (row'.status == A.Approved && row.status != A.Approved ==>
                     cmd.CmdReviewerSign? && A.AssignedTo(row, cmd.uid) && (row.visit, cmd.uid) !in s.sigs)
               && (A.Open(row') ==> A.Open(row))
    ensures forall k :: k in s.sigs ==> k in Exec(w, s, cmd).value.sigs
  {
    hide RecordsVerify, A.Payload, E.Verify, E.EncodeRecord, S.FindLive, S.Issued, S.Renewed, P.Qualify, P.Refuse,
         Witness,
         Assign, A.IsSha256Hex, O.Collect, O.Cancel, O.Activated, O.TapCheck, HasRole, P.NewlyMet;
  }

  // ---- stranded for good ----

  lemma {:induction false} StrandedStep(w: World, s: State, t: Timed, i: nat)
    requires Stranded(s, i)
    ensures Stranded(Step(w, s, t), i)
  {
    hide Exec;
    var now := s.(clock := s.clock + t.delay);
    if Exec(w, now, t.cmd).Ok? {
      RowStep(w, now, t.cmd, i);
    }
  }

  /** Such an attestation is never approved, whatever happens next: neither reviewer can sign the visit again. */
  lemma {:induction false} StrandedForever(w: World, s: State, more: seq<Timed>, i: nat)
    requires Stranded(s, i)
    ensures Stranded(Run(w, s, more), i)
  {
    hide Step, Stranded;
    if more == [] {
    } else {
      StrandedForever(w, s, more[..|more| - 1], i);
      StrandedStep(w, Run(w, s, more[..|more| - 1]), more[|more| - 1], i);
    }
  }

  // ---- presence ----

  /** In every run the notices, the thresholds and the log agree. */
  lemma {:induction false} PresenceAgrees(w: World, s0: State, cmds: seq<Timed>, u: int)
    requires Initial(s0)
    ensures var p := Run(w, s0, cmds).presence;
            && P.Valid(p)
            && multiset(p.notices)[u] == (if P.Met(p, u) then 1 else 0)
            && (P.Met(p, u) <==> |P.Qualifying(p.events, u)| >= 3 && |P.Pairs(p.events, u)| >= 3)
  {
    hide Initial, Run;
    InitialSafe(w, s0);
    RunSafe(w, s0, cmds);
    P.MetIsEarned(Run(w, s0, cmds).presence, u);
  }

  // ---- soultokens ----

  /** In every run, for every token row and every user. */
  lemma {:induction false} SoultokensAgree(w: World, s0: State, cmds: seq<Timed>)
    requires Initial(s0)
    ensures var s := Run(w, s0, cmds);
            && (forall i :: 0 <= i < |s.tokens| ==>
                  && s.tokens[i].signature == Some(w.keys.sign(S.RowPayload(w.keys, s.tokens[i])))
                  && S.Chain(s.renewals, i, s.tokens[i].issuedAt + YEAR, s.tokens[i].expiresAt)
                  && s.tokens[i].expiresAt <= s.clock + YEAR)
            && (forall u, i, j :: 0 <= i < j < |s.tokens| && S.Live(s.tokens[i], u, s.clock) ==>
                !S.Live(s.tokens[j], u, s.clock))
            && (forall u :: u in s.users ==> TokenIdValid(s, u))
  {
    hide Initial, Run, S.Chain, S.RowPayload;
    InitialSafe(w, s0);
    RunSafe(w, s0, cmds);
    var s := Run(w, s0, cmds);
    forall i | 0 <= i < |s.tokens|
      ensures s.tokens[i].signature == Some(w.keys.sign(S.RowPayload(w.keys, s.tokens[i])))
           && S.Chain(s.renewals, i, s.tokens[i].issuedAt + YEAR, s.tokens[i].expiresAt)
           && s.tokens[i].expiresAt <= s.clock + YEAR
    {
      assert S.RowValid(w.keys, s.renewals, i, s.tokens[i], s.clock);
    }
  }

  /** The index-level reading of the renewal chain, in every run. */
  lemma {:induction false} RenewalsChain(w: World, s0: State, cmds: seq<Timed>, i: nat, j: nat)
    requires Initial(s0)
    requires var log := Run(w, s0, cmds).renewals;
             i < j < |log| && log[i].token == log[j].token && S.NoneBetween(log, log[i].token, i, j)
    ensures var s := Run(w, s0, cmds);
            var log := s.renewals;
            && log[i].token < |s.tokens|
            && log[i].previous <= log[i].next == log[j].previous <= log[j].next <= s.tokens[log[i].token].expiresAt
            && (S.NoneBetween(log, log[i].token, -1, i) ==> log[i].previous == s.tokens[log[i].token].issuedAt + YEAR)
            && (S.NoneBetween(log, log[i].token, j, |log|) ==> log[j].next == s.tokens[log[i].token].expiresAt)
  {
    hide Initial, Run, S.RowValid, P.Valid, A.Valid, O.Valid, Keeps;
    InitialSafe(w, s0);
    RunSafe(w, s0, cmds);
    var s := Run(w, s0, cmds);
    S.LogReads(w.keys, s.tokens, s.renewals, s.clock, i, j);
  }

  /**
   * `issue_soultoken` asks for an approved attestation, not for one of the requester's. Every token it
   * can issue to `u` names an attestation of `u` exactly when no one else has an approved one.
   */
  lemma {:induction false} IssuedForHolderIff(w: World, s: State, u: int, kind: string, uuid: S.Uuid)
    requires var user := FindUser(s.users, u); user.Some? && user.value.status == Attested
    requires S.FindLive(s.tokens, u, s.clock).None?
    ensures (forall a: nat :: IssueSoultoken(w, s, u, a, kind, uuid).Ok? ==> s.attestations[a].user == u)
       <==> (forall a: nat :: a < |s.attestations| && s.attestations[a].status == A.Approved ==>
             s.attestations[a].user == u)
  {
    hide S.Issued;
    forall a: nat
      ensures IssueSoultoken(w, s, u, a, kind, uuid).Ok? <==>
                a < |s.attestations| && s.attestations[a].status == A.Approved {}
    if forall a: nat :: IssueSoultoken(w, s, u, a, kind, uuid).Ok? ==> s.attestations[a].user == u {
      forall a: nat | a < |s.attestations| && s.attestations[a].status == A.Approved
        ensures s.attestations[a].user == u {
        assert IssueSoultoken(w, s, u, a, kind, uuid).Ok?;
      }
    }
  }

  /** The token rests on an approved attestation and carries that attestation's threshold. */
  predicate Grounded(s: State, i: nat) {
    && i < |s.tokens|
    && var t := s.tokens[i];
       && t.attestation < |s.attestations| && s.attestations[t.attestation].status == A.Approved
       && t.threshold == s.attestations[t.attestation].threshold
  }

  lemma {:induction false} CommandGrounded(w: World, s: State, cmd: Command, i: nat)
    requires Inv(w, s) && Exec(w, s, cmd).Ok? && i < |Exec(w, s, cmd).value.tokens|
    requires i < |s.tokens| ==> Grounded(s, i)
    ensures Grounded(Exec(w, s, cmd).value, i)
  {
    hide Exec, Inv, P.Grows, O.Final;
    ExecSafe(w, s, cmd);
    if i >= |s.tokens| {
      IssueAuthority(w, s, cmd, i);
    } else {
      assert TokenKeeps(s.tokens[i], Exec(w, s, cmd).value.tokens[i]);
    }
  }

  /** In every run every token, live, expired or revoked, is grounded. */
  lemma {:induction false} TokensGrounded(w: World, s0: State, cmds: seq<Timed>, i: nat)
    requires Initial(s0) && i < |Run(w, s0, cmds).tokens|
    ensures Grounded(Run(w, s0, cmds), i)
  {
    hide Inv, Keeps, Exec, Grounded;
    if cmds == [] {
    } else {
      var before, t := Run(w, s0, cmds[..|cmds| - 1]), cmds[|cmds| - 1];
      var now := before.(clock := before.clock + t.delay);
      InitialSafe(w, s0);
      RunSafe(w, s0, cmds[..|cmds| - 1]);
      ClockSafe(w, before, now.clock);
      if i < |before.tokens| {
        TokensGrounded(w, s0, cmds[..|cmds| - 1], i);
        GroundedTimeless(before, now, i);
      }
      if Exec(w, now, t.cmd).Ok? {
        CommandGrounded(w, now, t.cmd, i);
      }
    }
  }

  lemma {:induction false} GroundedTimeless(s: State, now: State, i: nat)
    requires now == s.(clock := now.clock) && Grounded(s, i)
    ensures Grounded(now, i)
  {
  }

  /**
   * Revocation clears the holder's `soultoken_id` and status, but not another live token of theirs: one stays
   * live, and renewable, exactly when the revoked token was not the live one. (The older of two may have expired.)
   */
  lemma {:induction false} LiveAfterRevokeIff(w: World, s: State, id: nat, reason: string)
    requires Inv(w, s) && id < |s.tokens| && s.tokens[id].revokedAt.None? && s.tokens[id].holder in s.users
    ensures var s', u := RevokeToken(s, id, reason), s.tokens[id].holder;
            var live := S.FindLive(s.tokens, u, s.clock);
            && s'.users[u].soultoken.None? && s'.users[u].status == Registered
            && (S.FindLive(s'.tokens, u, s.clock).Some? <==> live.Some? && live.value != id)
            && (RenewSoultoken(w, s', u).Ok? <==> live.Some? && live.value != id)
  {
    assert S.OneLive(s.tokens, s.clock);
    hide Inv, S.Renewed;
    OnlyOtherStays(s.tokens, id, reason, s.clock);
  }

  lemma {:induction false} OnlyOtherStays(tokens: seq<S.Token>, id: nat, reason: string, clock: nat)
    requires S.OneLive(tokens, clock) && id < |tokens|
    ensures var u := tokens[id].holder;
            var live := S.FindLive(tokens, u, clock);
            S.FindLive(tokens[id := S.Revoked(tokens[id], reason, clock)], u, clock).Some? <==>
                live.Some? && live.value != id
  {
    var u, tokens' := tokens[id].holder, tokens[id := S.Revoked(tokens[id], reason, clock)];
    var live, after := S.FindLive(tokens, u, clock), S.FindLive(tokens', u, clock);
    if after.Some? {
      assert after.value != id && tokens'[after.value] == tokens[after.value];
      assert S.Live(tokens[after.value], u, clock);
    }
    if live.Some? && live.value != id {
      assert tokens'[live.value] == tokens[live.value];
    }
  }

  // ---- orders ----

  /** In every run, and between any two of its states. */
  lemma {:induction false} OrdersAgree(w: World, s0: State, cmds: seq<Timed>, more: seq<Timed>)
    requires Initial(s0)
    ensures var s := Run(w, s0, cmds); O.Valid(s.orders) && O.Final(s.orders, Run(w, s, more).orders)
  {
    hide Initial, Run, O.Valid, O.Final;
    InitialSafe(w, s0);
    RunSafe(w, s0, cmds);
    RunSafe(w, Run(w, s0, cmds), more);
  }

  // ---- starting over ----

  predicate HasOpen(rows: seq<A.Row>, u: int) {
    exists i :: 0 <= i < |rows| && rows[i].user == u && A.Open(rows[i])
  }

  /** The user is back before presence, though the presence threshold was met once. */
  predicate SentBack(s: State, u: int) {
    u in s.users && (s.users[u].status == Registered || s.users[u].status == IdentityConfirmed) && P.Met(s.presence, u)
  }

  predicate Restored(w: World, s: State, u: int, cmds: seq<Timed>) {
    var s' := Run(w, s, cmds);
    u in s'.users && (s'.users[u].status == PresenceConfirmed || s'.users[u].status == Attested)
  }

  lemma {:induction false} QualifyKeepsSentBack(s: State, uid: int, business: int, day: nat, nfc: bool, u: int)
    requires P.Valid(s.presence) && SentBack(s, u)
    ensures var s' := WithPresence(s, uid, P.Qualify(s.presence, uid, business, day, nfc, s.clock)); SentBack(s', u)
  {
    P.QualifyGrows(s.presence, uid, business, day, nfc, s.clock);
    hide P.Qualify;
    MetLasts(s.presence, P.Qualify(s.presence, uid, business, day, nfc, s.clock), u);
  }

  lemma {:induction false} MetLasts(p: P.Tables, p': P.Tables, u: int)
    requires P.Grows(p, p') && P.Met(p, u)
    ensures P.Met(p', u)
  {
    var i :| 0 <= i < |p.thresholds| && p.thresholds[i].user == u && p.thresholds[i].metAt.Some?;
    assert p'.thresholds[i].metAt.Some?;
  }

  lemma {:induction false} DwellKeepsSentBack(w: World, s: State, uid: int, req: DwellRequest, gate: Option<Error>,
                                              beacon: Option<Beacon>, u: int)
    requires P.Valid(s.presence) && SentBack(s, u) && BeaconDwell(w, s, uid, req, gate, beacon).Ok?
    ensures SentBack(BeaconDwell(w, s, uid, req, gate, beacon).value, u)
  {
    hide Witness, P.Valid, P.Refuse, P.Qualify, WithPresence;
    P.RefuseKeepsValid(s.presence, uid, req.business, req.day, false);
    QualifyKeepsSentBack(s, uid, req.business, req.day, false, u);
  }

  lemma {:induction false} TapKeepsSentBack(w: World, s: State, uid: int, boxId: nat, business: int, hmac: string,
                                            gate: Option<Error>, secret: Option<string>, u: int)
    requires P.Valid(s.presence) && SentBack(s, u) && NfcTap(w, s, uid, boxId, business, hmac, gate, secret).Ok?
    ensures SentBack(NfcTap(w, s, uid, boxId, business, hmac, gate, secret).value, u)
  {
    hide Witness, P.Valid, P.Refuse, P.Qualify, WithPresence;
    var day, box := s.clock / DAY, O.TapCheck(s.orders.boxes, boxId, s.clock).value;
    P.RefuseKeepsValid(s.presence, uid, business, day, true);
    var tapped := s.orders.(boxes := s.orders.boxes[boxId := O.Tapped(box, uid, s.clock)]);
    QualifyKeepsSentBack(s.(orders := tapped), uid, business, day, true, u);
  }

  lemma {:induction false} PresenceKeepsSentBack(w: World, s: State, cmd: Command, u: int)
    requires Inv(w, s) && SentBack(s, u) && Exec(w, s, cmd).Ok? && (cmd.CmdDwell? || cmd.CmdNfcTap?)
    ensures SentBack(Exec(w, s, cmd).value, u)
  {
    assert P.Valid(s.presence);
    hide Inv, P.Valid, SentBack, BeaconDwell, NfcTap;
    match cmd
    case CmdDwell(uid, dwell, gate, beacon) => DwellKeepsSentBack(w, s, uid, dwell, gate, beacon, u);
    case CmdNfcTap(uid, boxId, business, hmac, gate, secret) =>
      TapKeepsSentBack(w, s, uid, boxId, business, hmac, gate, secret, u);
  }

  /** Outside presence, only a command on an open attestation of the user moves the user forward again. */
  lemma {:induction false} UserStep(w: World, s: State, cmd: Command, u: int)
    requires SentBack(s, u) && !HasOpen(s.attestations, u) && Exec(w, s, cmd).Ok? && !cmd.CmdDwell? && !cmd.CmdNfcTap?
    ensures SentBack(Exec(w, s, cmd).value, u)
  {
    hide RecordsVerify, A.Payload, E.Verify, E.EncodeRecord, S.FindLive, S.Issued, S.Renewed, Assign, A.IsSha256Hex,
         O.Collect, O.Cancel, O.Activated, HasRole;
    if cmd.CmdReviewerSign? || cmd.CmdReject? {
      assert A.Open(s.attestations[cmd.id]);
      assert s.attestations[cmd.id].user != u;
    }
  }

  lemma {:induction false} NoNewOpen(w: World, s: State, cmd: Command, u: int)
    requires SentBack(s, u) && !HasOpen(s.attestations, u) && Exec(w, s, cmd).Ok?
    ensures !HasOpen(Exec(w, s, cmd).value.attestations, u)
  {
    var rows' := Exec(w, s, cmd).value.attestations;
    forall i | 0 <= i < |rows'| && rows'[i].user == u ensures !A.Open(rows'[i]) {
      if i < |s.attestations| {
        RowStep(w, s, cmd, i);
      } else {
        OpeningAuthority(w, s, cmd, i);
      }
    }
  }

  lemma {:induction false} BlockedForever(w: World, s: State, u: int, cmds: seq<Timed>)
    requires Inv(w, s) && SentBack(s, u) && !HasOpen(s.attestations, u)
    ensures SentBack(Run(w, s, cmds), u) && !HasOpen(Run(w, s, cmds).attestations, u)
  {
    hide Inv, Keeps, Exec, SentBack, HasOpen;
    if cmds == [] {
    } else {
      var before, t := Run(w, s, cmds[..|cmds| - 1]), cmds[|cmds| - 1];
      BlockedForever(w, s, u, cmds[..|cmds| - 1]);
      RunSafe(w, s, cmds[..|cmds| - 1]);
      ClockSafe(w, before, before.clock + t.delay);
      var now := before.(clock := before.clock + t.delay);
      SentBackTimeless(before, now, u);
      if Exec(w, now, t.cmd).Ok? {
        if t.cmd.CmdDwell? || t.cmd.CmdNfcTap? {
          PresenceKeepsSentBack(w, now, t.cmd, u);
        } else {
          UserStep(w, now, t.cmd, u);
        }
        NoNewOpen(w, now, t.cmd, u);
      }
    }
  }

  lemma {:induction false} SentBackTimeless(s: State, now: State, u: int)
    requires now == s.(clock := now.clock)
    ensures SentBack(now, u) <==> SentBack(s, u)
  {
  }

  /**
   * Revocation and surrender are documented to make the user restart the protocol. But a presence
   * threshold is met only once, so a user sent back can be presence-confirmed or attested again in some
   * continuation exactly when an attestation of theirs is still open (and may then be rejected).
   */
  lemma {:induction false} RestartIff(w: World, s: State, u: int)
    requires Inv(w, s) && SentBack(s, u)
    ensures (exists cmds :: Restored(w, s, u, cmds)) <==> HasOpen(s.attestations, u)
  {
    if HasOpen(s.attestations, u) {
      var i :| 0 <= i < |s.attestations| && s.attestations[i].user == u && A.Open(s.attestations[i]);
      RejectRestores(w, s, u, i);
    } else {
      forall cmds ensures !Restored(w, s, u, cmds) {
        BlockedForever(w, s, u, cmds);
      }
    }
  }

  lemma {:induction false} RejectRestores(w: World, s: State, u: int, i: nat)
    requires i < |s.attestations| && s.attestations[i].user == u && A.Open(s.attestations[i]) && u in s.users
    ensures exists cmds :: Restored(w, s, u, cmds)
  {
    var t := Timed(0, CmdReject(i, s.attestations[i].reviewer1));
    assert [t][..0] == [] && Run(w, s, []) == s;
    assert Run(w, s, [t]) == Step(w, s, t);
    assert s.(clock := s.clock + 0) == s;
    assert Step(w, s, t) == RejectAttestation(s, i, s.attestations[i].reviewer1).value;
    assert Restored(w, s, u, [t]);
  }

  lemma {:induction false} ApprovedHasMet(w: World, s: State, u: int)
    requires Inv(w, s) && ApprovedFor(s.attestations, u)
    ensures P.Met(s.presence, u)
  {
    var i :| 0 <= i < |s.attestations| && s.attestations[i].status == A.Approved && s.attestations[i].user == u;
    assert Backed(s.presence.thresholds, s.attestations[i]);
  }

  /** So it is for the holder of every token that gets revoked or surrendered. */
  lemma {:induction false} AfterRevocation(w: World, s: State, id: nat, reason: string)
    requires Inv(w, s) && id < |s.tokens| && s.tokens[id].revokedAt.None? && s.tokens[id].holder in s.users
    ensures var s', u := RevokeToken(s, id, reason), s.tokens[id].holder;
            Inv(w, s') && SentBack(s', u) &&
                ((exists cmds :: Restored(w, s', u, cmds)) <==> HasOpen(s'.attestations, u))
  {
    var s', u := RevokeToken(s, id, reason), s.tokens[id].holder;
    assert HoldersApproved(s);
    hide Inv, Keeps, P.Met, ApprovedFor, HasOpen, S.Revoked;
    RevokeSafe(w, s, id, reason);
    ApprovedHasMet(w, s, u);
    RestartIff(w, s', u);
  }

  // ---- identity is not a precondition of presence ----

  lemma {:induction false} DwellOnce(w: World, s: State, u: int, business: int, day: nat) returns (t: Timed)
    requires u in s.users && s.users[u] == User(Registered, false, false, false, None)
    ensures Step(w, s, t) == WithPresence(s, u, P.Qualify(s.presence, u, business, day, false, s.clock)) &&
              t.cmd.CmdDwell?
  {
    hide P.Qualify, Witness, P.Refuse, WithPresence;
    var beacon := Beacon(Some(business), "", 0);
    var req := DwellRequest(business, 0, 15, Witness(w, "", business, day, u), day);
    t := Timed(0, CmdDwell(u, req, None, Some(beacon)));
    assert s.(clock := s.clock + 0) == s;
    assert BeaconDwell(w, s, u, req, None, Some(beacon)).Ok?;
  }

  /**
   * The documented order is identity first. The presence commands never look for a credential: from
   * tables with no identity credential a registered user reaches `presence_confirmed`, within one day.
   */
  lemma {:induction false} IdentityNotRequired(w: World, s: State, u: int, day: nat) returns (cmds: seq<Timed>)
    requires Initial(s) && u in s.users && s.users[u] == User(Registered, false, false, false, None)
    ensures var s' := Run(w, s, cmds);
            u in s'.users && s'.users[u].status == PresenceConfirmed && s'.credentials == []
            && forall d :: d in P.Dates(s'.presence.events, u) ==> d == day
  {
    var p1, p2, p3 := P.OneDayCanSuffice(u, day, false, s.clock);
    hide P.Qualify, P.Met, P.NewlyMet, P.Dates, Step, P.Valid;
    var t1 := DwellOnce(w, s, u, 1, day);
    var s1 := s.(presence := p1);
    assert Step(w, s, t1) == s1;
    var t2 := DwellOnce(w, s1, u, 2, day);
    var s2 := s.(presence := p2);
    assert Step(w, s1, t2) == s2;
    var t3 := DwellOnce(w, s2, u, 3, day);
    cmds := [t1, t2, t3];
    assert cmds[..2] == [t1, t2] && [t1, t2][..1] == [t1] && [t1][..0] == [];
    assert Run(w, s, []) == s && Run(w, s, [t1]) == s1 && Run(w, s, [t1, t2]) == s2;
    assert Run(w, s, cmds) == WithPresence(s2, u, p3);
  }
}
