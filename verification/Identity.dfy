/**
 * Identity and presence. The documented order is identity first; the presence commands never look for a
 * credential. What every run keeps, and exactly when presence is completed with a credential.
 */
module Identity {
  import opened Authority
  import opened Common
  import opened Platform
  import opened Reviewers
  import opened Safety
  import A = Attestations
  import E = Ed25519
  import G = Guarantees
  import O = Orders
  import P = Presence
  import S = Soultokens

  predicate HasCredential(s: State, u: int) {
    exists k :: 0 <= k < |s.credentials| && s.credentials[k].user == u
  }

  /**
   * Before presence is met, the status is `registered` or `identity_confirmed`, the latter iff there is a
   * credential.
   */
  predicate StatusTells(s: State, u: int) {
    u in s.users && !P.Met(s.presence, u) ==>
      && (s.users[u].status == Registered || s.users[u].status == IdentityConfirmed)
      && (s.users[u].status == IdentityConfirmed <==> HasCredential(s, u))
  }

  ghost predicate IdentityValid(s: State) {
    && (forall k :: 0 <= k < |s.credentials| ==> s.credentials[k].user in s.users)
    && forall u :: StatusTells(s, u)
  }

  /** Users, credentials and met thresholds are all that matters, and of them only what concerns unmet users. */
  lemma {:induction false} Unaffected(s: State, s': State)
    requires IdentityValid(s) && s'.credentials == s.credentials
    requires forall u :: u in s.users ==> u in s'.users
    requires forall u :: P.Met(s.presence, u) ==> P.Met(s'.presence, u)
    requires forall u :: u in s'.users && !P.Met(s'.presence, u) ==>
               if u in s.users then s'.users[u].status == s.users[u].status else s'.users[u].status == Registered
    ensures IdentityValid(s')
  {
    hide P.Met;
    forall u ensures StatusTells(s', u) {
      assert StatusTells(s, u);
      assert u !in s.users ==> !HasCredential(s, u);
    }
  }

  lemma {:induction false} PresenceIdentity(w: World, s: State, cmd: Command)
    requires Inv(w, s) && IdentityValid(s) && Exec(w, s, cmd).Ok? && (cmd.CmdDwell? || cmd.CmdNfcTap?)
    ensures IdentityValid(Exec(w, s, cmd).value)
  {
    hide Inv, P.Valid, A.Valid, O.Valid, AllBacked, AttestedApproved, HoldersApproved, TokenIdsValid;
    InvParts(w, s);
    hide IdentityValid, Witness, P.Qualify, P.Refuse, WithPresence;
    var s' := Exec(w, s, cmd).value;
    var uid := cmd.uid;
    match cmd {
      case CmdDwell(_, dwell, gate, beacon) =>
        if s'.presence == P.Refuse(s.presence, uid, dwell.business, dwell.day, false) && s'.users == s.users {
          RefuseIdentity(s, s', uid, dwell.business, dwell.day, false);
        } else {
          QualifyIdentity(s, s, uid, dwell.business, dwell.day, false);
        }
      case CmdNfcTap(_, boxId, business, hmac, gate, secret) =>
        var day := s.clock / DAY;
        if s'.presence == P.Refuse(s.presence, uid, business, day, true) && s'.users == s.users {
          RefuseIdentity(s, s', uid, business, day, true);
        } else {
          var box := O.TapCheck(s.orders.boxes, boxId, s.clock).value;
          var tapped := s.(orders := s.orders.(boxes := s.orders.boxes[boxId := O.Tapped(box, uid, s.clock)]));
          QualifyIdentity(s, tapped, uid, business, day, true);
        }
    }
  }

  lemma {:induction false} RefuseIdentity(s: State, s': State, uid: int, business: int, day: nat, nfc: bool)
    requires IdentityValid(s) && s'.presence == P.Refuse(s.presence, uid, business, day, nfc)
    requires s'.users == s.users && s'.credentials == s.credentials
    ensures IdentityValid(s')
  {
    hide IdentityValid;
    Unaffected(s, s');
  }

  lemma {:induction false} QualifyIdentity(s: State, s1: State, uid: int, business: int, day: nat, nfc: bool)
    requires P.Valid(s.presence) && IdentityValid(s)
    requires s1.presence == s.presence && s1.users == s.users && s1.credentials == s.credentials
    ensures IdentityValid(WithPresence(s1, uid, P.Qualify(s.presence, uid, business, day, nfc, s.clock)))
  {
    P.QualifyGrows(s.presence, uid, business, day, nfc, s.clock);
    hide P.Qualify, P.Valid, P.Met, P.NewlyMet, IdentityValid;
    var p' := P.Qualify(s.presence, uid, business, day, nfc, s.clock);
    forall u | P.Met(s.presence, u) ensures P.Met(p', u) {
      G.MetLasts(s.presence, p', u);
    }
    Unaffected(s, WithPresence(s1, uid, p'));
  }

  /** Outside identity and presence, a status changes only for the user of an attestation or the holder of a token. */
  predicate Moves(s: State, cmd: Command, u: int) {
    || ((cmd.CmdReviewerSign? || cmd.CmdReject?) && cmd.id < |s.attestations| && s.attestations[cmd.id].user == u)
    || ((cmd.CmdRevoke? || cmd.CmdSurrender?) && cmd.id < |s.tokens| && s.tokens[cmd.id].holder == u)
  }

  lemma {:induction false} StatusMoves(w: World, s: State, cmd: Command, u: int)
    requires Exec(w, s, cmd).Ok? && !cmd.CmdDwell? && !cmd.CmdNfcTap? && !cmd.CmdVerifyIdentity?
    requires u in s.users && u in Exec(w, s, cmd).value.users &&
               Exec(w, s, cmd).value.users[u].status != s.users[u].status
    ensures Moves(s, cmd, u)
  {
    hide RecordsVerify, A.Payload, E.Verify, E.EncodeRecord, S.FindLive, S.Issued, S.Renewed,
         Assign, A.IsSha256Hex, O.Collect, O.Cancel, O.Activated, HasRole;
  }

  /** Such a user has met presence. */
  lemma {:induction false} MovedHasMet(w: World, s: State, cmd: Command, u: int)
    requires Inv(w, s) && Moves(s, cmd, u)
    ensures P.Met(s.presence, u)
  {
    hide Inv, ApprovedFor, P.Met, P.Valid, A.Valid, O.Valid, AttestedApproved, TokenIdsValid;
    InvParts(w, s);
    if cmd.CmdReviewerSign? || cmd.CmdReject? {
      BackedHasMet(s, cmd.id);
    } else {
      G.ApprovedHasMet(w, s, u);
    }
  }

  lemma {:induction false} BackedHasMet(s: State, i: nat)
    requires i < |s.attestations| && Backed(s.presence.thresholds, s.attestations[i])
    ensures P.Met(s.presence, s.attestations[i].user)
  {
  }

  lemma {:induction false} OtherIdentity(w: World, s: State, cmd: Command)
    requires Inv(w, s) && IdentityValid(s) && Exec(w, s, cmd).Ok? && !cmd.CmdDwell? && !cmd.CmdNfcTap? &&
               !cmd.CmdVerifyIdentity?
    ensures IdentityValid(Exec(w, s, cmd).value)
  {
    hide Inv, IdentityValid, P.Met;
    var s' := Exec(w, s, cmd).value;
    OtherFrame(w, s, cmd);
    forall u | u in s.users && s'.users[u].status != s.users[u].status ensures P.Met(s.presence, u) {
      StatusMoves(w, s, cmd, u);
      MovedHasMet(w, s, cmd, u);
    }
    hide Exec;
    Unaffected(s, s');
  }

  /** Outside identity and presence, commands add only registered users, and touch neither credentials nor presence. */
  lemma {:induction false} OtherFrame(w: World, s: State, cmd: Command)
    requires Exec(w, s, cmd).Ok? && !cmd.CmdDwell? && !cmd.CmdNfcTap? && !cmd.CmdVerifyIdentity?
    ensures var s' := Exec(w, s, cmd).value;
            && s'.credentials == s.credentials && s'.presence == s.presence
            && (forall u :: u in s.users ==> u in s'.users)
            && (forall u :: u in s'.users && u !in s.users ==> s'.users[u].status == Registered)
  {
    hide RecordsVerify, A.Payload, E.Verify, E.EncodeRecord, S.FindLive, S.Issued, S.Renewed,
         Assign, A.IsSha256Hex, O.Collect, O.Cancel, O.Activated, HasRole;
  }

  lemma {:induction false} VerifyIdentityValid(s: State, uid: int, session: string)
    requires IdentityValid(s) && InitiateVerification(s, uid, session).Ok?
    ensures IdentityValid(InitiateVerification(s, uid, session).value)
  {
    hide P.Met;
    var s' := InitiateVerification(s, uid, session).value;
    assert s'.credentials[|s.credentials|].user == uid;
    forall u ensures StatusTells(s', u) {
      assert StatusTells(s, u);
      if HasCredential(s, u) {
        var k :| 0 <= k < |s.credentials| && s.credentials[k].user == u;
        assert s'.credentials[k].user == u;
      }
    }
  }

  lemma {:induction false} StepIdentity(w: World, s: State, t: Timed)
    requires Inv(w, s) && IdentityValid(s)
    ensures IdentityValid(Step(w, s, t))
  {
    hide Inv, Keeps, IdentityValid, P.Met;
    var now := s.(clock := s.clock + t.delay);
    ClockSafe(w, s, now.clock);
    Unaffected(s, now);
    assert t.cmd.CmdVerifyIdentity? ==> Exec(w, now, t.cmd) == InitiateVerification(now, t.cmd.uid, t.cmd.session);
    hide Exec;
    if Exec(w, now, t.cmd).Ok? {
      if t.cmd.CmdDwell? || t.cmd.CmdNfcTap? {
        PresenceIdentity(w, now, t.cmd);
      } else if t.cmd.CmdVerifyIdentity? {
        VerifyIdentityValid(now, t.cmd.uid, t.cmd.session);
      } else {
        OtherIdentity(w, now, t.cmd);
      }
    }
  }

  lemma {:induction false} RunIdentity(w: World, s: State, cmds: seq<Timed>)
    requires Inv(w, s) && IdentityValid(s)
    ensures IdentityValid(Run(w, s, cmds))
  {
    hide Inv, Keeps, IdentityValid, Step;
    if cmds == [] {
    } else {
      RunSafe(w, s, cmds[..|cmds| - 1]);
      RunIdentity(w, s, cmds[..|cmds| - 1]);
      StepIdentity(w, Run(w, s, cmds[..|cmds| - 1]), cmds[|cmds| - 1]);
    }
  }

  lemma {:induction false} InitialIdentity(s: State)
    requires Initial(s)
    ensures IdentityValid(s)
  {
  }

  /**
   * In every run, for every user whose presence is not met: the status says whether there is an identity
   * credential.
   */
  lemma {:induction false} UnmetStatusTells(w: World, s0: State, cmds: seq<Timed>, u: int)
    requires Initial(s0) && u in Run(w, s0, cmds).users && !P.Met(Run(w, s0, cmds).presence, u)
    ensures var s := Run(w, s0, cmds);
            && (s.users[u].status == Registered || s.users[u].status == IdentityConfirmed)
            && (s.users[u].status == IdentityConfirmed <==> HasCredential(s, u))
  {
    hide Run, P.Met, HasCredential;
    InitialSafe(w, s0);
    InitialIdentity(s0);
    hide Initial, Inv;
    RunIdentity(w, s0, cmds);
    assert StatusTells(Run(w, s0, cmds), u);
  }

  /** The command at which the presence of `u` becomes met is a dwell or tap of `u` and confirms `u`. */
  lemma {:induction false} CompletingStep(w: World, s: State, cmd: Command, u: int)
    requires Inv(w, s) && Exec(w, s, cmd).Ok? && !P.Met(s.presence, u) && P.Met(Exec(w, s, cmd).value.presence, u)
    ensures (cmd.CmdDwell? || cmd.CmdNfcTap?) && cmd.uid == u && u in s.users
    ensures var s' := Exec(w, s, cmd).value;
            s'.users == s.users[u := s.users[u].(status := PresenceConfirmed)] && s'.credentials == s.credentials
  {
    hide Inv, P.Valid, A.Valid, O.Valid, AllBacked, AttestedApproved, HoldersApproved, TokenIdsValid;
    InvParts(w, s);
    hide P.Met, Witness, P.Qualify, P.Refuse, P.NewlyMet;
    if !cmd.CmdDwell? && !cmd.CmdNfcTap? {
      SamePresence(w, s, cmd);
      assert false;
    }
    var (business, day, nfc) := if cmd.CmdDwell? then (cmd.dwell.business, cmd.dwell.day, false)
      else (cmd.business, s.clock / DAY, true);
    P.RefuseKeepsValid(s.presence, cmd.uid, business, day, nfc);
    P.QualifyGrows(s.presence, cmd.uid, business, day, nfc, s.clock);
    SameMet(s.presence, P.Refuse(s.presence, cmd.uid, business, day, nfc), u);
  }

  lemma {:induction false} SameMet(p: P.Tables, p': P.Tables, u: int)
    requires p'.thresholds == p.thresholds
    ensures P.Met(p', u) <==> P.Met(p, u)
  {
  }

  lemma {:induction false} SamePresence(w: World, s: State, cmd: Command)
    requires Exec(w, s, cmd).Ok? && !cmd.CmdDwell? && !cmd.CmdNfcTap?
    ensures Exec(w, s, cmd).value.presence == s.presence
  {
    hide RecordsVerify, A.Payload, E.Verify, E.EncodeRecord, S.FindLive, S.Issued, S.Renewed,
         Assign, A.IsSha256Hex, O.Collect, O.Cancel, O.Activated, HasRole;
  }

  /**
   * Identity precedes presence exactly when the completing event finds the user `identity_confirmed`: in every run, the
   * command that meets a user's threshold confirms the user, whose status just before was `registered` or
   * `identity_confirmed`, and there is a credential of theirs iff it was the latter.
   */
  lemma {:induction false} CompletedWithIdentityIff(w: World, s0: State, cmds: seq<Timed>, t: Timed, u: int)
    requires Initial(s0)
    requires !P.Met(Run(w, s0, cmds).presence, u) && P.Met(Step(w, Run(w, s0, cmds), t).presence, u)
    ensures var s, s' := Run(w, s0, cmds), Step(w, Run(w, s0, cmds), t);
            && u in s.users && u in s'.users && s'.users[u].status == PresenceConfirmed
            && (s.users[u].status == Registered || s.users[u].status == IdentityConfirmed)
            && (HasCredential(s', u) <==> s.users[u].status == IdentityConfirmed)
  {
    hide Run, P.Met, HasCredential, Initial, Inv, Keeps, Step;
    InitialSafe(w, s0);
    RunSafe(w, s0, cmds);
    var s := Run(w, s0, cmds);
    CompletedFrom(w, s, t, u);
    UnmetStatusTells(w, s0, cmds, u);
  }

  lemma {:induction false} CompletedFrom(w: World, s: State, t: Timed, u: int)
    requires Inv(w, s) && !P.Met(s.presence, u) && P.Met(Step(w, s, t).presence, u)
    ensures u in s.users && Step(w, s, t).users == s.users[u := s.users[u].(status := PresenceConfirmed)]
    ensures HasCredential(Step(w, s, t), u) <==> HasCredential(s, u)
  {
    hide Inv, Keeps, Exec, P.Met, HasCredential;
    var now := s.(clock := s.clock + t.delay);
    ClockSafe(w, s, now.clock);
    CompletingStep(w, now, t.cmd, u);
    SameCredentials(s, Step(w, s, t), u);
  }

  lemma {:induction false} SameCredentials(s: State, s': State, u: int)
    requires s'.credentials == s.credentials
    ensures HasCredential(s', u) <==> HasCredential(s, u)
  {
  }
}
