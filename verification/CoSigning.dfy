/**
 * Co-signing under concurrency: any number of `reviewer_sign` transactions interleave, step by step,
 * with each other and with every other command. A transaction locks and reads the attestation row,
 * checks the request, inserts its signature row, looks for both signatures, and commits or rolls back.
 * It sees committed rows and its own uncommitted ones.
 */
module CoSigning {
  import opened Common
  import opened Authority
  import opened Platform
  import opened Reviewers
  import opened Safety
  import E = Ed25519
  import P = Presence
  import A = Attestations
  import S = Soultokens
  import O = Orders
  import G = Guarantees

  datatype Call = Call(id: nat, uid: int, req: SignRequest)

  /** A transaction and how far it has come; `row` is the attestation row as it was read under the lock. */
  datatype Tx =
    | Started(call: Call)
    | Holding(call: Call, row: A.Row)
    | Checked(call: Call, row: A.Row, now: nat)
    | Inserted(call: Call, row: A.Row, now: nat)
    | Counted(call: Call, row: A.Row, now: nat, approve: bool)
    | Committed(call: Call)
    | RolledBack(call: Call)

  /** The committed tables, the attestation each committed signature row was made for, and the transactions. */
  datatype Sys = Sys(db: State, made: map<(int, int), nat>, txs: seq<Tx>)

  predicate Owns(tx: Tx) { tx.Holding? || tx.Checked? || HasInserted(tx) }

  /** The transaction holds an uncommitted signature row. */
  predicate HasInserted(tx: Tx) { tx.Inserted? || tx.Counted? }

  predicate Done(tx: Tx) { tx.Committed? || tx.RolledBack? }

  function Key(tx: Tx): (int, int)
    requires Owns(tx)
  {
    (tx.row.visit, tx.call.uid)
  }

  function Signature(tx: Tx): SignatureRow
    requires HasInserted(tx)
  {
    NewSignature(tx.row, tx.call.req, tx.now)
  }

  /** The two records as the transaction sees them: committed rows and its own. */
  function Both(sigs: Signatures, tx: Tx): Option<(string, string)>
    requires HasInserted(tx)
  {
    A.BothRecords(sigs[Key(tx) := Signature(tx)], tx.row.visit, tx.row.reviewer1, tx.row.reviewer2)
  }

  predicate LockFree(txs: seq<Tx>, id: nat) {
    forall t :: 0 <= t < |txs| && Owns(txs[t]) ==> txs[t].call.id != id
  }

  predicate KeyFree(txs: seq<Tx>, key: (int, int)) {
    forall t :: 0 <= t < |txs| && HasInserted(txs[t]) ==> Key(txs[t]) != key
  }

  function With(s: Sys, t: nat, tx: Tx): Sys
    requires t < |s.txs|
  {
    s.(txs := s.txs[t := tx])
  }

  /** The next database statement of transaction `t`. One that must wait leaves the system as it is. */
  function Proceed(w: World, locking: bool, s: Sys, t: nat): Sys
    requires t < |s.txs|
  {
    var tx, rows := s.txs[t], s.db.attestations;
    match tx
    case Started(call) =>
      if call.id >= |rows| then With(s, t, RolledBack(call))
      else if locking && !LockFree(s.txs, call.id) then s
      else With(s, t, Holding(call, rows[call.id]))
    case Holding(call, row) =>
      if SignRefused(w, call.id, row, call.uid, call.req, s.db.clock).Some? then With(s, t, RolledBack(call))
      else With(s, t, Checked(call, row, s.db.clock))
    case Checked(call, row, now) =>
      if Key(tx) in s.db.sigs then With(s, t, RolledBack(call))
      else if !KeyFree(s.txs, Key(tx)) then s
      else With(s, t, Inserted(call, row, now))
    case Inserted(call, row, now) =>
      var both := Both(s.db.sigs, tx);
      if both.None? then With(s, t, Counted(call, row, now, false))
      else if RecordsVerify(w, both.value, A.Payload(call.id, row)) then With(s, t, Counted(call, row, now, true))
      else With(s, t, RolledBack(call))
    case Counted(call, row, now, approve) =>
      if call.id >= |rows| then s
      else With(s.(db := Signed(s.db, call.id, call.uid, Signature(tx), approve), made := s.made[Key(tx) := call.id]),
                t, Committed(call))
    case _ => s
  }

  datatype Move = MBegin(call: Call) | MProceed(t: nat) | MAbort(t: nat) | MOther(timed: Timed)

  /** An update of an attestation row waits while a transaction holds that row's lock. */
  predicate Waits(txs: seq<Tx>, cmd: Command) {
    (cmd.CmdStaffSign? || cmd.CmdReject?) && !LockFree(txs, cmd.id)
  }

  function Next(w: World, locking: bool, s: Sys, m: Move): Sys {
    match m
    case MBegin(call) => s.(txs := s.txs + [Started(call)])
    case MProceed(t) => if t < |s.txs| then Proceed(w, locking, s, t) else s
    case MAbort(t) => if t < |s.txs| && !Done(s.txs[t]) then With(s, t, RolledBack(s.txs[t].call)) else s
    case MOther(timed) =>
      if timed.cmd.CmdReviewerSign? || Waits(s.txs, timed.cmd) then s else s.(db := Step(w, s.db, timed))
  }

  function Play(w: World, locking: bool, s: Sys, moves: seq<Move>): Sys {
    if moves == [] then s else Next(w, locking, Play(w, locking, s, moves[..|moves| - 1]), moves[|moves| - 1])
  }

  // ---- the invariant ----

  predicate MadeFor(s: Sys, visit: int, reviewer: int, id: nat) {
    (visit, reviewer) in s.made && s.made[(visit, reviewer)] == id
  }

  predicate TxValid(w: World, s: Sys, tx: Tx) {
    Owns(tx) ==>
      && tx.call.id < |s.db.attestations| && s.db.attestations[tx.call.id] == tx.row
      && (!tx.Holding? ==> SignRefused(w, tx.call.id, tx.row, tx.call.uid, tx.call.req, tx.now).None?)
      && (HasInserted(tx) ==> Key(tx) !in s.db.sigs)
      && (tx.Counted? ==>
            if tx.approve
            then Both(s.db.sigs, tx).Some? && RecordsVerify(w, Both(s.db.sigs, tx).value, A.Payload(tx.call.id, tx.row))
            else !MadeFor(s, tx.row.visit, A.Partner(tx.row, tx.call.uid), tx.call.id))
  }

  /** One owner per row lock, one uncommitted row per signature key. */
  predicate Exclusive(txs: seq<Tx>) {
    forall t, u :: 0 <= t < u < |txs| && Owns(txs[t]) && Owns(txs[u]) ==>
      txs[t].call.id != txs[u].call.id && (HasInserted(txs[t]) && HasInserted(txs[u]) ==> Key(txs[t]) != Key(txs[u]))
  }

  /** A committed signature was made in time and verifies over the payload of the attestation it was made for. */
  predicate MadeValid(w: World, s: Sys, key: (int, int))
    requires key in s.made
  {
    var id := s.made[key];
    && id < |s.db.attestations| && key in s.db.sigs
    && var row := s.db.attestations[id];
       && row.visit == key.0 && A.AssignedTo(row, key.1) && row.status != A.Pending
       && E.RecordVerifies(w.primitives, s.db.sigs[key].record, A.Payload(id, row))
       && s.db.sigs[key].signedAt <= s.db.sigs[key].deadline
  }

  /** Both assigned reviewers have committed a signature made for attestation `id`. */
  predicate BothMadeFor(s: Sys, id: nat)
    requires id < |s.db.attestations|
  {
    var row := s.db.attestations[id];
    MadeFor(s, row.visit, row.reviewer1, id) && MadeFor(s, row.visit, row.reviewer2, id)
  }

  predicate NoneLost(s: Sys) {
    forall id :: 0 <= id < |s.db.attestations| && BothMadeFor(s, id) ==> s.db.attestations[id].status != A.CoSignPending
  }

  ghost predicate Consistent(w: World, s: Sys) {
    && Inv(w, s.db)
    && (forall t :: 0 <= t < |s.txs| ==> TxValid(w, s, s.txs[t]))
    && Exclusive(s.txs)
    && s.made.Keys == s.db.sigs.Keys
    && (forall key :: key in s.made ==> MadeValid(w, s, key))
    && NoneLost(s)
  }

  // ---- moves that leave the tables alone ----

  lemma {:induction false} WithConsistent(w: World, s: Sys, t: nat, tx: Tx)
    requires Consistent(w, s) && t < |s.txs| && TxValid(w, s, tx)
    requires Owns(tx) ==> forall u :: 0 <= u < |s.txs| && u != t && Owns(s.txs[u]) ==>
               s.txs[u].call.id != tx.call.id && (HasInserted(tx) && HasInserted(s.txs[u]) ==> Key(s.txs[u]) != Key(tx))
    ensures Consistent(w, With(s, t, tx))
  {
    hide Inv, SignRefused, Both, RecordsVerify, A.Payload, E.RecordVerifies, A.AssignedTo;
    var s' := With(s, t, tx);
    forall u | 0 <= u < |s'.txs| ensures TxValid(w, s', s'.txs[u]) {
      assert TxValid(w, s, s.txs[u]);
    }
    forall key | key in s'.made ensures MadeValid(w, s', key) {
      assert MadeValid(w, s, key);
    }
    assert NoneLost(s') by {
      forall id | 0 <= id < |s'.db.attestations| && BothMadeFor(s', id)
        ensures s'.db.attestations[id].status != A.CoSignPending {
        assert BothMadeFor(s, id);
      }
    }
  }

  lemma {:induction false} BeginConsistent(w: World, s: Sys, call: Call)
    requires Consistent(w, s)
    ensures Consistent(w, s.(txs := s.txs + [Started(call)]))
  {
    hide Inv, SignRefused, Both, RecordsVerify, A.Payload, E.RecordVerifies, A.AssignedTo;
    var s' := s.(txs := s.txs + [Started(call)]);
    forall u | 0 <= u < |s'.txs| ensures TxValid(w, s', s'.txs[u]) {
      assert u < |s.txs| ==> TxValid(w, s, s.txs[u]);
    }
    forall key | key in s'.made ensures MadeValid(w, s', key) {
      assert MadeValid(w, s, key);
    }
    forall id | 0 <= id < |s'.db.attestations| && BothMadeFor(s', id)
      ensures s'.db.attestations[id].status != A.CoSignPending {
      assert BothMadeFor(s, id);
    }
  }

  /** Two distinct reviewers, so the partner of an assigned reviewer is the other one. */
  lemma {:induction false} PartnerIsOther(w: World, s: State, id: nat, uid: int)
    requires Inv(w, s) && id < |s.attestations| && A.AssignedTo(s.attestations[id], uid)
    ensures var row, partner := s.attestations[id], A.Partner(s.attestations[id], uid);
            partner != uid && row.reviewer1 != row.reviewer2 && A.AssignedTo(row, partner)
  {
    assert A.RowValid(w.primitives, s.sigs, id, s.attestations[id]);
  }

  /** What a statement before commit turns its transaction into. */
  lemma {:induction false} StatementTx(w: World, s: Sys, t: nat)
    requires t < |s.txs| && !s.txs[t].Counted? && TxValid(w, s, s.txs[t]) && s.made.Keys == s.db.sigs.Keys
    requires var tx := s.txs[t];
             tx.Inserted? ==> tx.row.reviewer1 != tx.row.reviewer2 && A.AssignedTo(tx.row, tx.call.uid)
    ensures var tx, tx' := s.txs[t], Proceed(w, true, s, t).txs[t];
            && Proceed(w, true, s, t) == With(s, t, tx') && TxValid(w, s, tx') && tx'.call == tx.call
            && (Owns(tx') && !Owns(tx) ==> tx'.Holding? && LockFree(s.txs, tx.call.id))
            && (HasInserted(tx') && !HasInserted(tx) ==> KeyFree(s.txs, Key(tx')))
            && (HasInserted(tx') && HasInserted(tx) ==> Key(tx') == Key(tx))
  {
    hide RecordsVerify, A.Payload, NewSignature, LockFree, KeyFree, SignRefused;
    var tx := s.txs[t];
    if Proceed(w, true, s, t) == s {
      assert With(s, t, tx) == s;
    }
  }

  lemma {:induction false} StatementConsistent(w: World, s: Sys, t: nat)
    requires Consistent(w, s) && t < |s.txs| && !s.txs[t].Counted?
    ensures Consistent(w, Proceed(w, true, s, t))
  {
    hide Inv, RecordsVerify, A.Payload, E.RecordVerifies, NewSignature, MadeValid, NoneLost, Both, SignRefused, Proceed;
    var tx := s.txs[t];
    assert TxValid(w, s, tx);
    if tx.Inserted? {
      SignerAssigned(w, s, tx);
      PartnerIsOther(w, s.db, tx.call.id, tx.call.uid);
    }
    StatementTx(w, s, t);
    WithConsistent(w, s, t, Proceed(w, true, s, t).txs[t]);
  }

  lemma {:induction false} SignerAssigned(w: World, s: Sys, tx: Tx)
    requires TxValid(w, s, tx) && HasInserted(tx)
    ensures tx.call.id < |s.db.attestations| && s.db.attestations[tx.call.id] == tx.row
    ensures A.AssignedTo(tx.row, tx.call.uid) && tx.row.status == A.CoSignPending
    ensures E.Verify(w.primitives, tx.call.req.keyHex, A.Payload(tx.call.id, tx.row), tx.call.req.signature)
            == E.Checked(true)
  {
  }

  // ---- commit ----

  function Commit(s: Sys, t: nat): Sys
    requires t < |s.txs| && s.txs[t].Counted? && s.txs[t].call.id < |s.db.attestations|
  {
    var tx := s.txs[t];
    With(s.(db := Signed(s.db, tx.call.id, tx.call.uid, Signature(tx), tx.approve),
            made := s.made[Key(tx) := tx.call.id]),
         t, Committed(tx.call))
  }

  predicate CommitReady(w: World, s: Sys, t: nat) { t < |s.txs| && s.txs[t].Counted? && TxValid(w, s, s.txs[t]) }

  lemma {:induction false} CommitInv(w: World, s: Sys, t: nat)
    requires CommitReady(w, s, t) && Inv(w, s.db)
    ensures Inv(w, Commit(s, t).db) && Keeps(s.db, Commit(s, t).db)
  {
    hide Inv, Keeps, A.Payload, RecordsVerify, NewSignature, E.Verify, Signed;
    var tx := s.txs[t];
    SignedSafe(w, s.db, tx.call.id, tx.call.uid, Signature(tx), tx.approve);
  }

  lemma {:induction false} CommitOthers(w: World, s: Sys, t: nat, other: Tx)
    requires CommitReady(w, s, t) && TxValid(w, s, other)
    requires Owns(other) ==> other.call.id != s.txs[t].call.id
    requires HasInserted(other) ==> Key(other) != Key(s.txs[t])
    ensures TxValid(w, Commit(s, t), other)
  {
    hide A.Payload, RecordsVerify, NewSignature, SignRefused, WithStatus;
    var s' := Commit(s, t);
    if Owns(other) {
      assert s'.db.attestations[other.call.id] == other.row;
      if other.Counted? && other.approve {
        assert Both(s'.db.sigs, other) == Both(s.db.sigs, other);
      }
    }
  }

  lemma {:induction false} CommitMade(w: World, s: Sys, t: nat)
    requires CommitReady(w, s, t)
    ensures MadeValid(w, Commit(s, t), Key(s.txs[t]))
  {
    hide Both, RecordsVerify, E.Verify, E.RecordVerifies, E.EncodeRecord, A.Payload, WithStatus;
    var tx := s.txs[t];
    SignerAssigned(w, s, tx);
    PayloadIgnoresStatus(tx.call.id, tx.row);
    A.RecordOfVerified(w.primitives, tx.call.req.keyHex, A.Payload(tx.call.id, tx.row), tx.call.req.signature);
  }

  lemma {:induction false} CommitMadeOthers(w: World, s: Sys, t: nat, key: (int, int))
    requires CommitReady(w, s, t) && key in s.made && MadeValid(w, s, key) && key != Key(s.txs[t])
    ensures MadeValid(w, Commit(s, t), key)
  {
    hide Both, RecordsVerify, E.RecordVerifies, A.Payload, WithStatus, SignRefused, NewSignature;
    PayloadIgnoresStatus(s.made[key], s.db.attestations[s.made[key]]);
  }

  /** The step the row lock is there for. */
  lemma {:induction false} CommitNoneLost(w: World, s: Sys, t: nat)
    requires CommitReady(w, s, t) && NoneLost(s)
    requires var tx := s.txs[t];
             A.Partner(tx.row, tx.call.uid) != tx.call.uid && A.AssignedTo(tx.row, A.Partner(tx.row, tx.call.uid))
    ensures NoneLost(Commit(s, t))
  {
    hide A.Payload, RecordsVerify, Both, NewSignature, SignRefused, WithStatus;
    var tx, s' := s.txs[t], Commit(s, t);
    forall id | 0 <= id < |s'.db.attestations| && BothMadeFor(s', id)
      ensures s'.db.attestations[id].status != A.CoSignPending {
      if id != tx.call.id {
        assert s'.db.attestations[id] == s.db.attestations[id];
        assert BothMadeFor(s, id);
      }
    }
  }

  lemma {:induction false} CommitConsistent(w: World, s: Sys, t: nat)
    requires Consistent(w, s) && t < |s.txs| && s.txs[t].Counted?
    ensures s.txs[t].call.id < |s.db.attestations| && Consistent(w, Commit(s, t)) && Keeps(s.db, Commit(s, t).db)
  {
    hide Inv, Keeps, RecordsVerify, A.Payload, E.RecordVerifies, NewSignature, MadeValid, NoneLost, Both, SignRefused,
         WithStatus;
    var tx, s' := s.txs[t], Commit(s, t);
    assert TxValid(w, s, tx);
    SignerAssigned(w, s, tx);
    PartnerIsOther(w, s.db, tx.call.id, tx.call.uid);
    CommitInv(w, s, t);
    CommitNoneLost(w, s, t);
    forall u | 0 <= u < |s'.txs| ensures TxValid(w, s', s'.txs[u]) {
      if u != t {
        assert TxValid(w, s, s.txs[u]);
        CommitOthers(w, s, t, s.txs[u]);
      }
    }
    forall key | key in s'.made ensures MadeValid(w, s', key) {
      if key == Key(tx) {
        CommitMade(w, s, t);
      } else {
        assert MadeValid(w, s, key);
        CommitMadeOthers(w, s, t, key);
      }
    }
  }

  // ---- the other commands ----

  /**
   * Other commands write no signatures; on a row past `pending` they leave the signed payload alone and can only
   * reject.
   */
  lemma {:induction false} OtherRow(w: World, s: State, cmd: Command, i: nat)
    requires Exec(w, s, cmd).Ok? && !cmd.CmdReviewerSign? && i < |s.attestations|
    ensures var s' := Exec(w, s, cmd).value;
            && s'.sigs == s.sigs && |s.attestations| <= |s'.attestations|
            && var row, row' := s.attestations[i], s'.attestations[i];
               && (((cmd.CmdStaffSign? || cmd.CmdReject?) && cmd.id == i) || row' == row)
               && row'.visit == row.visit && row'.user == row.user && row'.reviewer1 == row.reviewer1 &&
                    row'.reviewer2 == row.reviewer2
               && (row.status != A.Pending ==>
                     row'.photoHash == row.photoHash && (row'.status == row.status || row'.status == A.Rejected))
  {
    hide RecordsVerify, A.Payload, E.Verify, E.EncodeRecord, S.FindLive, S.Issued, S.Renewed, P.Qualify, P.Refuse,
         Witness,
         Assign, A.IsSha256Hex, O.Collect, O.Cancel, O.Activated, O.TapCheck, HasRole, P.NewlyMet;
  }

  lemma {:induction false} OtherSigs(w: World, s: State, cmd: Command)
    requires Exec(w, s, cmd).Ok? && !cmd.CmdReviewerSign?
    ensures var s' := Exec(w, s, cmd).value; s'.sigs == s.sigs && |s.attestations| <= |s'.attestations|
  {
    hide RecordsVerify, A.Payload, E.Verify, E.EncodeRecord, S.FindLive, S.Issued, S.Renewed, P.Qualify, P.Refuse,
         Witness,
         Assign, A.IsSha256Hex, O.Collect, O.Cancel, O.Activated, O.TapCheck, HasRole, P.NewlyMet;
  }

  /** How row `i` may change: a locked row not at all, a row past `pending` only to rejected. */
  predicate RowMoves(txs: seq<Tx>, i: nat, row: A.Row, row': A.Row) {
    && (row' == row || LockFree(txs, i))
    && row'.visit == row.visit && row'.reviewer1 == row.reviewer1 && row'.reviewer2 == row.reviewer2
    && (row.status != A.Pending ==>
          A.Payload(i, row') == A.Payload(i, row) && (row'.status == row.status || row'.status == A.Rejected))
  }

  predicate RowsMove(s: Sys, db': State) {
    && db'.sigs == s.db.sigs && |s.db.attestations| <= |db'.attestations|
    && forall i :: 0 <= i < |s.db.attestations| ==> RowMoves(s.txs, i, s.db.attestations[i], db'.attestations[i])
  }

  lemma {:induction false} OtherMoves(w: World, s: Sys, t: Timed)
    requires !t.cmd.CmdReviewerSign? && !Waits(s.txs, t.cmd)
    ensures RowsMove(s, Step(w, s.db, t))
  {
    hide Exec, LockFree;
    var now := s.db.(clock := s.db.clock + t.delay);
    if Exec(w, now, t.cmd).Ok? {
      hide RowMoves;
      OtherSigs(w, now, t.cmd);
      forall i | 0 <= i < |s.db.attestations|
        ensures RowMoves(s.txs, i, s.db.attestations[i], Exec(w, now, t.cmd).value.attestations[i]) {
        OtherRowMoves(w, s, now, t.cmd, i);
      }
    }
  }

  lemma {:induction false} OtherRowMoves(w: World, s: Sys, now: State, cmd: Command, i: nat)
    requires !cmd.CmdReviewerSign? && !Waits(s.txs, cmd) && Exec(w, now, cmd).Ok?
    requires now.attestations == s.db.attestations && i < |s.db.attestations|
    ensures i < |Exec(w, now, cmd).value.attestations|
            && RowMoves(s.txs, i, s.db.attestations[i], Exec(w, now, cmd).value.attestations[i])
  {
    hide Exec, LockFree;
    OtherRow(w, now, cmd, i);
  }

  lemma {:induction false} OtherConsistent(w: World, s: Sys, t: Timed)
    requires Consistent(w, s) && !t.cmd.CmdReviewerSign? && !Waits(s.txs, t.cmd)
    ensures Consistent(w, s.(db := Step(w, s.db, t))) && Keeps(s.db, Step(w, s.db, t))
  {
    hide Inv, Keeps, RecordsVerify, A.Payload, E.RecordVerifies, Both, SignRefused, Step, NewSignature;
    var s' := s.(db := Step(w, s.db, t));
    StepSafe(w, s.db, t);
    OtherMoves(w, s, t);
    forall u | 0 <= u < |s'.txs| ensures TxValid(w, s', s'.txs[u]) {
      assert TxValid(w, s, s.txs[u]);
    }
    forall key | key in s'.made ensures MadeValid(w, s', key) {
      assert MadeValid(w, s, key);
    }
    forall id | 0 <= id < |s'.db.attestations| && BothMadeFor(s', id)
      ensures s'.db.attestations[id].status != A.CoSignPending {
      assert MadeValid(w, s, (s'.db.attestations[id].visit, s'.db.attestations[id].reviewer1));
      assert BothMadeFor(s, id);
    }
  }

  // ---- whole runs ----

  lemma {:induction false} NextConsistent(w: World, s: Sys, m: Move)
    requires Consistent(w, s)
    ensures Consistent(w, Next(w, true, s, m)) && Keeps(s.db, Next(w, true, s, m).db)
  {
    hide Inv, Keeps, TxValid, MadeValid, NoneLost, Exclusive, Waits, Step, Consistent;
    ClockSafeNow(w, s);
    match m
    case MBegin(call) => BeginConsistent(w, s, call);
    case MProceed(t) =>
      if t < |s.txs| {
        if s.txs[t].Counted? {
          CommitConsistent(w, s, t);
        } else {
          StatementConsistent(w, s, t);
        }
      }
    case MAbort(t) =>
      if t < |s.txs| {
        AbortConsistent(w, s, t);
      }
    case MOther(timed) =>
      if !timed.cmd.CmdReviewerSign? && !Waits(s.txs, timed.cmd) {
        OtherConsistent(w, s, timed);
      }
  }

  lemma {:induction false} ClockSafeNow(w: World, s: Sys)
    requires Consistent(w, s)
    ensures Keeps(s.db, s.db)
  {
    hide Inv, Keeps;
    ClockSafe(w, s.db, s.db.clock);
  }

  lemma {:induction false} AbortConsistent(w: World, s: Sys, t: nat)
    requires Consistent(w, s) && t < |s.txs|
    ensures Consistent(w, With(s, t, RolledBack(s.txs[t].call)))
  {
    hide Inv;
    WithConsistent(w, s, t, RolledBack(s.txs[t].call));
  }

  lemma {:induction false} PlayConsistent(w: World, s: Sys, moves: seq<Move>)
    requires Consistent(w, s)
    ensures Consistent(w, Play(w, true, s, moves)) && Keeps(s.db, Play(w, true, s, moves).db)
  {
    hide Consistent, Keeps, Next;
    if moves == [] {
      ClockSafeNow(w, s);
    } else {
      var before := Play(w, true, s, moves[..|moves| - 1]);
      PlayConsistent(w, s, moves[..|moves| - 1]);
      NextConsistent(w, before, moves[|moves| - 1]);
      KeepsTrans(s.db, before.db, Play(w, true, s, moves).db);
    }
  }

  function Quiet(s0: State): Sys { Sys(s0, map[], []) }

  lemma {:induction false} QuietConsistent(w: World, s0: State)
    requires Initial(s0)
    ensures Consistent(w, Quiet(s0))
  {
    InitialSafe(w, s0);
    hide Inv;
  }

  // ---- what the row lock guarantees ----

  /**
   * No lost approval: whatever the interleaving, once both assigned reviewers have committed signatures
   * made for an attestation, it is no longer waiting for co-signatures. If it was not rejected it is approved,
   * and both stored records verify over its payload.
   */
  lemma {:induction false} NoLostApproval(w: World, s0: State, moves: seq<Move>, id: nat)
    requires Initial(s0)
    requires var s := Play(w, true, Quiet(s0), moves); id < |s.db.attestations| && BothMadeFor(s, id)
    ensures var s := Play(w, true, Quiet(s0), moves);
            && (s.db.attestations[id].status == A.Approved || s.db.attestations[id].status == A.Rejected)
            && A.CoSigned(w.primitives, s.db.sigs, id, s.db.attestations[id])
  {
    hide Inv, Play, Initial, Keeps;
    QuietConsistent(w, s0);
    PlayConsistent(w, Quiet(s0), moves);
    var s := Play(w, true, Quiet(s0), moves);
    var row := s.db.attestations[id];
    assert MadeValid(w, s, (row.visit, row.reviewer1)) && MadeValid(w, s, (row.visit, row.reviewer2));
  }

  /**
   * A stored co-signature is always valid: in every state of every interleaving it was made before its deadline
   * by a reviewer assigned to an attestation of the visit, past staff sign, over whose payload it verifies.
   */
  lemma {:induction false} StoredSignaturesValid(w: World, s0: State, moves: seq<Move>, key: (int, int))
    requires Initial(s0) && key in Play(w, true, Quiet(s0), moves).db.sigs
    ensures var db := Play(w, true, Quiet(s0), moves).db;
            && db.sigs[key].signedAt <= db.sigs[key].deadline
            && exists id :: 0 <= id < |db.attestations| && db.attestations[id].visit == key.0
                 && A.AssignedTo(db.attestations[id], key.1) && db.attestations[id].status != A.Pending
                 && E.RecordVerifies(w.primitives, db.sigs[key].record, A.Payload(id, db.attestations[id]))
  {
    hide Inv, Play, Initial, Keeps, NoneLost, TxValid, Exclusive, A.Payload, E.RecordVerifies, A.AssignedTo;
    QuietConsistent(w, s0);
    PlayConsistent(w, Quiet(s0), moves);
    assert MadeValid(w, Play(w, true, Quiet(s0), moves), key);
  }

  /** The end-to-end guarantee survives the interleaving. */
  lemma {:induction false} ConcurrentPipelineIsEarned(w: World, s0: State, moves: seq<Move>, more: seq<Move>, u: int)
    requires Initial(s0)
    ensures var s := Play(w, true, Quiet(s0), moves);
            IsAttested(s.db, u) || G.HoldsToken(s.db, u)
            ==> G.Earned(w, s.db, u) && G.Earned(w, Play(w, true, s, more).db, u)
  {
    hide Initial, Inv, Keeps, Play, G.Earned, TxValid, MadeValid, NoneLost, Exclusive, ApprovedFor;
    QuietConsistent(w, s0);
    PlayConsistent(w, Quiet(s0), moves);
    var s := Play(w, true, Quiet(s0), moves);
    PlayConsistent(w, s, more);
    var later := Play(w, true, s, more);
    if IsAttested(s.db, u) || G.HoldsToken(s.db, u) {
      G.AttestedOrHolder(w, s.db, u);
      G.ApprovalLasts(s.db, later.db, u);
      G.ApprovedIsEarned(w, s.db, u);
      G.ApprovedIsEarned(w, later.db, u);
    }
  }

  /** With the partner's signature committed for the attestation, the signer finds two records and both verify. */
  lemma {:induction false} PartnerSeen(w: World, s: Sys, tx: Tx)
    requires tx.Inserted? && TxValid(w, s, tx)
    requires var partner := A.Partner(tx.row, tx.call.uid);
             && partner != tx.call.uid && A.AssignedTo(tx.row, partner)
             && MadeFor(s, tx.row.visit, partner, tx.call.id) && MadeValid(w, s, (tx.row.visit, partner))
    ensures Both(s.db.sigs, tx).Some? && RecordsVerify(w, Both(s.db.sigs, tx).value, A.Payload(tx.call.id, tx.row))
  {
    SignerAssigned(w, s, tx);
    hide SignRefused, A.Payload, E.RecordVerifies, E.EncodeRecord, RecordsVerify, E.Verify;
    A.RecordOfVerified(w.primitives, tx.call.req.keyHex, A.Payload(tx.call.id, tx.row), tx.call.req.signature);
    BothVerify(w, Both(s.db.sigs, tx).value, A.Payload(tx.call.id, tx.row));
  }

  /** Transaction `t` has committed and attestation `id` is approved. */
  predicate ApprovedBy(s: Sys, t: nat, id: nat) {
    t < |s.txs| && s.txs[t].Committed? && id < |s.db.attestations| && s.db.attestations[id].status == A.Approved
  }

  lemma {:induction false} CountThenCommit(w: World, s: Sys, t: nat)
    requires t < |s.txs| && s.txs[t].Inserted? && s.txs[t].call.id < |s.db.attestations|
    requires var tx := s.txs[t];
             Both(s.db.sigs, tx).Some? && RecordsVerify(w, Both(s.db.sigs, tx).value, A.Payload(tx.call.id, tx.row))
    ensures ApprovedBy(Next(w, true, Next(w, true, s, MProceed(t)), MProceed(t)), t, s.txs[t].call.id)
  {
    hide A.Payload, RecordsVerify, Both, WithStatus, NewSignature;
    var tx := s.txs[t];
    var counted := Counted(tx.call, tx.row, tx.now, true);
    assert Next(w, true, s, MProceed(t)) == With(s, t, counted);
    assert Next(w, true, With(s, t, counted), MProceed(t)) == Commit(With(s, t, counted), t);
  }

  /**
   * The second signer always sees the first: with the partner's signature made for the attestation, signing
   * approves it.
   */
  lemma {:induction false} SecondSignerApproves(w: World, s: Sys, t: nat)
    requires Consistent(w, s) && t < |s.txs| && s.txs[t].Inserted?
    requires var tx := s.txs[t]; MadeFor(s, tx.row.visit, A.Partner(tx.row, tx.call.uid), tx.call.id)
    ensures ApprovedBy(Next(w, true, Next(w, true, s, MProceed(t)), MProceed(t)), t, s.txs[t].call.id)
  {
    hide Inv, SignRefused, A.Payload, E.RecordVerifies, RecordsVerify, Both, NoneLost, Exclusive,
         TxValid, MadeValid, Next, E.Verify, A.Partner, A.AssignedTo;
    var tx := s.txs[t];
    assert TxValid(w, s, tx);
    SignerAssigned(w, s, tx);
    PartnerIsOther(w, s.db, tx.call.id, tx.call.uid);
    assert MadeValid(w, s, (tx.row.visit, A.Partner(tx.row, tx.call.uid)));
    PartnerSeen(w, s, tx);
    CountThenCommit(w, s, t);
  }

  /**
   * A committing transaction does to the tables what the atomic command does at that moment, exactly when
   * it approves or its partner has not signed the visit. The only other case is a partner whose signature was made
   * for a different attestation of the visit and committed between the count and the commit; atomically
   * the second of those two commands would have been refused.
   */
  lemma {:induction false} CommitRefinesIff(w: World, s: Sys, t: nat)
    requires Consistent(w, s) && t < |s.txs| && s.txs[t].Counted?
    ensures var tx := s.txs[t];
            var atomic := ReviewerSign(w, s.db.(clock := tx.now), tx.call.id, tx.call.uid, tx.call.req);
            var partner := (tx.row.visit, A.Partner(tx.row, tx.call.uid));
            && (atomic.Ok? && atomic.value.(clock := s.db.clock) == Next(w, true, s, MProceed(t)).db
                <==> tx.approve || partner !in s.db.sigs)
            && (!tx.approve && partner in s.db.sigs ==> partner in s.made && s.made[partner] != tx.call.id)
  {
    hide Inv, SignRefused, A.Payload, E.RecordVerifies, RecordsVerify, NoneLost, Exclusive, WithStatus, NewSignature,
         MadeValid;
    var tx := s.txs[t];
    assert TxValid(w, s, tx);
    SignerAssigned(w, s, tx);
    PartnerIsOther(w, s.db, tx.call.id, tx.call.uid);
    assert Next(w, true, s, MProceed(t)).db == Signed(s.db, tx.call.id, tx.call.uid, Signature(tx), tx.approve);
  }

  /**
   * What a transaction carries from statement to statement: the row it read under the lock and the clock it read
   * when it checked the request. Only a commit changes the tables, and it writes exactly that signature row.
   */
  lemma {:induction false} StatementsCarry(w: World, locking: bool, s: Sys, t: nat)
    requires t < |s.txs| && TxValid(w, s, s.txs[t])
    ensures var s', tx := Next(w, locking, s, MProceed(t)), s.txs[t];
            && |s'.txs| == |s.txs| && (forall u :: 0 <= u < |s.txs| && u != t ==> s'.txs[u] == s.txs[u])
            && var tx' := s'.txs[t];
               && tx'.call == tx.call
               && (tx.Started? && tx'.Holding? ==>
                     tx.call.id < |s.db.attestations| && tx'.row == s.db.attestations[tx.call.id])
               && (tx.Holding? && tx'.Checked? ==> tx'.row == tx.row && tx'.now == s.db.clock)
               && ((tx.Checked? || HasInserted(tx)) && (tx'.Checked? || HasInserted(tx')) ==>
                     tx'.row == tx.row && tx'.now == tx.now)
               && (!(tx.Counted? && tx'.Committed?) ==> s'.db == s.db && s'.made == s.made)
               && (tx.Counted? && tx'.Committed? ==>
                     && s'.db.sigs == s.db.sigs[(tx.row.visit, tx.call.uid) := Written(tx.row, tx.call.req, tx.now)]
                     && s'.made == s.made[(tx.row.visit, tx.call.uid) := tx.call.id])
  {
    hide SignRefused, A.Payload, RecordsVerify, A.BothRecords, LockFree, KeyFree, WithStatus, Micros;
    if HasInserted(s.txs[t]) {
      SignatureSpelled(s.txs[t].row, s.txs[t].call.req, s.txs[t].now);
    }
    hide NewSignature, Written, Both;
  }

  /**
   * When a statement rolls back: there is no such attestation; the request is refused as the row and the clock
   * stand; the reviewer's signature on the visit is already committed; or the two records do not verify together.
   */
  lemma {:induction false} RollsBackIff(w: World, locking: bool, s: Sys, t: nat)
    requires t < |s.txs| && !s.txs[t].RolledBack?
    ensures var tx := s.txs[t];
            Next(w, locking, s, MProceed(t)).txs[t].RolledBack?
            <==> || (tx.Started? && tx.call.id >= |s.db.attestations|)
                 || (tx.Holding? && SignRefused(w, tx.call.id, tx.row, tx.call.uid, tx.call.req, s.db.clock).Some?)
                 || (tx.Checked? && (tx.row.visit, tx.call.uid) in s.db.sigs)
                 || (tx.Inserted? && Both(s.db.sigs, tx).Some?
                     && !RecordsVerify(w, Both(s.db.sigs, tx).value, A.Payload(tx.call.id, tx.row)))
  {
    hide SignRefused, A.Payload, RecordsVerify, Both, LockFree, KeyFree;
  }

  /** Some unfinished transaction holds the lock of attestation row `id`. */
  predicate Locked(txs: seq<Tx>, id: nat) {
    exists u :: 0 <= u < |txs| && (txs[u].Holding? || txs[u].Checked? || txs[u].Inserted? || txs[u].Counted?)
                && txs[u].call.id == id
  }

  /** Some unfinished transaction has inserted, and not committed, a signature row of this reviewer and visit. */
  predicate Inserting(txs: seq<Tx>, visit: int, reviewer: int) {
    exists u :: 0 <= u < |txs| && (txs[u].Inserted? || txs[u].Counted?)
                && txs[u].row.visit == visit && txs[u].call.uid == reviewer
  }

  /**
   * Nothing waits but for a reason: a transaction only for the row lock or for an uncommitted row of its key, and
   * of the other commands only a staff signature or a rejection, and only for the lock of its own row.
   */
  lemma {:induction false} WaitsIff(w: World, s: Sys, m: Move)
    requires m.MProceed? ==> m.t < |s.txs| && !Done(s.txs[m.t]) && TxValid(w, s, s.txs[m.t])
    ensures m.MProceed? ==>
              var tx := s.txs[m.t];
              (Next(w, true, s, m) == s
               <==> || (tx.Started? && tx.call.id < |s.db.attestations| && Locked(s.txs, tx.call.id))
                    || (tx.Checked? && (tx.row.visit, tx.call.uid) !in s.db.sigs
                        && Inserting(s.txs, tx.row.visit, tx.call.uid)))
    ensures m.MOther? && !m.timed.cmd.CmdReviewerSign? ==>
              Next(w, true, s, m)
              == if (m.timed.cmd.CmdStaffSign? || m.timed.cmd.CmdReject?) && Locked(s.txs, m.timed.cmd.id) then s
                 else s.(db := Step(w, s.db, m.timed))
  {
    hide SignRefused, A.Payload, RecordsVerify, Both, Signed, Step;
    if m.MProceed? {
      LockedIff(s.txs, s.txs[m.t].call.id);
      var tx := s.txs[m.t];
      if tx.Checked? {
        InsertingIff(s.txs, Key(tx));
      }
      hide LockFree, KeyFree, Locked, Inserting;
      assert Next(w, true, s, m) != s ==> Next(w, true, s, m).txs[m.t] != tx;
    } else if m.MOther? && (m.timed.cmd.CmdStaffSign? || m.timed.cmd.CmdReject?) {
      LockedIff(s.txs, m.timed.cmd.id);
    }
  }

  lemma {:induction false} LockedIff(txs: seq<Tx>, id: nat)
    ensures Locked(txs, id) <==> !LockFree(txs, id)
  {
  }

  lemma {:induction false} InsertingIff(txs: seq<Tx>, key: (int, int))
    ensures Inserting(txs, key.0, key.1) <==> !KeyFree(txs, key)
  {
  }

  // ---- no deadlock ----

  predicate Moves(w: World, s: Sys, t: nat) {
    t < |s.txs| && Next(w, true, s, MProceed(t)) != s
  }

  lemma {:induction false} StepsOn(w: World, s: Sys, t: nat)
    requires t < |s.txs| && TxValid(w, s, s.txs[t])
    requires var tx := s.txs[t];
             || HasInserted(tx) || tx.Holding?
             || (tx.Started? && LockFree(s.txs, tx.call.id))
             || (tx.Checked? && KeyFree(s.txs, Key(tx)))
    ensures Moves(w, s, t)
  {
    hide SignRefused, A.Payload, RecordsVerify, Both, Signed, LockFree, KeyFree;
    assert Next(w, true, s, MProceed(t)).txs[t] != s.txs[t];
  }

  /** No deadlock: while any transaction is unfinished, some unfinished transaction can take its next step. */
  lemma {:induction false} NeverStuck(w: World, s: Sys, t: nat)
    requires Consistent(w, s) && t < |s.txs| && !Done(s.txs[t])
    ensures exists u :: 0 <= u < |s.txs| && !Done(s.txs[u]) && Moves(w, s, u)
  {
    hide Inv, TxValid, NoneLost, MadeValid, Exclusive, Moves;
    var tx := s.txs[t];
    assert TxValid(w, s, tx);
    if tx.Started? && !LockFree(s.txs, tx.call.id) {
      var u :| 0 <= u < |s.txs| && Owns(s.txs[u]) && s.txs[u].call.id == tx.call.id;
      OwnerMoves(w, s, u);
    } else if tx.Started? {
      StepsOn(w, s, t);
    } else {
      OwnerMoves(w, s, t);
    }
  }

  lemma {:induction false} OwnerMoves(w: World, s: Sys, t: nat)
    requires Consistent(w, s) && t < |s.txs| && Owns(s.txs[t])
    ensures exists u :: 0 <= u < |s.txs| && !Done(s.txs[u]) && Moves(w, s, u)
  {
    hide Inv, TxValid, NoneLost, MadeValid, Exclusive, Moves;
    var tx := s.txs[t];
    assert TxValid(w, s, tx);
    if tx.Checked? && !KeyFree(s.txs, Key(tx)) {
      var u :| 0 <= u < |s.txs| && HasInserted(s.txs[u]) && Key(s.txs[u]) == Key(tx);
      assert TxValid(w, s, s.txs[u]);
      StepsOn(w, s, u);
    } else {
      StepsOn(w, s, t);
    }
  }

  // ---- a transaction by itself ----

  function Others(cmds: seq<Timed>): (moves: seq<Move>)
    ensures |moves| == |cmds|
  {
    if cmds == [] then [] else Others(cmds[..|cmds| - 1]) + [MOther(cmds[|cmds| - 1])]
  }

  /** While no transaction runs, the other commands are a run of the platform. */
  lemma {:induction false} OthersRun(w: World, s: State, cmds: seq<Timed>)
    requires forall t :: t in cmds ==> !t.cmd.CmdReviewerSign?
    ensures Play(w, true, Quiet(s), Others(cmds)) == Quiet(Run(w, s, cmds))
  {
    hide Step;
    if cmds == [] {
    } else {
      var rest, last := cmds[..|cmds| - 1], cmds[|cmds| - 1];
      OthersRun(w, s, rest);
      PlayOne(w, true, Quiet(s), Others(rest), MOther(last));
    }
  }

  function Alone(t: nat, call: Call): seq<Move> {
    [MBegin(call), MProceed(t), MProceed(t), MProceed(t), MProceed(t), MProceed(t)]
  }

  function At(s: Sys, tx: Tx): Sys { s.(txs := s.txs + [tx]) }

  predicate AllDone(txs: seq<Tx>) { forall t :: 0 <= t < |txs| ==> Done(txs[t]) }

  lemma {:induction false} AtWith(s: Sys, tx: Tx, tx': Tx)
    ensures At(s, tx).txs[|s.txs|] == tx && With(At(s, tx), |s.txs|, tx') == At(s, tx')
  {
  }

  lemma {:induction false} AloneChecks(w: World, s: Sys, call: Call)
    requires AllDone(s.txs) && Acceptable(w, s.db, call)
    ensures var n, row := |s.txs|, s.db.attestations[call.id];
            && Next(w, true, At(s, Started(call)), MProceed(n)) == At(s, Holding(call, row))
            && Next(w, true, At(s, Holding(call, row)), MProceed(n)) == At(s, Checked(call, row, s.db.clock))
            && Next(w, true, At(s, Checked(call, row, s.db.clock)), MProceed(n))
              == At(s, Inserted(call, row, s.db.clock))
  {
    hide SignRefused;
    var row := s.db.attestations[call.id];
    AtWith(s, Started(call), Holding(call, row));
    AtWith(s, Holding(call, row), Checked(call, row, s.db.clock));
    AtWith(s, Checked(call, row, s.db.clock), Inserted(call, row, s.db.clock));
  }

  lemma {:induction false} AloneCounts(w: World, s: Sys, call: Call, row: A.Row, now: nat, approve: bool)
    requires call.id < |s.db.attestations|
    requires var both := Both(s.db.sigs, Inserted(call, row, now));
             if approve then both.Some? && RecordsVerify(w, both.value, A.Payload(call.id, row)) else both.None?
    ensures var n, sig := |s.txs|, Signature(Inserted(call, row, now));
            && Next(w, true, At(s, Inserted(call, row, now)), MProceed(n)) == At(s, Counted(call, row, now, approve))
            && Next(w, true, At(s, Counted(call, row, now, approve)), MProceed(n))
               == At(s, Committed(call)).(db := Signed(s.db, call.id, call.uid, sig, approve),
                                          made := s.made[(row.visit, call.uid) := call.id])
  {
    hide Both, RecordsVerify, A.Payload, NewSignature, Signed;
    AtWith(s, Inserted(call, row, now), Counted(call, row, now, approve));
    AtWith(s, Counted(call, row, now, approve), Committed(call));
  }

  lemma {:induction false} AlonePlay(w: World, s: Sys, n: nat, call: Call)
    ensures var p := MProceed(n);
            Play(w, true, s, Alone(n, call))
            == Next(w, true, Next(w, true, Next(w, true, Next(w, true, Next(w, true,
                 Next(w, true, s, MBegin(call)), p), p), p), p), p)
  {
    hide Next;
    assert Play(w, true, s, []) == s;
    hide Play;
    var begin, two := [MBegin(call), MProceed(n)], [MProceed(n), MProceed(n)];
    assert [] + begin == begin;
    PlayTwo(w, true, s, [], MBegin(call), MProceed(n));
    PlayTwo(w, true, s, begin, MProceed(n), MProceed(n));
    PlayTwo(w, true, s, begin + two, MProceed(n), MProceed(n));
    assert Alone(n, call) == begin + two + two;
  }

  /** Run by itself, an acceptable transaction commits. */
  lemma {:induction false} AloneCommits(w: World, s: Sys, call: Call, approve: bool)
    requires AllDone(s.txs) && Acceptable(w, s.db, call)
    requires var row := s.db.attestations[call.id];
             var both := Both(s.db.sigs, Inserted(call, row, s.db.clock));
             if approve then both.Some? && RecordsVerify(w, both.value, A.Payload(call.id, row)) else both.None?
    ensures var row := s.db.attestations[call.id];
            var sig := Signature(Inserted(call, row, s.db.clock));
            Play(w, true, s, Alone(|s.txs|, call))
            == At(s, Committed(call)).(db := Signed(s.db, call.id, call.uid, sig, approve),
                                       made := s.made[(row.visit, call.uid) := call.id])
  {
    hide Both, RecordsVerify, A.Payload, NewSignature, Signed, SignRefused, AllDone;
    assert Next(w, true, s, MBegin(call)) == At(s, Started(call));
    hide Play, Next, Alone, At;
    AloneChecks(w, s, call);
    AloneCounts(w, s, call, s.db.attestations[call.id], s.db.clock, approve);
    AlonePlay(w, s, |s.txs|, call);
  }

  lemma {:induction false} PlaySplice(w: World, s: Sys, first: seq<Move>, more: seq<Move>)
    ensures Play(w, true, s, first + more) == Play(w, true, Play(w, true, s, first), more)
  {
    hide Next;
    if more == [] {
      assert first + more == first;
    } else {
      var n := |more| - 1;
      PlaySplice(w, s, first, more[..n]);
      assert (first + more)[..|first + more| - 1] == first + more[..n];
    }
  }

  // ---- what happens without it ----

  /** Both transactions take each statement in turn. */
  function Alternating(one: Call, two: Call): seq<Move> {
    [MBegin(one), MBegin(two), MProceed(0), MProceed(1), MProceed(0), MProceed(1),
     MProceed(0), MProceed(1), MProceed(0), MProceed(1), MProceed(0), MProceed(1)]
  }

  lemma {:induction false} PlayOne(w: World, locking: bool, s: Sys, moves: seq<Move>, m: Move)
    ensures Play(w, locking, s, moves + [m]) == Next(w, locking, Play(w, locking, s, moves), m)
  {
    assert (moves + [m])[..|moves|] == moves;
  }

  lemma {:induction false} PlayTwo(w: World, locking: bool, s: Sys, moves: seq<Move>, m: Move, n: Move)
    ensures Play(w, locking, s, moves + [m, n]) == Next(w, locking, Next(w, locking, Play(w, locking, s, moves), m), n)
  {
    PlayOne(w, locking, s, moves, m);
    PlayOne(w, locking, s, moves + [m], n);
    assert moves + [m] + [n] == moves + [m, n];
  }

  /** A request by `uid` that `reviewer_sign` would accept now. */
  predicate Acceptable(w: World, s: State, call: Call) {
    && call.id < |s.attestations|
    && SignRefused(w, call.id, s.attestations[call.id], call.uid, call.req, s.clock).None?
    && (s.attestations[call.id].visit, call.uid) !in s.sigs
  }

  /** Two transactions for one attestation, in step. */
  function Pair(s: State, a: Tx, b: Tx): Sys { Sys(s, map[], [a, b]) }

  lemma {:induction false} UnlockedChecks(w: World, s: State, one: Call, two: Call)
    requires Acceptable(w, s, one) && Acceptable(w, s, two) && one.id == two.id
    ensures var row := s.attestations[one.id];
            var s1 := Pair(s, Started(one), Started(two));
            var s2 := Next(w, false, Next(w, false, s1, MProceed(0)), MProceed(1));
            Next(w, false, Next(w, false, s2, MProceed(0)), MProceed(1))
              == Pair(s, Checked(one, row, s.clock), Checked(two, row, s.clock))
  {
    hide SignRefused;
    var row := s.attestations[one.id];
    var s1 := Pair(s, Started(one), Started(two));
    var s2 := Next(w, false, Next(w, false, s1, MProceed(0)), MProceed(1));
    assert s2 == Pair(s, Holding(one, row), Holding(two, row));
    assert Next(w, false, s2, MProceed(0)) == Pair(s, Checked(one, row, s.clock), Holding(two, row));
  }

  lemma {:induction false} UnlockedInserts(w: World, s: State, one: Call, two: Call)
    requires Acceptable(w, s, one) && Acceptable(w, s, two) && one.id == two.id && one.uid != two.uid
    ensures var row := s.attestations[one.id];
            var s3 := Pair(s, Checked(one, row, s.clock), Checked(two, row, s.clock));
            Next(w, false, Next(w, false, s3, MProceed(0)), MProceed(1))
            == Pair(s, Inserted(one, row, s.clock), Inserted(two, row, s.clock))
  {
    hide SignRefused;
    var row := s.attestations[one.id];
    var s3 := Pair(s, Checked(one, row, s.clock), Checked(two, row, s.clock));
    assert Next(w, false, s3, MProceed(0)) == Pair(s, Inserted(one, row, s.clock), Checked(two, row, s.clock));
  }

  lemma {:induction false} UnlockedCounts(w: World, s: State, one: Call, two: Call)
    requires Acceptable(w, s, one) && Acceptable(w, s, two) && one.id == two.id && one.uid != two.uid
    ensures var row := s.attestations[one.id];
            var s4 := Pair(s, Inserted(one, row, s.clock), Inserted(two, row, s.clock));
            Next(w, false, Next(w, false, s4, MProceed(0)), MProceed(1))
            == Pair(s, Counted(one, row, s.clock, false), Counted(two, row, s.clock, false))
  {
    var row := s.attestations[one.id];
    assert A.AssignedTo(row, one.uid) && A.AssignedTo(row, two.uid);
    hide SignRefused, NewSignature;
    var s4 := Pair(s, Inserted(one, row, s.clock), Inserted(two, row, s.clock));
    assert Both(s.sigs, s4.txs[0]).None? && Both(s.sigs, s4.txs[1]).None?;
    hide Both;
    assert Next(w, false, s4, MProceed(0)) == Pair(s, Counted(one, row, s.clock, false), Inserted(two, row, s.clock));
  }

  lemma {:induction false} PlainCommit(w: World, locking: bool, s: Sys, t: nat)
    requires t < |s.txs| && s.txs[t].Counted? && !s.txs[t].approve && s.txs[t].call.id < |s.db.attestations|
    ensures var tx, s' := s.txs[t], Next(w, locking, s, MProceed(t));
            && s'.db.attestations == s.db.attestations && s'.made == s.made[Key(tx) := tx.call.id]
            && s'.txs == s.txs[t := Committed(tx.call)]
  {
    hide NewSignature;
  }

  lemma {:induction false} UnlockedCommits(w: World, s: State, one: Call, two: Call)
    requires Acceptable(w, s, one) && Acceptable(w, s, two) && one.id == two.id && one.uid != two.uid
    ensures var row := s.attestations[one.id];
            var s5 := Pair(s, Counted(one, row, s.clock, false), Counted(two, row, s.clock, false));
            var s' := Next(w, false, Next(w, false, s5, MProceed(0)), MProceed(1));
            && s'.txs == [Committed(one), Committed(two)] && s'.db.attestations == s.attestations
            && BothMadeFor(s', one.id)
  {
    var row := s.attestations[one.id];
    assert A.AssignedTo(row, one.uid) && A.AssignedTo(row, two.uid);
    hide Acceptable, Next, NewSignature;
    var s5 := Pair(s, Counted(one, row, s.clock, false), Counted(two, row, s.clock, false));
    PlainCommit(w, false, s5, 0);
    var s6 := Next(w, false, s5, MProceed(0));
    assert s6.txs == [Committed(one), Counted(two, row, s.clock, false)];
    PlainCommit(w, false, s6, 1);
  }

  lemma {:induction false} AlternatingPlay(w: World, s: Sys, one: Call, two: Call)
    ensures var s1 := Next(w, false, Next(w, false, s, MBegin(one)), MBegin(two));
            var s2 := Next(w, false, Next(w, false, s1, MProceed(0)), MProceed(1));
            var s3 := Next(w, false, Next(w, false, s2, MProceed(0)), MProceed(1));
            var s4 := Next(w, false, Next(w, false, s3, MProceed(0)), MProceed(1));
            var s5 := Next(w, false, Next(w, false, s4, MProceed(0)), MProceed(1));
            Play(w, false, s, Alternating(one, two)) == Next(w, false, Next(w, false, s5, MProceed(0)), MProceed(1))
  {
    hide Next;
    var begin, turn := [MBegin(one), MBegin(two)], [MProceed(0), MProceed(1)];
    assert Play(w, false, s, []) == s;
    assert [] + begin == begin;
    PlayTwo(w, false, s, [], MBegin(one), MBegin(two));
    PlayTwo(w, false, s, begin, MProceed(0), MProceed(1));
    PlayTwo(w, false, s, begin + turn, MProceed(0), MProceed(1));
    PlayTwo(w, false, s, begin + turn + turn, MProceed(0), MProceed(1));
    PlayTwo(w, false, s, begin + turn + turn + turn, MProceed(0), MProceed(1));
    PlayTwo(w, false, s, begin + turn + turn + turn + turn, MProceed(0), MProceed(1));
    assert Alternating(one, two) == begin + turn + turn + turn + turn + turn;
  }

  /**
   * Without the row lock the approval is lost, for every attestation and every pair of acceptable
   * signatures: the alternating run commits both and leaves the attestation waiting for co-signatures.
   */
  lemma {:induction false} LockIsNeeded(w: World, s: State, one: Call, two: Call)
    requires Acceptable(w, s, one) && Acceptable(w, s, two) && one.id == two.id && one.uid != two.uid
    ensures var s' := Play(w, false, Quiet(s), Alternating(one, two));
            && s'.txs == [Committed(one), Committed(two)] && s'.db.attestations == s.attestations
            && BothMadeFor(s', one.id) && s'.db.attestations[one.id].status == A.CoSignPending
  {
    assert s.attestations[one.id].status == A.CoSignPending;
    AlternatingPlay(w, Quiet(s), one, two);
    assert Next(w, false, Next(w, false, Quiet(s), MBegin(one)), MBegin(two)) == Pair(s, Started(one), Started(two));
    hide Acceptable, Next, Play;
    UnlockedChecks(w, s, one, two);
    UnlockedInserts(w, s, one, two);
    UnlockedCounts(w, s, one, two);
    UnlockedCommits(w, s, one, two);
  }
}
