/**
 * The verification pipeline as one state machine: the tables, and each service command as a function
 * from tables to new tables or an error. A command that fails changes nothing, because its
 * transaction is dropped (domain/src/transaction.rs:24-28).
 */
module Platform {
  import opened Common
  import opened Payloads
  import opened Reviewers
  import E = Ed25519
  import P = Presence
  import A = Attestations
  import S = Soultokens
  import O = Orders

  datatype Verification = Registered | IdentityConfirmed | PresenceConfirmed | Attested | Cleared

  datatype User = User(status: Verification, banned: bool, admin: bool, deleted: bool, soultoken: Option<nat>)

  /** Everything outside the tables: signature primitives, platform keys, HMAC-SHA256 as hex (RFC 2104). */
  datatype World = World(primitives: E.Primitives, keys: S.Keys, hmac: (string, string) -> string)

  datatype Credential = Credential(user: int, session: string)

  datatype State = State(clock: nat, users: map<int, User>, credentials: seq<Credential>, presence: P.Tables,
                         attestations: seq<A.Row>, sigs: Signatures,
                         tokens: seq<S.Token>, renewals: seq<S.Renewal>, orders: O.Tables)

  // Rows of tables this model does not hold, as a command reads them.
  datatype Beacon = Beacon(business: Option<int>, secret: string, minimumRssi: int)
  datatype Visit = Visit(staff: int, location: int, inProgress: bool)

  // ---- users ----

  function FindUser(users: map<int, User>, uid: int): Option<User> {
    if uid in users && !users[uid].deleted then Some(users[uid]) else None
  }

  function WithStatus(users: map<int, User>, uid: int, status: Verification): map<int, User> {
    if uid in users then users[uid := users[uid].(status := status)] else users
  }

  function WithToken(users: map<int, User>, uid: int, token: Option<nat>): map<int, User> {
    if uid in users then users[uid := users[uid].(soultoken := token)] else users
  }

  /** Back to the start: what revocation and surrender do to the holder. */
  function Reset(users: map<int, User>, uid: int): map<int, User> {
    if uid in users then users[uid := users[uid].(status := Registered, soultoken := None)] else users
  }

  function Admitted(users: map<int, User>, uid: int): Result<User> {
    var user := FindUser(users, uid);
    if user.None? then Err(Unauthorized) else if user.value.banned then Err(Forbidden) else Ok(user.value)
  }

  // ---- identity ----

  function InitiateVerification(s: State, uid: int, session: string): Result<State> {
    var user := Admitted(s.users, uid);
    if user.Err? then Err(user.error)
    else if user.value.status != Registered then Err(Conflict)
    else if exists i :: 0 <= i < |s.credentials| && s.credentials[i].session == session then Err(Conflict)
    else Ok(s.(credentials := s.credentials + [Credential(uid, session)],
               users := WithStatus(s.users, uid, IdentityConfirmed)))
  }

  // ---- presence ----

  datatype DwellRequest = DwellRequest(business: int, rssi: int, dwellMinutes: int, hmac: string, day: nat)

  function DateOf(w: World, day: nat): Date { w.keys.civil(day * DAY).date }

  function Witness(w: World, secret: string, business: int, day: nat, uid: int): string {
    w.hmac(secret, WitnessInput(business, DateOf(w, day), uid))
  }

  /** Presence is open to anyone not banned and not yet attested or cleared. */
  function PresenceUser(s: State, uid: int): Option<Error> {
    var user := Admitted(s.users, uid);
    if user.Err? then Some(user.error)
    else if user.value.status == Attested || user.value.status == Cleared then Some(Conflict)
    else None
  }

  /** Store new presence tables; a threshold met for the first time promotes the user. */
  function WithPresence(s: State, uid: int, presence: P.Tables): State {
    s.(presence := presence,
       users := if P.NewlyMet(s.presence, presence) then WithStatus(s.users, uid, PresenceConfirmed) else s.users)
  }

  /** A dwell with a wrong witness, weak signal or short stay is logged as not qualifying, and is no error. */
  function BeaconDwell(w: World, s: State, uid: int, req: DwellRequest, gate: Option<Error>,
                       beacon: Option<Beacon>): Result<State> {
    var refused := PresenceUser(s, uid);
    if gate.Some? then Err(gate.value)
    else if refused.Some? then Err(refused.value)
    else if beacon.None? then Err(NotFound)
    else if beacon.value.business != Some(req.business) then Err(InvalidInput)
    else if Witness(w, beacon.value.secret, req.business, req.day, uid) != req.hmac
            || req.rssi < beacon.value.minimumRssi || req.dwellMinutes < 15
    then Ok(s.(presence := P.Refuse(s.presence, uid, req.business, req.day, false)))
    else Ok(WithPresence(s, uid, P.Qualify(s.presence, uid, req.business, req.day, false, s.clock)))
  }

  /** `secret` is that of the business's first active beacon, if it has one; without one no witness is checked. */
  function NfcTap(w: World, s: State, uid: int, boxId: nat, business: int, hmac: string,
                  gate: Option<Error>, secret: Option<string>): Result<State> {
    var refused, box, day := PresenceUser(s, uid), O.TapCheck(s.orders.boxes, boxId, s.clock), s.clock / DAY;
    if gate.Some? then Err(gate.value)
    else if refused.Some? then Err(refused.value)
    else if box.Err? then Err(box.error)
    else if secret.Some? && Witness(w, secret.value, business, day, uid) != hmac
    then Ok(s.(presence := P.Refuse(s.presence, uid, business, day, true)))
    else
      var s1 := s.(orders := s.orders.(boxes := s.orders.boxes[boxId := O.Tapped(box.value, uid, s.clock)]));
      Ok(WithPresence(s1, uid, P.Qualify(s.presence, uid, business, day, true, s.clock)))
  }

  // ---- attestation ----

  datatype InitiateRequest = InitiateRequest(visit: int, user: int, threshold: nat, photoHash: Option<string>,
                                             photoUri: bool)
  datatype SignRequest = SignRequest(keyHex: string, signature: string, photoHash: Option<string>, evidence: string)

  function ThresholdProblem(s: State, req: InitiateRequest): Option<Error> {
    var rows := s.presence.thresholds;
    if req.threshold >= |rows| || rows[req.threshold].user != req.user || rows[req.threshold].metAt.None?
    then Some(InvalidInput) else None
  }

  predicate HasActive(rows: seq<A.Row>, visit: int, user: int) {
    exists i :: 0 <= i < |rows| && rows[i].visit == visit && rows[i].user == user && rows[i].status != A.Rejected
  }

  function InitiateAttestation(s: State, uid: int, req: InitiateRequest, visit: Option<Visit>,
                               roles: seq<RoleRow>): Result<State> {
    if visit.None? then Err(NotFound)
    else if !visit.value.inProgress then Err(Conflict)
    else if visit.value.staff != uid then Err(Forbidden)
    else
      var target := FindUser(s.users, req.user);
      if target.None? then Err(NotFound)
      else if target.value.status != PresenceConfirmed then Err(InvalidInput)
      else if ThresholdProblem(s, req).Some? then Err(InvalidInput)
      else if HasActive(s.attestations, req.visit, req.user) then Err(Conflict)
      else if req.photoUri && req.photoHash.None? then Err(InvalidInput)
      else if req.photoHash.Some? && !A.IsSha256Hex(req.photoHash.value) then Err(InvalidInput)
      else
        var pair := Assign(s.sigs, roles, uid, visit.value.location, Micros(s.clock));
        if pair.Err? then Err(pair.error)
        else
          var row := A.Row(req.visit, req.user, uid, req.threshold, pair.value.0, pair.value.1, req.photoHash, None,
                           None, A.Pending);
          Ok(s.(attestations := s.attestations + [row]))
  }

  function StaffSign(w: World, s: State, id: nat, uid: int, req: SignRequest): Result<State> {
    if id >= |s.attestations| then Err(NotFound)
    else
      var row := s.attestations[id];
      if row.status != A.Pending then Err(Conflict)
      else if row.staff != uid then Err(Forbidden)
      else
        var signed := A.StaffSigned(row, E.EncodeRecord(req.keyHex, req.signature), req.photoHash,
                                    Micros(s.clock + 48 * HOUR));
        if E.Verify(w.primitives, req.keyHex, A.Payload(id, signed), req.signature) != E.Checked(true) then
          Err(InvalidInput)
        else Ok(s.(attestations := s.attestations[id := signed]))
  }

  /** Parse both stored records and verify them over one payload. */
  function RecordsVerify(w: World, both: (string, string), payload: string): bool {
    var one, two := E.ParseRecord(both.0), E.ParseRecord(both.1);
    one.Ok? && two.Ok?
    && E.Aggregated(w.primitives, [one.value.0, two.value.0], payload, [one.value.1, two.value.1]) == E.Checked(true)
  }

  /** Why a co-signature is refused before it reaches the database, given the row as read and the time. */
  function SignRefused(w: World, id: nat, row: A.Row, uid: int, req: SignRequest, now: nat): Option<Error> {
    if row.status != A.CoSignPending then Some(Conflict)
    else if !A.AssignedTo(row, uid) then Some(Forbidden)
    else if row.deadline.Some? && now > row.deadline.value then Some(Conflict)
    else if E.Verify(w.primitives, req.keyHex, A.Payload(id, row), req.signature) != E.Checked(true) then
      Some(InvalidInput)
    else None
  }

  function NewSignature(row: A.Row, req: SignRequest, now: nat): SignatureRow {
    var deadline := if row.deadline.Some? then row.deadline.value else Micros(now + 48 * HOUR);
    SignatureRow(E.EncodeRecord(req.keyHex, req.signature), req.evidence, deadline, Micros(now))
  }

  /** What a co-signature writes: the co-signer's row and, with the second one, the approval and the promotion. */
  function Signed(s: State, id: nat, uid: int, sig: SignatureRow, approve: bool): State
    requires id < |s.attestations|
  {
    var row := s.attestations[id];
    var s1 := s.(sigs := s.sigs[(row.visit, uid) := sig]);
    if approve then s1.(attestations := s.attestations[id := row.(status := A.Approved)],
                        users := WithStatus(s.users, row.user, Attested))
    else s1
  }

  function ReviewerSign(w: World, s: State, id: nat, uid: int, req: SignRequest): Result<State> {
    if id >= |s.attestations| then Err(NotFound)
    else
      var row := s.attestations[id];
      var refused := SignRefused(w, id, row, uid, req, s.clock);
      if refused.Some? then Err(refused.value)
      else if (row.visit, uid) in s.sigs then Err(Conflict)
      else
        var sig := NewSignature(row, req, s.clock);
        var both := A.BothRecords(s.sigs[(row.visit, uid) := sig], row.visit, row.reviewer1, row.reviewer2);
        if both.None? then Ok(Signed(s, id, uid, sig, false))
        else if !RecordsVerify(w, both.value, A.Payload(id, row)) then Err(InvalidInput)
        else Ok(Signed(s, id, uid, sig, true))
  }

  function RejectAttestation(s: State, id: nat, uid: int): Result<State> {
    if id >= |s.attestations| then Err(NotFound)
    else
      var row := s.attestations[id];
      if !A.Open(row) then Err(Conflict)
      else if !A.AssignedTo(row, uid) then Err(Forbidden)
      else Ok(s.(attestations := s.attestations[id := row.(status := A.Rejected)],
                 users := WithStatus(s.users, row.user, PresenceConfirmed)))
  }

  // ---- soultokens ----

  function IssueSoultoken(w: World, s: State, uid: int, attestation: nat, kind: string, uuid: S.Uuid): Result<State> {
    var user := FindUser(s.users, uid);
    if user.None? then Err(Unauthorized)
    else if user.value.status != Attested then Err(InvalidInput)
    else if S.FindLive(s.tokens, uid, s.clock).Some? then Err(Conflict)
    else if attestation >= |s.attestations| || s.attestations[attestation].status != A.Approved then Err(InvalidInput)
    else
      var token := S.Issued(w.keys, uuid, uid, kind, s.attestations[attestation].threshold, attestation, s.clock);
      Ok(s.(tokens := s.tokens + [token], users := WithToken(s.users, uid, Some(|s.tokens|))))
  }

  function RevokeToken(s: State, id: nat, reason: string): State
    requires id < |s.tokens|
  {
    s.(tokens := s.tokens[id := S.Revoked(s.tokens[id], reason, s.clock)], users := Reset(s.users, s.tokens[id].holder))
  }

  function RevokeSoultoken(s: State, id: nat, uid: int, reason: string, roles: seq<RoleRow>): Result<State> {
    var requester := FindUser(s.users, uid);
    if requester.None? then Err(Unauthorized)
    else if !requester.value.admin && !HasRole(roles, uid, AttestationReviewer, Micros(s.clock)) then Err(Forbidden)
    else if id >= |s.tokens| then Err(NotFound)
    else if s.tokens[id].revokedAt.Some? then Err(Conflict)
    else if reason != "stripe_flag" && reason != "staff_rescission" && reason != "platform_ban" then Err(InvalidInput)
    else Ok(RevokeToken(s, id, reason))
  }

  function SurrenderSoultoken(s: State, id: nat, uid: int, visitExists: bool, witnessedBy: int,
                              roles: seq<RoleRow>): Result<State> {
    if id >= |s.tokens| then Err(NotFound)
    else if s.tokens[id].holder != uid then Err(Forbidden)
    else if s.tokens[id].revokedAt.Some? then Err(Conflict)
    else if !visitExists then Err(InvalidInput)
    else if !HasRole(roles, witnessedBy, DeliveryStaff, Micros(s.clock)) then Err(InvalidInput)
    else Ok(RevokeToken(s, id, "voluntary_surrender"))
  }

  function RenewSoultoken(w: World, s: State, uid: int): Result<State> {
    var live := S.FindLive(s.tokens, uid, s.clock);
    if live.None? then Err(NotFound)
    else
      var id := live.value;
      var renewed := S.Renewed(w.keys, s.tokens[id], s.clock);
      Ok(s.(tokens := s.tokens[id := renewed],
            renewals := s.renewals + [S.Renewal(id, uid, s.tokens[id].expiresAt, renewed.expiresAt)]))
  }

  // ---- orders ----

  function CreateOrder(s: State, uid: int, business: int, active: Option<bool>, boxCount: int,
                       amount: int): Result<State> {
    var user := Admitted(s.users, uid);
    if user.Err? then Err(user.error)
    else if active.None? then Err(NotFound)
    else if !active.value || boxCount < 1 || amount <= 0 then Err(InvalidInput)
    else
      var order := O.Order(uid, business, boxCount, amount, O.Pending, None, Micros(s.clock) + DAY);
      Ok(s.(orders := s.orders.(orders := s.orders.orders + [order])))
  }

  function ActivateBox(s: State, uid: int, visit: int, visitExists: bool, chip: string, expiresAt: nat,
                       roles: seq<RoleRow>): Result<State> {
    if !HasRole(roles, uid, DeliveryStaff, Micros(s.clock)) then Err(Forbidden)
    else if !visitExists then Err(NotFound)
    else Ok(s.(orders := s.orders.(boxes := s.orders.boxes + [O.Activated(visit, chip, expiresAt, s.clock)])))
  }

  /** `businesses` are those at the location of a box's visit. */
  function CollectOrder(s: State, uid: int, chip: string, businesses: set<int>): Result<State> {
    var user := Admitted(s.users, uid);
    if user.Err? then Err(user.error)
    else
      var r := O.Collect(s.orders, uid, chip, businesses, s.clock);
      if r.Err? then Err(r.error) else Ok(s.(orders := r.value))
  }

  function CancelOrder(s: State, id: nat, uid: int): Result<State> {
    var r := O.Cancel(s.orders, id, uid);
    if r.Err? then Err(r.error) else Ok(s.(orders := r.value))
  }

  // ---- accounts ----

  function AddUser(s: State, uid: int): Result<State> {
    if uid in s.users then Err(Conflict)
    else Ok(s.(users := s.users[uid := User(Registered, false, false, false, None)]))
  }

  function SetFlags(s: State, uid: int, banned: bool, admin: bool, deleted: bool): Result<State> {
    if uid !in s.users then Err(NotFound)
    else Ok(s.(users := s.users[uid := s.users[uid].(banned := banned, admin := admin, deleted := deleted)]))
  }

  // ---- runs ----

  /** A command with everything it reads from outside the tables. */
  datatype Command =
    | CmdAddUser(uid: int)
    | CmdSetFlags(uid: int, banned: bool, admin: bool, deleted: bool)
    | CmdVerifyIdentity(uid: int, session: string)
    | CmdDwell(uid: int, dwell: DwellRequest, gate: Option<Error>, beacon: Option<Beacon>)
    | CmdNfcTap(uid: int, boxId: nat, business: int, hmac: string, gate: Option<Error>, secret: Option<string>)
    | CmdInitiate(uid: int, init: InitiateRequest, visit: Option<Visit>, roles: seq<RoleRow>)
    | CmdStaffSign(id: nat, uid: int, req: SignRequest)
    | CmdReviewerSign(id: nat, uid: int, req: SignRequest)
    | CmdReject(id: nat, uid: int)
    | CmdIssue(uid: int, attestation: nat, kind: string, uuid: S.Uuid)
    | CmdRevoke(id: nat, uid: int, reason: string, roles: seq<RoleRow>)
    | CmdSurrender(id: nat, uid: int, visitExists: bool, witnessedBy: int, roles: seq<RoleRow>)
    | CmdRenew(uid: int)
    | CmdCreateOrder(uid: int, business: int, active: Option<bool>, boxCount: int, amount: int)
    | CmdActivateBox(uid: int, visitId: int, visitExists: bool, chip: string, expiresAt: nat, roles: seq<RoleRow>)
    | CmdCollect(uid: int, chip: string, businesses: set<int>)
    | CmdCancel(id: nat, uid: int)

  function Exec(w: World, s: State, cmd: Command): Result<State> {
    match cmd
    case CmdAddUser(uid) => AddUser(s, uid)
    case CmdSetFlags(uid, banned, admin, deleted) => SetFlags(s, uid, banned, admin, deleted)
    case CmdVerifyIdentity(uid, session) => InitiateVerification(s, uid, session)
    case CmdDwell(uid, dwell, gate, beacon) => BeaconDwell(w, s, uid, dwell, gate, beacon)
    case CmdNfcTap(uid, boxId, business, hmac, gate, secret) => NfcTap(w, s, uid, boxId, business, hmac, gate, secret)
    case CmdInitiate(uid, init, visit, roles) => InitiateAttestation(s, uid, init, visit, roles)
    case CmdStaffSign(id, uid, req) => StaffSign(w, s, id, uid, req)
    case CmdReviewerSign(id, uid, req) => ReviewerSign(w, s, id, uid, req)
    case CmdReject(id, uid) => RejectAttestation(s, id, uid)
    case CmdIssue(uid, attestation, kind, uuid) => IssueSoultoken(w, s, uid, attestation, kind, uuid)
    case CmdRevoke(id, uid, reason, roles) => RevokeSoultoken(s, id, uid, reason, roles)
    case CmdSurrender(id, uid, visitExists, witnessedBy, roles) =>
      SurrenderSoultoken(s, id, uid, visitExists, witnessedBy, roles)
    case CmdRenew(uid) => RenewSoultoken(w, s, uid)
    case CmdCreateOrder(uid, business, active, boxCount, amount) =>
      CreateOrder(s, uid, business, active, boxCount, amount)
    case CmdActivateBox(uid, visit, visitExists, chip, expiresAt, roles) =>
      ActivateBox(s, uid, visit, visitExists, chip, expiresAt, roles)
    case CmdCollect(uid, chip, businesses) => CollectOrder(s, uid, chip, businesses)
    case CmdCancel(id, uid) => CancelOrder(s, id, uid)
  }

  /** One command after `delay` nanoseconds; the clock only moves forward. */
  datatype Timed = Timed(delay: nat, cmd: Command)

  function Step(w: World, s: State, t: Timed): State {
    var now := s.(clock := s.clock + t.delay);
    var r := Exec(w, now, t.cmd);
    if r.Ok? then r.value else now
  }

  function Run(w: World, s: State, cmds: seq<Timed>): State {
    if cmds == [] then s else Step(w, Run(w, s, cmds[..|cmds| - 1]), cmds[|cmds| - 1])
  }

  /** Empty tables, and users who have only registered. */
  predicate Initial(s: State) {
    && s == State(s.clock, s.users, [], P.EMPTY, [], map[], [], [], O.Tables([], []))
    && forall u :: u in s.users ==> s.users[u].status == Registered && s.users[u].soultoken.None?
  }
}
