/**
 * The service commands as they run: reading and writing tables row by row. Each method is proved to
 * have exactly the effect of its function in `Platform`, where the guarantees are proved.
 */
module Store {
  import opened Authority
  import opened Common
  import opened Platform
  import opened Reviewers
  import opened Safety
  import E = Ed25519
  import G = Guarantees
  import P = Presence
  import A = Attestations
  import S = Soultokens
  import O = Orders
  import Base36

  class Database {
    const world: World
    var clock: nat
    var users: map<int, User>
    var credentials: seq<Credential>
    var events: seq<P.Event>
    var thresholds: seq<P.Threshold>
    var links: set<(nat, nat)>
    var notices: seq<int>
    var attestations: seq<A.Row>
    var signatures: Signatures
    var tokens: seq<S.Token>
    var renewals: seq<S.Renewal>
    var boxes: seq<O.Box>
    var orders: seq<O.Order>

    function Snapshot(): State
      reads this
    {
      State(clock, users, credentials, P.Tables(events, thresholds, links, notices), attestations, signatures,
            tokens, renewals, O.Tables(boxes, orders))
    }

    constructor (w: World, registered: map<int, User>)
      requires forall u :: u in registered ==> registered[u].status == Registered && registered[u].soultoken.None?
      ensures world == w && Initial(Snapshot()) && users == registered
    {
      world := w;
      clock, users, credentials := 0, registered, [];
      events, thresholds, links, notices := [], [], {}, [];
      attestations, signatures, tokens, renewals, boxes, orders := [], map[], [], [], [], [];
    }

    method Tick(delay: nat)
      modifies this`clock
      ensures clock == old(clock) + delay
    {
      clock := clock + delay;
    }

    /** Success leaves the specified tables; an error leaves the tables as they were. */
    predicate Outcome(before: State, spec: Result<State>, r: Result<()>)
      reads this
    {
      match spec
      case Ok(after) => r == Ok(()) && Snapshot() == after
      case Err(e) => r == Err(e) && Snapshot() == before
    }

    // ---- identity ----

    method InitiateVerification(uid: int, session: string) returns (r: Result<()>)
      modifies this`users, this`credentials
      ensures Outcome(old(Snapshot()), Platform.InitiateVerification(old(Snapshot()), uid, session), r)
    {
      var user := Admitted(users, uid);
      if user.Err? {
        return Err(user.error);
      }
      if user.value.status != Registered {
        return Err(Conflict);
      }
      if exists i :: 0 <= i < |credentials| && credentials[i].session == session {
        return Err(Conflict);
      }
      credentials := credentials + [Credential(uid, session)];
      if uid in users && users[uid].status == Registered {
        users := users[uid := users[uid].(status := IdentityConfirmed)];
      }
      return Ok(());
    }

    // ---- presence ----

    method GetOrCreateThreshold(user: int, business: int) returns (id: nat)
      modifies this`thresholds
      ensures (thresholds, id) == P.GetOrCreate(old(thresholds), user, business)
    {
      var found := P.Find(thresholds, user);
      if found.Some? {
        return found.value;
      }
      id := |thresholds|;
      thresholds := thresholds + [P.Threshold(user, business, 0, 0, None, None)];
    }

    /** Counters, completion time and link of one qualifying event already in the log. */
    method UpdateThreshold(user: int, business: int, eventId: nat, day: nat) returns (newlyMet: bool)
      modifies this`thresholds, this`links
      ensures P.Tables(events, thresholds, links, if newlyMet then notices + [user] else notices)
           == P.Advance(old(Snapshot()).presence, user, business, eventId, day, clock)
    {
      hide P.OnDate, P.GetOrCreate;
      var qualifyingToday := |P.OnDate(events, user, business, day)|;
      var id := GetOrCreateThreshold(user, business);
      var row := thresholds[id];
      var wasMet := row.metAt.Some?;
      var newEvents := row.eventCount + 1;
      var newDays := row.daysCount;
      if qualifyingToday <= 1 {
        newDays := newDays + 1;
      }
      var metAt := row.metAt;
      if !wasMet && newEvents >= 3 && newDays >= 3 {
        metAt := Some(Micros(clock));
      }
      thresholds := thresholds[id := row.(eventCount := newEvents, daysCount := newDays, lastAt := Some(Micros(clock)),
                                          metAt := metAt)];
      links := links + {(id, eventId)};
      newlyMet := metAt.Some? && !wasMet;
    }

    /** `advance_threshold` */
    method AdvanceThreshold(user: int, business: int, eventId: nat, day: nat)
      modifies this`thresholds, this`links, this`notices, this`users
      ensures var before := old(Snapshot());
              Snapshot() == WithPresence(before, user,
                                         P.Advance(before.presence, user, business, eventId, day, before.clock))
    {
      hide P.Advance;
      var newlyMet := UpdateThreshold(user, business, eventId, day);
      if newlyMet {
        if user in users {
          users := users[user := users[user].(status := PresenceConfirmed)];
        }
        notices := notices + [user];
      }
    }

    method CheckPresenceUser(uid: int) returns (refused: Option<Error>)
      ensures refused == PresenceUser(Snapshot(), uid)
    {
      var user := Admitted(users, uid);
      if user.Err? {
        return Some(user.error);
      }
      if user.value.status == Attested || user.value.status == Cleared {
        return Some(Conflict);
      }
      return None;
    }

    method RecordBeaconDwell(uid: int, req: DwellRequest, gate: Option<Error>, beacon: Option<Beacon>)
      returns (r: Result<()>)
      modifies this`events, this`thresholds, this`links, this`notices, this`users
      ensures Outcome(old(Snapshot()), BeaconDwell(world, old(Snapshot()), uid, req, gate, beacon), r)
    {
      hide Witness, P.Advance;
      if gate.Some? {
        return Err(gate.value);
      }
      var refused := CheckPresenceUser(uid);
      if refused.Some? {
        return Err(refused.value);
      }
      if beacon.None? {
        return Err(NotFound);
      }
      if beacon.value.business != Some(req.business) {
        return Err(InvalidInput);
      }
      if Witness(world, beacon.value.secret, req.business, req.day, uid) != req.hmac {
        events := events + [P.Event(uid, req.business, req.day, false, false)];
        return Ok(());
      }
      if req.rssi < beacon.value.minimumRssi {
        events := events + [P.Event(uid, req.business, req.day, false, false)];
        return Ok(());
      }
      if req.dwellMinutes < 15 {
        events := events + [P.Event(uid, req.business, req.day, false, false)];
        return Ok(());
      }
      ghost var before := Snapshot();
      events := events + [P.Event(uid, req.business, req.day, false, true)];
      AdvanceThreshold(uid, req.business, |events| - 1, req.day);
      assert Snapshot() == WithPresence(before, uid,
                                        P.Qualify(before.presence, uid, req.business, req.day, false, clock));
      return Ok(());
    }

    method RecordNfcTap(uid: int, boxId: nat, business: int, hmac: string, gate: Option<Error>, secret: Option<string>)
      returns (r: Result<()>)
      modifies this`events, this`thresholds, this`links, this`notices, this`users, this`boxes
      ensures Outcome(old(Snapshot()), NfcTap(world, old(Snapshot()), uid, boxId, business, hmac, gate, secret), r)
    {
      hide Witness, P.Advance;
      if gate.Some? {
        return Err(gate.value);
      }
      var refused := CheckPresenceUser(uid);
      if refused.Some? {
        return Err(refused.value);
      }
      if boxId >= |boxes| {
        return Err(NotFound);
      }
      var box := boxes[boxId];
      if box.activatedAt.None? {
        return Err(InvalidInput);
      }
      if box.expiresAt.Some? && box.expiresAt.value < clock {
        return Err(InvalidInput);
      }
      if box.tappedBy.Some? {
        return Err(Conflict);
      }
      var day := clock / DAY;
      if secret.Some? && Witness(world, secret.value, business, day, uid) != hmac {
        events := events + [P.Event(uid, business, day, true, false)];
        return Ok(());
      }
      boxes := boxes[boxId := box.(tappedBy := Some(uid), tappedAt := Some(Micros(clock)))];
      ghost var before := Snapshot();
      events := events + [P.Event(uid, business, day, true, true)];
      AdvanceThreshold(uid, business, |events| - 1, day);
      assert Snapshot() == WithPresence(before, uid, P.Qualify(before.presence, uid, business, day, true, clock));
      return Ok(());
    }

    // ---- attestation ----

    method InitiateAttestation(uid: int, req: InitiateRequest, visit: Option<Visit>, roles: seq<RoleRow>)
      returns (r: Result<()>)
      modifies this`attestations
      ensures Outcome(old(Snapshot()), Platform.InitiateAttestation(old(Snapshot()), uid, req, visit, roles), r)
    {
      hide A.IsSha256Hex, Candidates, Chosen;
      if visit.None? {
        return Err(NotFound);
      }
      if !visit.value.inProgress {
        return Err(Conflict);
      }
      if visit.value.staff != uid {
        return Err(Forbidden);
      }
      var target := FindUser(users, req.user);
      if target.None? {
        return Err(NotFound);
      }
      if target.value.status != PresenceConfirmed {
        return Err(InvalidInput);
      }
      if req.threshold >= |thresholds| {
        return Err(InvalidInput);
      }
      var threshold := thresholds[req.threshold];
      if threshold.user != req.user {
        return Err(InvalidInput);
      }
      if threshold.metAt.None? {
        return Err(InvalidInput);
      }
      if HasActive(attestations, req.visit, req.user) {
        return Err(Conflict);
      }
      if req.photoUri && req.photoHash.None? {
        return Err(InvalidInput);
      }
      if req.photoHash.Some? && !A.IsSha256Hex(req.photoHash.value) {
        return Err(InvalidInput);
      }
      var ids := Candidates(roles, uid, visit.value.location, Micros(clock));
      var pair := SearchPair(signatures, ids, Micros(clock));
      if pair.Err? {
        return Err(pair.error);
      }
      attestations := attestations + [A.Row(req.visit, req.user, uid, req.threshold, pair.value.0, pair.value.1,
                                            req.photoHash, None, None, A.Pending)];
      return Ok(());
    }

    method StaffSign(id: nat, uid: int, req: SignRequest) returns (r: Result<()>)
      modifies this`attestations
      ensures Outcome(old(Snapshot()), Platform.StaffSign(world, old(Snapshot()), id, uid, req), r)
    {
      hide E.Verify, E.EncodeRecord;
      if id >= |attestations| {
        return Err(NotFound);
      }
      var row := attestations[id];
      if row.status != A.Pending {
        return Err(Conflict);
      }
      if row.staff != uid {
        return Err(Forbidden);
      }
      var payloadRow := row;
      if req.photoHash.Some? {
        payloadRow := row.(photoHash := req.photoHash);
      }
      var payload := A.Payload(id, payloadRow);
      if E.Verify(world.primitives, req.keyHex, payload, req.signature) != E.Checked(true) {
        return Err(InvalidInput);
      }
      var record := E.EncodeRecord(req.keyHex, req.signature);
      var deadline := Micros(clock + 48 * HOUR);
      attestations := attestations[id := row.(
        staffRecord := Some(record),
        photoHash := if req.photoHash.Some? then req.photoHash else row.photoHash,
        deadline := Some(deadline),
        status := A.CoSignPending)];
      return Ok(());
    }

    /** The matching signature rows, in whichever order the database returns them. */
    method SelectSignatures(visit: int, r1: int, r2: int) returns (rows: seq<(int, string)>)
      ensures A.IsResultSet(rows, signatures, visit, r1, r2)
    {
      rows := [];
      if (visit, r1) in signatures {
        rows := [(r1, signatures[(visit, r1)].record)];
      }
      if r2 != r1 && (visit, r2) in signatures {
        var second := (r2, signatures[(visit, r2)].record);
        if * {
          rows := rows + [second];
          assert rows[|rows| - 1].0 == r2;
        } else {
          rows := [second] + rows;
          assert rows[0].0 == r2;
          assert (visit, r1) in signatures ==> rows[1].0 == r1;
        }
      }
      assert (visit, r1) in signatures ==> exists i :: 0 <= i < |rows| && rows[i].0 == r1 by {
        assert (visit, r1) in signatures ==> rows[0].0 == r1 || rows[1].0 == r1;
      }
    }

    /** Re-verify both stored records over the payload. */
    method ReplayRecords(both: (string, string), payload: string) returns (ok: bool)
      ensures ok == RecordsVerify(world, both, payload)
    {
      hide E.Aggregated, E.ParseRecord;
      var one := E.ParseRecord(both.0);
      if one.Err? {
        return false;
      }
      var two := E.ParseRecord(both.1);
      if two.Err? {
        return false;
      }
      var verdict := E.VerifyAggregated(world.primitives, [one.value.0, two.value.0], payload,
                                        [one.value.1, two.value.1]);
      return verdict == E.Checked(true);
    }

    /** INSERT … ON CONFLICT (visit_id, reviewer_id) DO NOTHING; reports whether a row was inserted. */
    method InsertSignature(visit: int, reviewer: int, sig: SignatureRow) returns (inserted: bool)
      modifies this`signatures
      ensures inserted == ((visit, reviewer) !in old(signatures))
      ensures signatures == if inserted then old(signatures)[(visit, reviewer) := sig] else old(signatures)
    {
      inserted := (visit, reviewer) !in signatures;
      if inserted {
        signatures := signatures[(visit, reviewer) := sig];
      }
    }

    method Approve(id: nat)
      requires id < |attestations|
      modifies this`attestations, this`users
      ensures attestations == old(attestations)[id := old(attestations)[id].(status := A.Approved)]
      ensures users == WithStatus(old(users), old(attestations)[id].user, Attested)
    {
      var user := attestations[id].user;
      attestations := attestations[id := attestations[id].(status := A.Approved)];
      if user in users {
        users := users[user := users[user].(status := Attested)];
      }
    }

    method ReviewerSign(id: nat, uid: int, req: SignRequest) returns (r: Result<()>)
      modifies this`attestations, this`signatures, this`users
      ensures Outcome(old(Snapshot()), Platform.ReviewerSign(world, old(Snapshot()), id, uid, req), r)
    {
      hide E.Verify, E.EncodeRecord, A.Payload, RecordsVerify, A.IsResultSet, A.BothRecords, WithStatus;
      if id >= |attestations| {
        return Err(NotFound);
      }
      var row := attestations[id];
      if row.status != A.CoSignPending {
        return Err(Conflict);
      }
      if row.reviewer1 != uid && row.reviewer2 != uid {
        return Err(Forbidden);
      }
      if row.deadline.Some? && clock > row.deadline.value {
        return Err(Conflict);
      }
      var payload := A.Payload(id, row);
      if E.Verify(world.primitives, req.keyHex, payload, req.signature) != E.Checked(true) {
        return Err(InvalidInput);
      }
      var record := E.EncodeRecord(req.keyHex, req.signature);
      var deadline := Micros(clock + 48 * HOUR);
      if row.deadline.Some? {
        deadline := row.deadline.value;
      }
      var uncommitted := signatures;
      var inserted := InsertSignature(row.visit, uid, SignatureRow(record, req.evidence, deadline, Micros(clock)));
      if !inserted {
        return Err(Conflict);
      }
      var rows := SelectSignatures(row.visit, row.reviewer1, row.reviewer2);
      var both := A.CheckBothSigned(rows, row.reviewer1, row.reviewer2, signatures, row.visit);
      if both.None? {
        return Ok(());
      }
      var replayed := ReplayRecords(both.value, payload);
      if !replayed {
        signatures := uncommitted; // the dropped transaction takes the inserted row with it
        return Err(InvalidInput);
      }
      Approve(id);
      return Ok(());
    }

    method RejectAttestation(id: nat, uid: int) returns (r: Result<()>)
      modifies this`attestations, this`users
      ensures Outcome(old(Snapshot()), Platform.RejectAttestation(old(Snapshot()), id, uid), r)
    {
      if id >= |attestations| {
        return Err(NotFound);
      }
      var row := attestations[id];
      if row.status != A.Pending && row.status != A.CoSignPending {
        return Err(Conflict);
      }
      if row.reviewer1 != uid && row.reviewer2 != uid {
        return Err(Forbidden);
      }
      attestations := attestations[id := row.(status := A.Rejected)];
      if row.user in users {
        users := users[row.user := users[row.user].(status := PresenceConfirmed)];
      }
      return Ok(());
    }

    // ---- soultokens ----

    method IssueSoultoken(uid: int, attestation: nat, kind: string, uuid: S.Uuid) returns (r: Result<()>)
      modifies this`tokens, this`users
      ensures Outcome(old(Snapshot()), Platform.IssueSoultoken(world, old(Snapshot()), uid, attestation, kind, uuid), r)
    {
      hide S.RowPayload;
      var user := FindUser(users, uid);
      if user.None? {
        return Err(Unauthorized);
      }
      if user.value.status != Attested {
        return Err(InvalidInput);
      }
      var live := S.FindLive(tokens, uid, clock);
      if live.Some? {
        return Err(Conflict);
      }
      if attestation >= |attestations| || attestations[attestation].status != A.Approved {
        return Err(InvalidInput);
      }
      var tag := world.keys.mac(uuid);
      var code := SpellCode(tag);
      var id := |tokens|;
      tokens := tokens + [S.Token(uuid, code, uid, kind, attestations[attestation].threshold, attestation, None,
                                  Micros(clock), Micros(clock + YEAR), None, None, "")];
      var signature := world.keys.sign(S.RowPayload(world.keys, tokens[id]));
      tokens := tokens[id := tokens[id].(signature := Some(signature))];
      if uid in users {
        users := users[uid := users[uid].(soultoken := Some(id))];
      }
      return Ok(());
    }

    method SpellCode(tag: S.Tag) returns (code: string)
      ensures code == Base36.DisplayCode(tag)
    {
      var base36 := Base36.Base36Encode(tag[..9]);
      code := base36[0..4] + "-" + base36[4..8] + "-" + base36[8..12];
    }

    method RevokeRow(id: nat, reason: string)
      requires id < |tokens|
      modifies this`tokens, this`users
      ensures Snapshot() == RevokeToken(old(Snapshot()), id, reason)
    {
      var holder := tokens[id].holder;
      tokens := tokens[id := tokens[id].(revokedAt := Some(Micros(clock)), reason := reason)];
      if holder in users {
        users := users[holder := users[holder].(status := Registered, soultoken := None)];
      }
    }

    method RevokeSoultoken(id: nat, uid: int, reason: string, roles: seq<RoleRow>) returns (r: Result<()>)
      modifies this`tokens, this`users
      ensures Outcome(old(Snapshot()), Platform.RevokeSoultoken(old(Snapshot()), id, uid, reason, roles), r)
    {
      hide RevokeToken;
      var requester := FindUser(users, uid);
      if requester.None? {
        return Err(Unauthorized);
      }
      var reviewer := requester.value.admin;
      if !reviewer {
        reviewer := HasRole(roles, uid, AttestationReviewer, Micros(clock));
      }
      if !reviewer {
        return Err(Forbidden);
      }
      if id >= |tokens| {
        return Err(NotFound);
      }
      if tokens[id].revokedAt.Some? {
        return Err(Conflict);
      }
      if reason != "stripe_flag" && reason != "staff_rescission" && reason != "platform_ban" {
        return Err(InvalidInput);
      }
      RevokeRow(id, reason);
      return Ok(());
    }

    method SurrenderSoultoken(id: nat, uid: int, visitExists: bool, witnessedBy: int, roles: seq<RoleRow>)
      returns (r: Result<()>)
      modifies this`tokens, this`users
      ensures Outcome(old(Snapshot()), Platform.SurrenderSoultoken(old(Snapshot()), id, uid, visitExists, witnessedBy,
                                                                   roles), r)
    {
      hide RevokeToken;
      if id >= |tokens| {
        return Err(NotFound);
      }
      if tokens[id].holder != uid {
        return Err(Forbidden);
      }
      if tokens[id].revokedAt.Some? {
        return Err(Conflict);
      }
      if !visitExists {
        return Err(InvalidInput);
      }
      var isStaff := HasRole(roles, witnessedBy, DeliveryStaff, Micros(clock));
      if !isStaff {
        return Err(InvalidInput);
      }
      RevokeRow(id, "voluntary_surrender");
      return Ok(());
    }

    method RenewSoultoken(uid: int) returns (r: Result<()>)
      modifies this`tokens, this`renewals
      ensures Outcome(old(Snapshot()), Platform.RenewSoultoken(world, old(Snapshot()), uid), r)
    {
      hide S.RowPayload;
      var live := S.FindLive(tokens, uid, clock);
      if live.None? {
        return Err(NotFound);
      }
      var id := live.value;
      if tokens[id].revokedAt.Some? {
        return Err(Conflict);
      }
      var previous := tokens[id].expiresAt;
      var next := clock + YEAR;
      tokens := tokens[id := tokens[id].(expiresAt := Micros(next), renewedAt := Some(Micros(clock)))];
      var signature := world.keys.sign(S.RowPayload(world.keys, tokens[id]));
      tokens := tokens[id := tokens[id].(signature := Some(signature))];
      renewals := renewals + [S.Renewal(id, uid, previous, Micros(next))];
      return Ok(());
    }

    // ---- orders ----

    method CreateOrder(uid: int, business: int, active: Option<bool>, boxCount: int, amount: int)
      returns (r: Result<()>)
      modifies this`orders
      ensures Outcome(old(Snapshot()), Platform.CreateOrder(old(Snapshot()), uid, business, active, boxCount, amount),
                      r)
    {
      var user := Admitted(users, uid);
      if user.Err? {
        return Err(user.error);
      }
      if active.None? {
        return Err(NotFound);
      }
      if !active.value {
        return Err(InvalidInput);
      }
      if boxCount < 1 {
        return Err(InvalidInput);
      }
      if amount <= 0 {
        return Err(InvalidInput);
      }
      orders := orders + [O.Order(uid, business, boxCount, amount, O.Pending, None, Micros(clock) + DAY)];
      return Ok(());
    }

    method ActivateBox(uid: int, visit: int, visitExists: bool, chip: string, expiresAt: nat, roles: seq<RoleRow>)
      returns (r: Result<()>)
      modifies this`boxes
      ensures Outcome(old(Snapshot()), Platform.ActivateBox(old(Snapshot()), uid, visit, visitExists, chip, expiresAt,
                                                            roles), r)
    {
      var isStaff := HasRole(roles, uid, DeliveryStaff, Micros(clock));
      if !isStaff {
        return Err(Forbidden);
      }
      if !visitExists {
        return Err(NotFound);
      }
      var id := |boxes|;
      boxes := boxes + [O.Box(visit, chip, None, None, None, None, None, false)];
      boxes := boxes[id := boxes[id].(activatedAt := Some(Micros(clock)), expiresAt := Some(Micros(expiresAt)))];
      return Ok(());
    }

    /** The guarded UPDATE: taps the box only if it has not been tapped. */
    method TapBox(id: nat, uid: int) returns (tapped: bool)
      requires id < |boxes|
      modifies this`boxes
      ensures tapped == old(boxes)[id].tappedAt.None?
      ensures boxes == if tapped then old(boxes)[id := O.Tapped(old(boxes)[id], uid, clock)] else old(boxes)
    {
      tapped := boxes[id].tappedAt.None?;
      if tapped {
        boxes := boxes[id := boxes[id].(tappedBy := Some(uid), tappedAt := Some(Micros(clock)))];
      }
    }

    /**
     * The box row is read before the guarded tap; `stale` says that the read happened before someone
     * else's tap committed. The outcome is the same, and the clone flag set on losing the race is
     * rolled back with the rest of the failed transaction.
     */
    method CollectOrder(uid: int, chip: string, businesses: set<int>, stale: bool) returns (r: Result<()>)
      modifies this`boxes, this`orders
      ensures Outcome(old(Snapshot()), Platform.CollectOrder(old(Snapshot()), uid, chip, businesses), r)
    {
      var user := Admitted(users, uid);
      if user.Err? {
        return Err(user.error);
      }
      var found := O.FindBox(boxes, chip);
      if found.None? {
        return Err(NotFound);
      }
      var id := found.value;
      var seen := boxes[id];
      if stale {
        seen := seen.(tappedBy := None, tappedAt := None);
      }
      if seen.activatedAt.None? {
        return Err(InvalidInput);
      }
      if seen.expiresAt.Some? && clock > seen.expiresAt.value {
        return Err(InvalidInput);
      }
      if seen.tappedAt.Some? {
        return Err(Conflict);
      }
      var uncommitted := boxes;
      var tapped := TapBox(id, uid);
      if !tapped {
        boxes := boxes[id := boxes[id].(cloneDetected := true)];
        boxes := uncommitted; // dropped transaction
        return Err(Conflict);
      }
      var order := O.OrderFor(orders, seen, uid, businesses);
      if order.None? {
        boxes := uncommitted; // dropped transaction
        return Err(NotFound);
      }
      orders := orders[order.value := orders[order.value].(status := O.Collected, box := Some(id))];
      return Ok(());
    }

    method CancelOrder(id: nat, uid: int) returns (r: Result<()>)
      modifies this`orders
      ensures Outcome(old(Snapshot()), Platform.CancelOrder(old(Snapshot()), id, uid), r)
    {
      if id >= |orders| {
        return Err(NotFound);
      }
      var order := orders[id];
      if order.user != uid {
        return Err(Forbidden);
      }
      if order.status == O.Collected {
        return Err(Conflict);
      }
      if order.status == O.Cancelled {
        return Err(Conflict);
      }
      orders := orders[id := order.(status := O.Cancelled)];
      return Ok(());
    }

    // ---- accounts ----

    method AddUser(uid: int) returns (r: Result<()>)
      modifies this`users
      ensures Outcome(old(Snapshot()), Platform.AddUser(old(Snapshot()), uid), r)
    {
      if uid in users {
        return Err(Conflict);
      }
      users := users[uid := User(Registered, false, false, false, None)];
      return Ok(());
    }

    method SetFlags(uid: int, banned: bool, admin: bool, deleted: bool) returns (r: Result<()>)
      modifies this`users
      ensures Outcome(old(Snapshot()), Platform.SetFlags(old(Snapshot()), uid, banned, admin, deleted), r)
    {
      if uid !in users {
        return Err(NotFound);
      }
      users := users[uid := users[uid].(banned := banned, admin := admin, deleted := deleted)];
      return Ok(());
    }

    // ---- serving requests ----

    method Dispatch(cmd: Command) returns (r: Result<()>)
      modifies this
      ensures Outcome(old(Snapshot()), Exec(world, old(Snapshot()), cmd), r)
    {
      hide Outcome, Platform.AddUser, Platform.SetFlags, Platform.InitiateVerification, BeaconDwell, NfcTap,
           Platform.InitiateAttestation,
           Platform.StaffSign, Platform.ReviewerSign, Platform.RejectAttestation, Platform.IssueSoultoken,
           Platform.RevokeSoultoken, Platform.SurrenderSoultoken, Platform.RenewSoultoken,
           Platform.CreateOrder, Platform.ActivateBox, Platform.CollectOrder, Platform.CancelOrder;
      match cmd {
        case CmdAddUser(uid) => r := AddUser(uid);
        case CmdSetFlags(uid, banned, admin, deleted) => r := SetFlags(uid, banned, admin, deleted);
        case CmdVerifyIdentity(uid, session) => r := InitiateVerification(uid, session);
        case CmdDwell(uid, dwell, gate, beacon) => r := RecordBeaconDwell(uid, dwell, gate, beacon);
        case CmdNfcTap(uid, boxId, business, hmac, gate, secret) =>
          r := RecordNfcTap(uid, boxId, business, hmac, gate, secret);
        case CmdInitiate(uid, init, visit, roles) => r := InitiateAttestation(uid, init, visit, roles);
        case CmdStaffSign(id, uid, req) => r := StaffSign(id, uid, req);
        case CmdReviewerSign(id, uid, req) => r := ReviewerSign(id, uid, req);
        case CmdReject(id, uid) => r := RejectAttestation(id, uid);
        case CmdIssue(uid, attestation, kind, uuid) => r := IssueSoultoken(uid, attestation, kind, uuid);
        case CmdRevoke(id, uid, reason, roles) => r := RevokeSoultoken(id, uid, reason, roles);
        case CmdSurrender(id, uid, visitExists, witnessedBy, roles) =>
          r := SurrenderSoultoken(id, uid, visitExists, witnessedBy, roles);
        case CmdRenew(uid) => r := RenewSoultoken(uid);
        case CmdCreateOrder(uid, business, active, boxCount, amount) =>
          r := CreateOrder(uid, business, active, boxCount, amount);
        case CmdActivateBox(uid, visit, visitExists, chip, expiresAt, roles) =>
          r := ActivateBox(uid, visit, visitExists, chip, expiresAt, roles);
        case CmdCollect(uid, chip, businesses) =>
          var stale: bool := *;
          r := CollectOrder(uid, chip, businesses, stale);
        case CmdCancel(id, uid) => r := CancelOrder(id, uid);
      }
    }

    /** One request, `t.delay` after the last. */
    method Execute(t: Timed) returns (r: Result<()>)
      modifies this
      ensures Snapshot() == Step(world, old(Snapshot()), t)
      ensures r.Ok? <==> Exec(world, old(Snapshot()).(clock := old(clock) + t.delay), t.cmd).Ok?
      ensures Inv(world, old(Snapshot())) ==> Inv(world, Snapshot()) && Keeps(old(Snapshot()), Snapshot())
    {
      hide Exec, Inv, Keeps;
      ghost var before := Snapshot();
      Tick(t.delay);
      assert Snapshot() == before.(clock := before.clock + t.delay);
      r := Dispatch(t.cmd);
      if Inv(world, before) {
        StepSafe(world, before, t);
      }
    }

    /** Any sequence of requests: the class runs the state machine, and keeps what the state machine keeps. */
    method Serve(cmds: seq<Timed>)
      modifies this
      ensures Snapshot() == Run(world, old(Snapshot()), cmds)
      ensures Inv(world, old(Snapshot())) ==> Inv(world, Snapshot()) && Keeps(old(Snapshot()), Snapshot())
    {
      hide Step, Inv, Keeps;
      ghost var before := Snapshot();
      assert cmds[..0] == [];
      for i := 0 to |cmds|
        invariant Snapshot() == Run(world, before, cmds[..i])
      {
        var _ := Execute(cmds[i]);
        assert cmds[..i + 1][..i] == cmds[..i];
      }
      assert cmds[..|cmds|] == cmds;
      if Inv(world, before) {
        RunSafe(world, before, cmds);
      }
    }
  }

  /**
   * A new database that serves any requests: whoever it then shows as attested, or as holder of a soultoken,
   * has earned it.
   */
  method Operate(w: World, registered: map<int, User>, cmds: seq<Timed>) returns (db: Database)
    requires forall u :: u in registered ==> registered[u].status == Registered && registered[u].soultoken.None?
    ensures fresh(db) && db.world == w && Inv(w, db.Snapshot())
    ensures forall u :: IsAttested(db.Snapshot(), u) || G.HoldsToken(db.Snapshot(), u) ==> G.Earned(w, db.Snapshot(), u)
  {
    hide Inv, Keeps, Run, G.Earned, G.HoldsToken, IsAttested, Initial;
    db := new Database(w, registered);
    ghost var s0 := db.Snapshot();
    InitialSafe(w, s0);
    db.Serve(cmds);
    forall u | IsAttested(db.Snapshot(), u) || G.HoldsToken(db.Snapshot(), u) ensures G.Earned(w, db.Snapshot(), u) {
      G.PipelineIsEarned(w, s0, cmds, [], u);
    }
  }
}
