/**
 * What the guarantees are about does happen: users become attested, tokens are issued, renewed and revoked,
 * and each way in which the code falls short of its documentation is reached from registered users and empty
 * tables, under signature primitives for which every payload can be signed.
 */
module Reachability {
  import opened Approvals
  import opened Authority
  import opened Common
  import opened Platform
  import opened Reviewers
  import opened Safety
  import opened Text
  import A = Attestations
  import E = Ed25519
  import G = Guarantees
  import O = Orders
  import P = Presence
  import S = Soultokens

  // ---- primitives under which every payload has exactly one signature ----

  /** A digest that keeps the first 64 characters. */
  function Digest(payload: string): (d: seq<Byte>)
    ensures |d| == 64
  {
    seq(64, k requires 0 <= k < 64 => if k < |payload| then payload[k] as int % 256 else 0)
  }

  /** Every 32 bytes are a key, and a message's signature is its digest. */
  function Honest(): E.Primitives { E.Primitives(key => true, Digest, (key, digest, sig) => sig == digest) }

  /** A key that is any 32 bytes. */
  function KeyOf(payload: string): string { HexEncode(Digest(payload)[..32]) }

  function SignatureOf(payload: string): string { HexEncode(Digest(payload)) }

  function RecordOf(payload: string): string { E.EncodeRecord(KeyOf(payload), SignatureOf(payload)) }

  lemma {:induction false} HonestVerifies(w: World, payload: string)
    requires w.primitives == Honest()
    ensures E.Verify(w.primitives, KeyOf(payload), payload, SignatureOf(payload)) == E.Checked(true)
  {
    HexRoundTrip(Digest(payload)[..32]);
    HexRoundTrip(Digest(payload));
    E.AcceptedIff(w.primitives, KeyOf(payload), payload, SignatureOf(payload));
  }

  /** A record made for one payload does not verify over a payload with another first character. */
  lemma {:induction false} HonestDistinguishes(w: World, made: string, other: string)
    requires w.primitives == Honest() && made != "" && other != ""
    requires made[0] as int % 256 != other[0] as int % 256
    ensures !E.RecordVerifies(w.primitives, RecordOf(made), other)
  {
    HonestVerifies(w, made);
    E.VerifiedRoundTrips(w.primitives, KeyOf(made), made, SignatureOf(made));
    HexRoundTrip(Digest(made));
    assert Digest(made)[0] != Digest(other)[0];
    E.AcceptedIff(w.primitives, KeyOf(made), other, SignatureOf(made));
  }

  // ---- presence ----

  const NEWCOMER := User(Registered, false, false, false, None)

  /** From any state: a registered user without presence events becomes presence-confirmed in three dwells. */
  lemma {:induction false} GatherPresence(w: World, s: State, u: int, day: nat) returns (cmds: seq<Timed>, p: P.Tables)
    requires P.Valid(s.presence) && u in s.users && s.users[u] == NEWCOMER && P.Qualifying(s.presence.events, u) == {}
    ensures Run(w, s, cmds) == s.(presence := p, users := s.users[u := NEWCOMER.(status := PresenceConfirmed)])
    ensures P.Met(p, u) && P.Grows(s.presence, p)
    ensures forall v :: v != u ==> P.Qualifying(p.events, v) == P.Qualifying(s.presence.events, v)
    ensures NoCoSign(cmds)
  {
    hide P.Qualify, P.Met, P.NewlyMet, Step, P.Valid, P.Qualifying, P.Grows, Run;
    var p1, p2, p3 := P.ThreeEvents(s.presence, u, day, false, s.clock);
    var t1 := G.DwellOnce(w, s, u, 1, day);
    var s1 := s.(presence := p1);
    assert Step(w, s, t1) == s1;
    var t2 := G.DwellOnce(w, s1, u, 2, day);
    var s2 := s.(presence := p2);
    assert Step(w, s1, t2) == s2;
    var t3 := G.DwellOnce(w, s2, u, 3, day);
    assert Step(w, s2, t3) == WithPresence(s2, u, p3);
    cmds, p := [t1, t2, t3], p3;
    RunThree(w, s, t1, t2, t3);
    NoneOfThree(t1, t2, t3);
  }

  /** None of the commands is a co-signature. */
  predicate NoCoSign(cmds: seq<Timed>) {
    forall t :: t in cmds ==> !t.cmd.CmdReviewerSign?
  }

  lemma {:induction false} NoneOfThree(t1: Timed, t2: Timed, t3: Timed)
    requires !t1.cmd.CmdReviewerSign? && !t2.cmd.CmdReviewerSign? && !t3.cmd.CmdReviewerSign?
    ensures NoCoSign([t1, t2, t3])
  {
  }

  lemma {:induction false} NoneOfTwo(t1: Timed, t2: Timed)
    requires !t1.cmd.CmdReviewerSign? && !t2.cmd.CmdReviewerSign?
    ensures NoCoSign([t1, t2])
  {
  }

  lemma {:induction false} NoneSpliced(a: seq<Timed>, b: seq<Timed>)
    requires NoCoSign(a) && NoCoSign(b)
    ensures NoCoSign(a + b)
  {
  }

  // ---- attestation ----

  /** Two attestation reviewers with no ties to any location. */
  function Roster(r1: int, r2: int): seq<RoleRow> {
    [RoleRow(r1, AttestationReviewer, None, 0, None, false), RoleRow(r2, AttestationReviewer, None, 0, None, false)]
  }

  lemma {:induction false} RosterAssigns(sigs: Signatures, staff: int, r1: int, r2: int, now: nat)
    requires r1 < r2 && staff != r1 && staff != r2 && Cosigns(sigs, r1, r2, now) <= 3
    ensures var r := Assign(sigs, Roster(r1, r2), staff, 0, now); r.Ok? && r.value.0 == r1 && r.value.1 == r2
  {
    var roles := Roster(r1, r2);
    assert Holds(roles[0], r1, AttestationReviewer, now) && Holds(roles[1], r2, AttestationReviewer, now);
    assert Eligible(roles, staff, 0, now, r1) && Eligible(roles, staff, 0, now, r2);
    hide Assign, Cosigns;
    AssignComplete(sigs, roles, staff, 0, now, r1, r2);
    AssignSound(sigs, roles, staff, 0, now);
  }

  /** The row that staff open for `u`, without a photo. */
  function OpenedRow(u: int, visit: int, staff: int, r1: int, r2: int, threshold: nat): A.Row {
    A.Row(visit, u, staff, threshold, r1, r2, None, None, None, A.Pending)
  }

  /** The same row once they have signed it. */
  function WaitingRow(s: State, u: int, visit: int, staff: int, r1: int, r2: int, threshold: nat): A.Row {
    var row := OpenedRow(u, visit, staff, r1, r2, threshold);
    A.StaffSigned(row, RecordOf(A.Payload(|s.attestations|, row)), None, Micros(s.clock + 48 * HOUR))
  }

  /** What opening an attestation for `u` asks of the tables. */
  predicate MayOpen(s: State, u: int, visit: int, staff: int, r1: int, r2: int, threshold: nat) {
    && u in s.users && s.users[u] == NEWCOMER.(status := PresenceConfirmed)
    && threshold < |s.presence.thresholds| && s.presence.thresholds[threshold].user == u &&
         s.presence.thresholds[threshold].metAt.Some?
    && !HasActive(s.attestations, visit, u)
    && r1 < r2 && staff != r1 && staff != r2 && Cosigns(s.sigs, r1, r2, Micros(s.clock)) <= 3
  }

  function Opening(u: int, visit: int, staff: int, r1: int, r2: int, threshold: nat): Timed {
    Timed(0, CmdInitiate(staff, InitiateRequest(visit, u, threshold, None, false), Some(Visit(staff, 0, true)),
                         Roster(r1, r2)))
  }

  lemma {:induction false} OpenStep(w: World, s: State, u: int, visit: int, staff: int, r1: int, r2: int,
                                    threshold: nat)
    requires MayOpen(s, u, visit, staff, r1, r2, threshold)
    ensures Step(w, s, Opening(u, visit, staff, r1, r2, threshold))
         == s.(attestations := s.attestations + [OpenedRow(u, visit, staff, r1, r2, threshold)])
  {
    RosterAssigns(s.sigs, staff, r1, r2, Micros(s.clock));
    hide Assign, HasActive, Cosigns, Roster;
    var init := InitiateRequest(visit, u, threshold, None, false);
    var after := s.(attestations := s.attestations + [OpenedRow(u, visit, staff, r1, r2, threshold)]);
    assert InitiateAttestation(s, staff, init, Some(Visit(staff, 0, true)), Roster(r1, r2)) == Ok(after);
    hide InitiateAttestation;
    AtOnce(w, s, CmdInitiate(staff, init, Some(Visit(staff, 0, true)), Roster(r1, r2)));
  }

  lemma {:induction false} ReplaceLast<T>(rows: seq<T>, a: T, b: T)
    ensures (rows + [a])[|rows|] == a && (rows + [a])[|rows| := b] == rows + [b]
  {
  }

  function StaffSigning(s: State, u: int, visit: int, staff: int, r1: int, r2: int, threshold: nat): Timed {
    var payload := A.Payload(|s.attestations|, OpenedRow(u, visit, staff, r1, r2, threshold));
    SignAsStaff(|s.attestations|, staff, KeyOf(payload), SignatureOf(payload), None)
  }

  lemma {:induction false} StaffStep(w: World, s: State, u: int, visit: int, staff: int, r1: int, r2: int,
                                     threshold: nat)
    requires w.primitives == Honest()
    ensures Step(w, s.(attestations := s.attestations + [OpenedRow(u, visit, staff, r1, r2, threshold)]),
                 StaffSigning(s, u, visit, staff, r1, r2, threshold))
         == s.(attestations := s.attestations + [WaitingRow(s, u, visit, staff, r1, r2, threshold)])
    ensures StaffSigning(s, u, visit, staff, r1, r2, threshold).cmd.CmdStaffSign?
  {
    var i, row := |s.attestations|, OpenedRow(u, visit, staff, r1, r2, threshold);
    var payload := A.Payload(i, row);
    HonestVerifies(w, payload);
    hide E.Verify, E.EncodeRecord, Step, SignatureOf, A.Payload, KeyOf, A.StaffSigned;
    ReplaceLast(s.attestations, row, WaitingRow(s, u, visit, staff, r1, r2, threshold));
    StaffSignWaits(w, s.(attestations := s.attestations + [row]), i, KeyOf(payload), SignatureOf(payload), None);
  }

  lemma {:induction false} OpenAndStaffSign(w: World, s: State, u: int, visit: int, staff: int, r1: int, r2: int,
                                            threshold: nat)
    returns (cmds: seq<Timed>)
    requires w.primitives == Honest() && MayOpen(s, u, visit, staff, r1, r2, threshold)
    ensures Run(w, s, cmds) == s.(attestations := s.attestations + [WaitingRow(s, u, visit, staff, r1, r2, threshold)])
    ensures NoCoSign(cmds)
  {
    hide MayOpen, Step, Run, WaitingRow, OpenedRow, StaffSigning, NoCoSign, Roster;
    var one, two := Opening(u, visit, staff, r1, r2, threshold), StaffSigning(s, u, visit, staff, r1, r2, threshold);
    OpenStep(w, s, u, visit, staff, r1, r2, threshold);
    StaffStep(w, s, u, visit, staff, r1, r2, threshold);
    cmds := [one, two];
    RunTwo(w, s, one, two);
    NoneOfTwo(one, two);
  }

  /** The signature row either reviewer leaves for row `i`. */
  function CoSignature(s: State, i: nat, row: A.Row): SignatureRow {
    var payload := A.Payload(i, row);
    NewSignature(row, SignRequest(KeyOf(payload), SignatureOf(payload), None, ""), s.clock)
  }

  function CoSigned(s: State, i: nat): State
    requires i < |s.attestations|
  {
    var row := s.attestations[i];
    var sig := CoSignature(s, i, row);
    s.(sigs := s.sigs[(row.visit, row.reviewer1) := sig][(row.visit, row.reviewer2) := sig],
       attestations := s.attestations[i := row.(status := A.Approved)],
       users := WithStatus(s.users, row.user, Attested))
  }

  /** Row `i` is waiting in time and neither of its two reviewers has signed the visit. */
  predicate Waiting(s: State, i: nat) {
    && i < |s.attestations|
    && var row := s.attestations[i];
       && row.status == A.CoSignPending && (row.deadline.Some? ==> s.clock <= row.deadline.value)
       && row.reviewer1 != row.reviewer2
       && (row.visit, row.reviewer1) !in s.sigs && (row.visit, row.reviewer2) !in s.sigs
  }

  lemma {:induction false} WaitingMaySign(w: World, s: State, i: nat, uid: int)
    requires w.primitives == Honest() && i < |s.attestations| && A.AssignedTo(s.attestations[i], uid)
    requires var row := s.attestations[i];
             && row.status == A.CoSignPending && (row.deadline.Some? ==> s.clock <= row.deadline.value)
             && row.reviewer1 != row.reviewer2 && (row.visit, uid) !in s.sigs
    ensures var payload := A.Payload(i, s.attestations[i]);
            MaySign(w, s, i, uid, KeyOf(payload), SignatureOf(payload))
  {
    HonestVerifies(w, A.Payload(i, s.attestations[i]));
    hide E.Verify, A.Payload, KeyOf, SignatureOf;
  }

  lemma {:induction false} CoSignRow(w: World, s: State, i: nat) returns (cmds: seq<Timed>)
    requires w.primitives == Honest() && Waiting(s, i)
    ensures Run(w, s, cmds) == CoSigned(s, i)
  {
    var row := s.attestations[i];
    var payload := A.Payload(i, row);
    var key, sig := KeyOf(payload), SignatureOf(payload);
    var one, two := CoSign(i, row.reviewer1, key, sig), CoSign(i, row.reviewer2, key, sig);
    cmds := [one, two];
    HonestVerifies(w, payload);
    A.RecordOfVerified(w.primitives, key, payload, sig);
    WaitingMaySign(w, s, i, row.reviewer1);
    hide KeyOf, SignatureOf, A.Payload, E.Verify, E.EncodeRecord, E.RecordVerifies, Step, CoSign, MaySign, Run,
         WithStatus;
    FirstSign(w, s, i, row.reviewer1, key, sig);
    var s1 := Step(w, s, one);
    WaitingMaySign(w, s1, i, row.reviewer2);
    LastSign(w, s1, i, row.reviewer2, key, sig);
    RunTwo(w, s, one, two);
  }

  // ---- from registered to attested ----

  /** `u` is new to the tables, and the two reviewers have not signed the visit. */
  predicate Untouched(s: State, u: int, visit: int, staff: int, r1: int, r2: int) {
    && u in s.users && s.users[u] == NEWCOMER && P.Qualifying(s.presence.events, u) == {}
    && (forall i :: 0 <= i < |s.attestations| ==> s.attestations[i].user != u)
    && r1 < r2 && staff != r1 && staff != r2 && Cosigns(s.sigs, r1, r2, Micros(s.clock)) <= 3
    && (visit, r1) !in s.sigs && (visit, r2) !in s.sigs
  }

  /** `s'` is `s` with `u` attested by one more, approved attestation. */
  ghost predicate NowAttested(s: State, s': State, u: int, visit: int, r1: int, r2: int) {
    && s' == s.(presence := s'.presence, users := s.users[u := NEWCOMER.(status := Attested)],
                attestations := s'.attestations, sigs := s'.sigs)
    && |s'.attestations| == |s.attestations| + 1 && s.attestations <= s'.attestations
    && var row := s'.attestations[|s.attestations|];
       && row.status == A.Approved && row.user == u && row.visit == visit && row.reviewer1 == r1 && row.reviewer2 == r2
       && s'.sigs.Keys == s.sigs.Keys + {(visit, r1), (visit, r2)}
       && s'.sigs[(visit, r1)].record == s'.sigs[(visit, r2)].record == RecordOf(A.Payload(|s.attestations|, row))
       && (forall k :: k in s.sigs ==> s'.sigs[k] == s.sigs[k])
       && forall v :: v != u ==> P.Qualifying(s'.presence.events, v) == P.Qualifying(s.presence.events, v)
  }

  lemma {:induction false} MetRow(p: P.Tables, u: int) returns (threshold: nat)
    requires P.Met(p, u)
    ensures threshold < |p.thresholds| && p.thresholds[threshold].user == u && p.thresholds[threshold].metAt.Some?
  {
    var i :| 0 <= i < |p.thresholds| && p.thresholds[i].user == u && p.thresholds[i].metAt.Some?;
    threshold := i;
  }

  /** From any state: presence, opening, staff sign and two co-signatures attest a newcomer. */
  lemma {:induction false} AttestUser(w: World, s: State, u: int, visit: int, staff: int, r1: int, r2: int, day: nat)
    returns (cmds: seq<Timed>)
    requires w.primitives == Honest() && P.Valid(s.presence) && Untouched(s, u, visit, staff, r1, r2)
    ensures NowAttested(s, Run(w, s, cmds), u, visit, r1, r2)
  {
    hide NoCoSign, P.Qualifying, P.Met, P.Grows, P.Valid, Cosigns, Run, KeyOf, SignatureOf, A.Payload, E.EncodeRecord,
         HasActive;
    var present, p := GatherPresence(w, s, u, day);
    var s1 := Run(w, s, present);
    var threshold := MetRow(p, u);
    assert !HasActive(s1.attestations, visit, u) by { NobodysRows(s1.attestations, visit, u); }
    var opening := OpenAndStaffSign(w, s1, u, visit, staff, r1, r2, threshold);
    var s2 := Run(w, s1, opening);
    var i := |s.attestations|;
    OpenedWaits(s1, u, visit, staff, r1, r2, threshold);
    var signing := CoSignRow(w, s2, i);
    var s3 := Run(w, s2, signing);
    cmds := present + opening + signing;
    RunSplice(w, s, present, opening);
    RunSplice(w, s, present + opening, signing);
    CoSignedAttests(s, s1, u, visit, staff, r1, r2, threshold);
  }

  lemma {:induction false} OpenedWaits(s: State, u: int, visit: int, staff: int, r1: int, r2: int, threshold: nat)
    requires r1 < r2 && (visit, r1) !in s.sigs && (visit, r2) !in s.sigs
    ensures Waiting(s.(attestations := s.attestations + [WaitingRow(s, u, visit, staff, r1, r2, threshold)]),
                    |s.attestations|)
  {
    hide RecordOf, A.Payload;
  }

  lemma {:induction false} CoSignedAttests(s: State, s1: State, u: int, visit: int, staff: int, r1: int, r2: int,
                                           threshold: nat)
    requires u in s.users && r1 < r2 && (visit, r1) !in s.sigs && (visit, r2) !in s.sigs
    requires s1 == s.(presence := s1.presence, users := s.users[u := NEWCOMER.(status := PresenceConfirmed)])
    requires forall v :: v != u ==> P.Qualifying(s1.presence.events, v) == P.Qualifying(s.presence.events, v)
    ensures var s2 := s1.(attestations := s1.attestations + [WaitingRow(s1, u, visit, staff, r1, r2, threshold)]);
            NowAttested(s, CoSigned(s2, |s.attestations|), u, visit, r1, r2)
  {
    var waiting := WaitingRow(s1, u, visit, staff, r1, r2, threshold);
    var i := |s.attestations|;
    PayloadIgnoresStatus(i, waiting);
    ReplaceLast(s.attestations, waiting, waiting.(status := A.Approved));
    hide RecordOf, A.Payload, P.Qualifying;
    assert RecordOf(A.Payload(i, waiting)) == CoSignature(s1, i, waiting).record by {
      CoSignatureRecord(s1, i, waiting);
    }
    hide CoSignature;
  }

  lemma {:induction false} CoSignatureRecord(s: State, i: nat, row: A.Row)
    ensures CoSignature(s, i, row).record == RecordOf(A.Payload(i, row))
  {
    hide KeyOf, SignatureOf, A.Payload, E.EncodeRecord;
  }

  lemma {:induction false} NobodysRows(rows: seq<A.Row>, visit: int, u: int)
    requires forall i :: 0 <= i < |rows| ==> rows[i].user != u
    ensures !HasActive(rows, visit, u)
  {
  }

  // ---- two attested users ----

  /** Three registered users and empty tables. */
  function Start(): State {
    State(0, map[1 := NEWCOMER, 2 := NEWCOMER, 3 := NEWCOMER], [], P.EMPTY, [], map[], [], [], O.Tables([], []))
  }

  /** Users 1 and 2 are attested at visits 1 and 2 by reviewers 11 and 12; user 3 is new; no tokens yet. */
  ghost predicate TwoAttested(w: World, s: State) {
    && Inv(w, s)
    && s == Start().(presence := s.presence, users := s.users, attestations := s.attestations, sigs := s.sigs)
    && s.users == map[1 := NEWCOMER.(status := Attested), 2 := NEWCOMER.(status := Attested), 3 := NEWCOMER]
    && P.Qualifying(s.presence.events, 3) == {}
    && |s.attestations| == 2
    && s.attestations[0].status == A.Approved && s.attestations[0].user == 1 && s.attestations[0].visit == 1
    && s.attestations[1].status == A.Approved && s.attestations[1].user == 2 && s.attestations[1].visit == 2
    && s.sigs.Keys == {(1, 11), (1, 12), (2, 11), (2, 12)}
    && s.sigs[(1, 12)].record == RecordOf(A.Payload(0, s.attestations[0]))
  }

  lemma {:induction false} FewVisits(sigs: Signatures, r1: int, r2: int, now: nat, visits: set<int>)
    requires forall k :: k in sigs ==> k.0 in visits
    ensures Cosigns(sigs, r1, r2, now) <= |visits|
  {
    var joint := CosignedVisits(sigs, r1, r2, now);
    assert visits == joint + (visits - joint);
  }

  lemma {:induction false} StartIsInitial(w: World)
    ensures Initial(Start()) && Inv(w, Start())
  {
    InitialSafe(w, Start());
    hide Inv;
  }

  lemma {:induction false} AttestFirst(w: World) returns (cmds: seq<Timed>)
    requires w.primitives == Honest()
    ensures Inv(w, Run(w, Start(), cmds)) && NowAttested(Start(), Run(w, Start(), cmds), 1, 1, 11, 12)
  {
    hide Inv, Keeps, Run, A.Payload, RecordOf, P.Valid, A.Valid, O.Valid, NowAttested,
         AllBacked, AttestedApproved, HoldersApproved, TokenIdsValid;
    StartIsInitial(w);
    InvParts(w, Start());
    NoEvents(1);
    FewVisits(Start().sigs, 11, 12, 0, {});
    cmds := AttestUser(w, Start(), 1, 1, 10, 11, 12, 0);
    RunSafe(w, Start(), cmds);
  }

  lemma {:induction false} NoEvents(u: int)
    ensures P.Qualifying(P.EMPTY.events, u) == {}
  {
  }

  /** What the two attestations add up to. */
  lemma {:induction false} TwoAddUp(w: World, s1: State, s2: State)
    requires NowAttested(Start(), s1, 1, 1, 11, 12) && NowAttested(s1, s2, 2, 2, 11, 12) && Inv(w, s2)
    ensures TwoAttested(w, s2)
  {
    hide Inv, A.Payload, RecordOf, P.Qualifying;
    NoEvents(3);
    assert s2.attestations[0] == s1.attestations[0];
  }

  lemma {:induction false} AttestTwo(w: World) returns (cmds: seq<Timed>)
    requires w.primitives == Honest()
    ensures TwoAttested(w, Run(w, Start(), cmds))
  {
    hide Inv, Keeps, Run, A.Payload, RecordOf, P.Valid, A.Valid, O.Valid,
         AllBacked, AttestedApproved, HoldersApproved, TokenIdsValid, TwoAttested, P.Qualifying;
    var first := AttestFirst(w);
    var s1 := Run(w, Start(), first);
    InvParts(w, s1);
    NoEvents(2);
    FewVisits(s1.sigs, 11, 12, 0, {1});
    var second := AttestUser(w, s1, 2, 2, 10, 11, 12, 0);
    RunSafe(w, s1, second);
    cmds := first + second;
    RunSplice(w, Start(), first, second);
    hide NowAttested;
    TwoAddUp(w, s1, Run(w, s1, second));
  }

  // ---- one foreign signature strands an attestation ----

  lemma {:induction false} PayloadStarts(i: nat, row: A.Row)
    requires i < 10
    ensures A.Payload(i, row) != "" && A.Payload(i, row)[0] as int == '0' as int + i
  {
  }

  /** Attestation 2 waits at visit 1, which reviewer 12 has signed for attestation 0 and reviewer 13 has not signed. */
  predicate HalfSigned(s: State) {
    && |s.attestations| == 3
    && var row := s.attestations[2];
       && row.visit == 1 && row.reviewer1 == 12 && row.reviewer2 == 13 && row.status == A.CoSignPending
       && (row.deadline.Some? ==> s.clock <= row.deadline.value)
       && (1, 12) in s.sigs && (1, 13) !in s.sigs
  }

  /**
   * Two attestations of one visit that share one reviewer: a run that approves the first and leaves the second in
   * time, with its other reviewer free to sign, and yet no continuation approves it.
   */
  lemma {:induction false} SharedReviewerStrands(w: World) returns (cmds: seq<Timed>)
    requires w.primitives == Honest()
    ensures var s := Run(w, Start(), cmds);
            && Inv(w, s) && HalfSigned(s) && !G.Stranded(s, 2)
            && forall more :: !Approves(w, s, 2, more)
  {
    hide Inv, Keeps, Run, A.Payload, RecordOf, Cosigns, P.Valid, A.Valid, O.Valid,
         AllBacked, AttestedApproved, HoldersApproved, TokenIdsValid, Approves, P.Qualifying, P.Met, P.Grows;
    var two := AttestTwo(w);
    var s := Run(w, Start(), two);
    InvParts(w, s);
    var present, p := GatherPresence(w, s, 3, 0);
    var s1 := Run(w, s, present);
    RunSafe(w, s, present);
    var threshold := MetRow(p, 3);
    FewVisits(s1.sigs, 12, 13, Micros(s1.clock), {1, 2});
    assert !HasActive(s1.attestations, 1, 3);
    var opening := OpenAndStaffSign(w, s1, 3, 1, 10, 12, 13, threshold);
    var s2 := Run(w, s1, opening);
    RunSafe(w, s1, opening);
    cmds := two + present + opening;
    StartIsInitial(w);
    RunSplice(w, Start(), two, present);
    RunSplice(w, Start(), two + present, opening);
    var row := s2.attestations[2];
    RecordIsForeign(w, s.attestations[0], row);
    forall more ensures !Approves(w, s2, 2, more) {
      OneForeignSignatureStrands(w, s2, 2, 12, more);
    }
  }

  lemma {:induction false} RecordIsForeign(w: World, made: A.Row, other: A.Row)
    requires w.primitives == Honest()
    ensures !E.RecordVerifies(w.primitives, RecordOf(A.Payload(0, made)), A.Payload(2, other))
  {
    PayloadStarts(0, made);
    PayloadStarts(2, other);
    hide A.Payload, KeyOf, SignatureOf, E.EncodeRecord;
    HonestDistinguishes(w, A.Payload(0, made), A.Payload(2, other));
  }

  // ---- tokens ----

  lemma {:induction false} IssueStep(w: World, s: State, u: int, a: nat, uuid: S.Uuid, delay: nat)
    requires u in s.users && !s.users[u].deleted && s.users[u].status == Attested
    requires a < |s.attestations| && s.attestations[a].status == A.Approved
    requires S.FindLive(s.tokens, u, s.clock + delay).None?
    ensures var t := S.Issued(w.keys, uuid, u, "user", s.attestations[a].threshold, a, s.clock + delay);
            Step(w, s, Timed(delay, CmdIssue(u, a, "user", uuid)))
            == s.(clock := s.clock + delay, tokens := s.tokens + [t],
                  users := s.users[u := s.users[u].(soultoken := Some(|s.tokens|))])
  {
    hide S.Issued;
  }

  lemma {:induction false} RenewStep(w: World, s: State, u: int, id: nat)
    requires S.FindLive(s.tokens, u, s.clock) == Some(id)
    ensures var renewed := S.Renewed(w.keys, s.tokens[id], s.clock);
            Step(w, s, Timed(0, CmdRenew(u)))
            == s.(tokens := s.tokens[id := renewed],
                  renewals := s.renewals + [S.Renewal(id, u, s.tokens[id].expiresAt, renewed.expiresAt)])
  {
    hide S.Renewed;
    assert s.(clock := s.clock + 0) == s;
  }

  /** Someone with the reviewer role, whoever they are, revokes token `id`. */
  function Revoking(id: nat, actor: int): Timed {
    Timed(0, CmdRevoke(id, actor, "staff_rescission", [RoleRow(actor, AttestationReviewer, None, 0, None, false)]))
  }

  lemma {:induction false} RevokeStep(w: World, s: State, id: nat, actor: int)
    requires id < |s.tokens| && s.tokens[id].revokedAt.None? && actor in s.users && !s.users[actor].deleted
    ensures Step(w, s, Revoking(id, actor)) == RevokeToken(s, id, "staff_rescission")
  {
    hide RevokeToken;
    var roles := [RoleRow(actor, AttestationReviewer, None, 0, None, false)];
    assert Holds(roles[0], actor, AttestationReviewer, Micros(s.clock));
    assert s.(clock := s.clock + 0) == s;
  }

  lemma {:induction false} IssuedIsLive(w: World, uuid: S.Uuid, u: int, threshold: nat, a: nat, now: nat, later: nat)
    ensures var t := S.Issued(w.keys, uuid, u, "user", threshold, a, now);
            && t.holder == u && t.attestation == a && t.revokedAt.None?
            && (S.Live(t, u, later) <==> Micros(now) + YEAR > Micros(later))
  {
    MicrosPlusYear(now);
    hide S.RowPayload;
  }

  lemma {:induction false} OneToken(t: S.Token, u: int, now: nat)
    ensures S.FindLive([t], u, now) == if S.Live(t, u, now) then Some(0) else None
  {
    hide S.Live;
    assert [t][..0] == [];
  }

  lemma {:induction false} TwoTokens(a: S.Token, b: S.Token, u: int, now: nat)
    ensures S.FindLive([a, b], u, now) == if S.Live(b, u, now) then Some(1) else if S.Live(a, u, now) then Some(0)
              else None
  {
    hide S.Live;
    assert [a, b][..1] == [a];
    OneToken(a, u, now);
  }

  /**
   * Users 1 and 2 hold a token each, the second of which names the attestation of user 1; user 1's was renewed
   * twice.
   */
  predicate TokensHeld(s: State) {
    && |s.tokens| == 2 && |s.attestations| == 2
    && s.tokens[0].holder == 1 && s.tokens[0].attestation == 0 && s.attestations[0].user == 1
    && s.tokens[1].holder == 2 && s.tokens[1].attestation == 0
    && s.tokens[0].revokedAt.None? && s.tokens[1].revokedAt.None?
    && |s.renewals| == 2 && s.renewals[0].token == 0 && s.renewals[1].token == 0
  }

  lemma {:induction false} IssueTwo(w: World, s: State, one: S.Uuid, two: S.Uuid) returns (cmds: seq<Timed>)
    requires TwoAttested(w, s)
    ensures var s' := Run(w, s, cmds);
            && s' == s.(tokens := s'.tokens, users := s'.users) && |s'.tokens| == 2
            && s'.users.Keys == s.users.Keys && !s'.users[1].deleted
            && s'.tokens[0] == S.Issued(w.keys, one, 1, "user", s.attestations[0].threshold, 0, 0)
            && s'.tokens[1] == S.Issued(w.keys, two, 2, "user", s.attestations[0].threshold, 0, 0)
  {
    hide Inv, Run, S.Issued, Step, S.FindLive, P.Qualifying, A.Payload, RecordOf;
    var a, b := Timed(0, CmdIssue(1, 0, "user", one)), Timed(0, CmdIssue(2, 0, "user", two));
    var t := S.Issued(w.keys, one, 1, "user", s.attestations[0].threshold, 0, 0);
    IssuedIsLive(w, one, 1, s.attestations[0].threshold, 0, 0, 0);
    NoneLive(t);
    IssueStep(w, s, 1, 0, one, 0);
    var s1 := Step(w, s, a);
    IssueStep(w, s1, 2, 0, two, 0);
    RunTwo(w, s, a, b);
    cmds := [a, b];
  }

  lemma {:induction false} NoneLive(t: S.Token)
    requires t.holder == 1
    ensures S.FindLive([], 1, 0).None? && S.FindLive([t], 2, 0).None?
  {
    OneToken(t, 2, 0);
  }

  /** A run in which both users get their tokens, and user 1 renews twice. */
  lemma {:induction false} TokensAreIssued(w: World, one: S.Uuid, two: S.Uuid) returns (cmds: seq<Timed>)
    requires w.primitives == Honest()
    ensures Inv(w, Run(w, Start(), cmds)) && TokensHeld(Run(w, Start(), cmds))
    ensures Run(w, Start(), cmds).users.Keys == {1, 2, 3} && !Run(w, Start(), cmds).users[1].deleted
    ensures Run(w, Start(), cmds).clock == 0
    ensures forall i :: 0 <= i < 2 ==> Run(w, Start(), cmds).attestations[i].status == A.Approved
  {
    hide Inv, Keeps, Run, S.Issued, Step, S.FindLive, P.Qualifying, A.Payload, RecordOf, S.Renewed;
    var attest := AttestTwo(w);
    var s := Run(w, Start(), attest);
    var issue := IssueTwo(w, s, one, two);
    var s1 := Run(w, s, issue);
    IssuedIsLive(w, one, 1, s.attestations[0].threshold, 0, 0, 0);
    IssuedIsLive(w, two, 2, s.attestations[0].threshold, 0, 0, 0);
    TwoTokens(s1.tokens[0], s1.tokens[1], 1, 0);
    assert s1.tokens == [s1.tokens[0], s1.tokens[1]];
    RenewStep(w, s1, 1, 0);
    var s2 := Step(w, s1, Timed(0, CmdRenew(1)));
    RenewedIsLive(w, s1.tokens[0], 1, 0);
    TwoTokens(s2.tokens[0], s2.tokens[1], 1, 0);
    assert s2.tokens == [s2.tokens[0], s2.tokens[1]];
    RenewStep(w, s2, 1, 0);
    RenewedIsLive(w, s2.tokens[0], 1, 0);
    var renew := [Timed(0, CmdRenew(1)), Timed(0, CmdRenew(1))];
    RunTwo(w, s1, Timed(0, CmdRenew(1)), Timed(0, CmdRenew(1)));
    cmds := attest + issue + renew;
    RunSplice(w, Start(), attest, issue);
    RunSplice(w, Start(), attest + issue, renew);
    StartIsInitial(w);
    RunSafe(w, Start(), cmds);
  }

  lemma {:induction false} RenewedIsLive(w: World, t: S.Token, u: int, now: nat)
    requires S.Live(t, u, now)
    ensures var t' := S.Renewed(w.keys, t, now);
            S.Live(t', u, now) && t'.holder == t.holder && t'.attestation == t.attestation &&
                t'.revokedAt == t.revokedAt
  {
    MicrosPlusYear(now);
    hide S.RowPayload;
  }

  /** A run after which a user whose token was revoked can never be confirmed or attested again. */
  lemma {:induction false} RevocationStrandsUser(w: World, one: S.Uuid, two: S.Uuid) returns (cmds: seq<Timed>)
    requires w.primitives == Honest()
    ensures var s := Run(w, Start(), cmds);
            && Inv(w, s) && G.SentBack(s, 2)
            && forall more :: !G.Restored(w, s, 2, more)
  {
    hide Inv, Keeps, Run, Step, G.Restored, G.SentBack;
    var held := TokensAreIssued(w, one, two);
    var s := Run(w, Start(), held);
    RevokeStep(w, s, 1, 1);
    cmds := held + [Revoking(1, 1)];
    RunSplice(w, Start(), held, [Revoking(1, 1)]);
    RunOne(w, s, Revoking(1, 1));
    var s' := RevokeToken(s, 1, "staff_rescission");
    G.AfterRevocation(w, s, 1, "staff_rescission");
    NothingOpen(s, s');
  }

  lemma {:induction false} NothingOpen(s: State, s': State)
    requires s'.attestations == s.attestations && |s.attestations| == 2
    requires forall i :: 0 <= i < 2 ==> s.attestations[i].status == A.Approved
    ensures !G.HasOpen(s'.attestations, 2)
  {
  }

  /**
   * A run after which a token is live although its holder's `soultoken_id` is empty and status `registered`:
   * a second token is issued when the first has expired, and then the first is revoked.
   */
  lemma {:induction false} LiveTokenOutlivesRevocation(w: World, one: S.Uuid, two: S.Uuid) returns (cmds: seq<Timed>)
    requires w.primitives == Honest()
    ensures var s := Run(w, Start(), cmds);
            && Inv(w, s) && 1 in s.users && s.users[1].soultoken.None? && s.users[1].status == Registered
            && S.FindLive(s.tokens, 1, s.clock) == Some(1) && RenewSoultoken(w, s, 1).Ok?
  {
    hide Inv, Keeps, Run, S.Issued, Step, S.FindLive, P.Qualifying, A.Payload, RecordOf, RenewSoultoken;
    var attest := AttestTwo(w);
    var s := Run(w, Start(), attest);
    var threshold := s.attestations[0].threshold;
    var a, b := Timed(0, CmdIssue(1, 0, "user", one)), Timed(2 * YEAR, CmdIssue(1, 0, "user", two));
    IssuedIsLive(w, one, 1, threshold, 0, 0, 2 * YEAR);
    var t := S.Issued(w.keys, one, 1, "user", threshold, 0, 0);
    NoneLive(t);
    IssueStep(w, s, 1, 0, one, 0);
    var s1 := Step(w, s, a);
    OneToken(t, 1, 2 * YEAR);
    IssueStep(w, s1, 1, 0, two, 2 * YEAR);
    var s2 := Step(w, s1, b);
    RunTwo(w, s, a, b);
    RunSplice(w, Start(), attest, [a, b]);
    IssuedIsLive(w, two, 1, threshold, 0, 2 * YEAR, 2 * YEAR);
    assert s2.tokens == [t, s2.tokens[1]];
    TwoTokens(s2.tokens[0], s2.tokens[1], 1, 2 * YEAR);
    RevokeStep(w, s2, 0, 1);
    cmds := attest + [a, b] + [Revoking(0, 1)];
    RunSplice(w, Start(), attest + [a, b], [Revoking(0, 1)]);
    RunOne(w, s2, Revoking(0, 1));
    StartIsInitial(w);
    RunSafe(w, Start(), attest + [a, b]);
    RunSafe(w, Start(), cmds);
    var s3 := RevokeToken(s2, 0, "staff_rescission");
    G.LiveAfterRevokeIff(w, s2, 0, "staff_rescission");
    assert s3.tokens == [s3.tokens[0], s2.tokens[1]];
    TwoTokens(s3.tokens[0], s3.tokens[1], 1, 2 * YEAR);
  }
}
