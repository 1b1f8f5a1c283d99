/**
 * Attestation rows and reviewer signatures (BFIP section 6): the evidence each signature covers and
 * the facts every row keeps.
 */
module Attestations {
  import opened Common
  import opened Text
  import opened Payloads
  import opened Ed25519
  import opened Reviewers

  datatype Status = Pending | CoSignPending | Approved | Rejected

  /** A `visit_attestations` row; its id is its position. */
  datatype Row = Row(visit: int, user: int, staff: int, threshold: nat, reviewer1: int, reviewer2: int,
                     photoHash: Option<string>, staffRecord: Option<string>, deadline: Option<nat>, status: Status)

  /** The bytes staff and reviewers sign for row `id`. */
  function Payload(id: nat, row: Row): string {
    AttestationPayload(id, row.visit, row.user, row.photoHash)
  }

  predicate Open(row: Row) { row.status == Pending || row.status == CoSignPending }

  predicate AssignedTo(row: Row, reviewer: int) { row.reviewer1 == reviewer || row.reviewer2 == reviewer }

  /** The other reviewer of an assigned one. */
  function Partner(row: Row, uid: int): int { if row.reviewer1 == uid then row.reviewer2 else row.reviewer1 }

  /** 64 characters, lower-case hex. */
  predicate IsSha256Hex(s: string) {
    |s| == 64 && forall c :: c in s ==> '0' <= c <= '9' || 'a' <= c <= 'f'
  }

  /** These are exactly the lower-case hex renderings of 32 bytes. */
  lemma {:induction false} IsSha256HexIff(s: string)
    ensures IsSha256Hex(s) <==> exists bytes: seq<Byte> :: |bytes| == 32 && HexEncode(bytes) == s
  {
    if IsSha256Hex(s) {
      var bytes := LowerHexDecodes(s);
      assert |bytes| == 32;
    }
    if bytes: seq<Byte> :| |bytes| == 32 && HexEncode(bytes) == s {
      HexEncodeLower(bytes);
    }
  }

  /** The row `staff_sign` writes: a request hash replaces the stored one, an absent request hash keeps it. */
  function StaffSigned(row: Row, record: string, photoHash: Option<string>, deadline: nat): Row {
    row.(staffRecord := Some(record), photoHash := if photoHash.Some? then photoHash else row.photoHash,
         deadline := Some(deadline), status := CoSignPending)
  }

  // ---- have both signed? ----

  /** The two stored records, first reviewer's first, once both assigned reviewers have signed the visit. */
  function BothRecords(sigs: Signatures, visit: int, r1: int, r2: int): Option<(string, string)> {
    if r1 != r2 && (visit, r1) in sigs && (visit, r2) in sigs
    then Some((sigs[(visit, r1)].record, sigs[(visit, r2)].record)) else None
  }

  /** A result set of the signature query, in whatever order the database returns it. */
  predicate IsResultSet(rows: seq<(int, string)>, sigs: Signatures, visit: int, r1: int, r2: int) {
    && (forall i, j :: 0 <= i < j < |rows| ==> rows[i].0 != rows[j].0)
    && (forall i :: 0 <= i < |rows| ==>
          && (rows[i].0 == r1 || rows[i].0 == r2)
          && (visit, rows[i].0) in sigs && sigs[(visit, rows[i].0)].record == rows[i].1)
    && ((visit, r1) in sigs ==> exists i :: 0 <= i < |rows| && rows[i].0 == r1)
    && ((visit, r2) in sigs ==> exists i :: 0 <= i < |rows| && rows[i].0 == r2)
  }

  /** The loop of `check_both_reviewers_signed` over a result set. */
  method CheckBothSigned(rows: seq<(int, string)>, r1: int, r2: int, ghost sigs: Signatures, ghost visit: int)
    returns (both: Option<(string, string)>)
    requires IsResultSet(rows, sigs, visit, r1, r2)
    ensures both == BothRecords(sigs, visit, r1, r2)
  {
    if |rows| < 2 {
      return None;
    }
    assert rows[0].0 != rows[1].0;
    var sig1: Option<string>, sig2: Option<string> := None, None;
    for k := 0 to |rows|
      invariant sig1.Some? <==> exists i :: 0 <= i < k && rows[i].0 == r1
      invariant sig2.Some? <==> r1 != r2 && exists i :: 0 <= i < k && rows[i].0 == r2
      invariant sig1.Some? ==> (visit, r1) in sigs && sig1.value == sigs[(visit, r1)].record
      invariant sig2.Some? ==> (visit, r2) in sigs && sig2.value == sigs[(visit, r2)].record
    {
      if rows[k].0 == r1 {
        sig1 := Some(rows[k].1);
      } else if rows[k].0 == r2 {
        sig2 := Some(rows[k].1);
      }
    }
    if sig1.Some? && sig2.Some? {
      return Some((sig1.value, sig2.value));
    }
    return None;
  }

  // ---- facts every row keeps ----

  /** Two distinct reviewers, neither of them the delivery staff. */
  predicate Independent(row: Row) {
    row.reviewer1 != row.reviewer2 && row.reviewer1 != row.staff && row.reviewer2 != row.staff
  }

  /** The staff record verifies over the row's own payload from staff sign on. */
  predicate StaffVerified(p: Primitives, id: nat, row: Row) {
    row.staffRecord.Some? && RecordVerifies(p, row.staffRecord.value, Payload(id, row))
  }

  /** Both reviewers' stored records verify over the row's own payload. */
  predicate CoSigned(p: Primitives, sigs: Signatures, id: nat, row: Row) {
    && (row.visit, row.reviewer1) in sigs &&
         RecordVerifies(p, sigs[(row.visit, row.reviewer1)].record, Payload(id, row))
    && (row.visit, row.reviewer2) in sigs &&
         RecordVerifies(p, sigs[(row.visit, row.reviewer2)].record, Payload(id, row))
  }

  predicate RowValid(p: Primitives, sigs: Signatures, id: nat, row: Row) {
    && Independent(row)
    && (row.status == CoSignPending || row.status == Approved ==> StaffVerified(p, id, row))
    && (row.status == Approved ==> CoSigned(p, sigs, id, row))
  }

  /** At most one attestation of a user at a visit is not rejected. */
  predicate OneActive(rows: seq<Row>) {
    forall i, j :: 0 <= i < j < |rows| && rows[i].visit == rows[j].visit && rows[i].user == rows[j].user
                   ==> rows[i].status == Rejected || rows[j].status == Rejected
  }

  predicate SamePair(a: Row, b: Row) {
    a.visit == b.visit && {a.reviewer1, a.reviewer2} == {b.reviewer1, b.reviewer2}
  }

  /** At one visit, a pair of reviewers approves at most once: their signature rows are per visit. */
  predicate OnePerPair(rows: seq<Row>) {
    forall i, j :: 0 <= i < j < |rows| && rows[i].status == Approved && rows[j].status == Approved ==>
        !SamePair(rows[i], rows[j])
  }

  predicate Valid(p: Primitives, rows: seq<Row>, sigs: Signatures) {
    OneActive(rows) && OnePerPair(rows) && forall i :: 0 <= i < |rows| ==> RowValid(p, sigs, i, rows[i])
  }

  /** Signature rows are never rewritten, so adding one keeps what was verified. */
  lemma {:induction false} MoreSignatures(p: Primitives, rows: seq<Row>, sigs: Signatures, key: (int, int),
                                          sig: SignatureRow)
    requires Valid(p, rows, sigs) && key !in sigs
    ensures Valid(p, rows, sigs[key := sig])
  {
    forall i | 0 <= i < |rows| ensures RowValid(p, sigs[key := sig], i, rows[i]) {
      assert RowValid(p, sigs, i, rows[i]);
    }
  }

  lemma {:induction false} AddRow(p: Primitives, rows: seq<Row>, sigs: Signatures, row: Row)
    requires Valid(p, rows, sigs) && Independent(row) && row.status == Pending
    requires forall i :: 0 <= i < |rows| && rows[i].visit == row.visit && rows[i].user == row.user ==>
               rows[i].status == Rejected
    ensures Valid(p, rows + [row], sigs)
  {
    forall i | 0 <= i < |rows| + 1 ensures RowValid(p, sigs, i, (rows + [row])[i]) {
      assert i < |rows| ==> RowValid(p, sigs, i, rows[i]);
    }
  }

  lemma {:induction false} UpdateRow(p: Primitives, rows: seq<Row>, sigs: Signatures, id: nat, row: Row)
    requires Valid(p, rows, sigs) && id < |rows|
    requires row.visit == rows[id].visit && row.user == rows[id].user && RowValid(p, sigs, id, row)
    requires rows[id].status != Rejected
    requires row.status == Approved ==> forall j :: 0 <= j < |rows| && j != id && rows[j].status == Approved ==>
               !SamePair(row, rows[j])
    ensures Valid(p, rows[id := row], sigs)
  {
    hide RowValid;
    var updated := rows[id := row];
    forall i | 0 <= i < |rows| ensures RowValid(p, sigs, i, updated[i]) {
      assert i != id ==> RowValid(p, sigs, i, rows[i]);
    }
  }

  /** A verified request becomes a record that verifies over the same payload. */
  lemma {:induction false} RecordOfVerified(p: Primitives, keyHex: string, payload: string, sigHex: string)
    requires Verify(p, keyHex, payload, sigHex) == Checked(true)
    ensures RecordVerifies(p, EncodeRecord(keyHex, sigHex), payload)
  {
    VerifiedRoundTrips(p, keyHex, payload, sigHex);
  }
}
