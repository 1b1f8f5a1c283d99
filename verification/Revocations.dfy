/** The in-process list of revoked JWTs: token ids with the expiry of their token, purged when asked. */
module Revocations {
  import opened Common

  type RevokedTokens = map<string, nat>

  /** A `usize` cast to a 64-bit signed integer. */
  function AsI64(n: nat): (r: int)
    ensures n < 0x8000_0000_0000_0000 ==> r == n
  {
    var low := n % 0x1_0000_0000_0000_0000;
    if low < 0x8000_0000_0000_0000 then low else low - 0x1_0000_0000_0000_0000
  }

  /** `revoke_token` without Redis; saturation of the subtraction does not change its sign. */
  function Revoke(list: RevokedTokens, jti: string, exp: nat, now: nat): RevokedTokens {
    if AsI64(exp) - now <= 0 then list else list[jti := exp]
  }

  function Purge(list: RevokedTokens, now: nat): RevokedTokens {
    map jti | jti in list && list[jti] > now :: list[jti]
  }

  /** A revocation is stored iff its token has not expired; purging drops exactly the expired entries. */
  lemma {:induction false} ListAfter(list: RevokedTokens, jti: string, exp: nat, now: nat, other: string)
    requires exp < 0x8000_0000_0000_0000
    ensures var after := Revoke(list, jti, exp, now);
            && (other in after <==> other in list || (other == jti && now < exp))
            && (other in after ==> after[other] == if other == jti && now < exp then exp else list[other])
    ensures var kept := Purge(list, now);
            && (other in kept <==> other in list && now < list[other])
            && (other in kept ==> kept[other] == list[other])
  {
  }

  /** The list behind the mutex; times are Unix seconds. */
  class RevocationList {
    var entries: RevokedTokens

    constructor ()
      ensures entries == map[]
    {
      entries := map[];
    }

    method RevokeToken(jti: string, exp: nat, now: nat)
      modifies this
      ensures entries == Revoke(old(entries), jti, exp, now)
    {
      var ttl := AsI64(exp) - now;
      if ttl <= 0 {
        return;
      }
      entries := entries[jti := exp];
    }

    method IsRevoked(jti: string, now: nat) returns (revoked: bool)
      modifies this
      ensures entries == Purge(old(entries), now)
      ensures revoked <==> jti in old(entries) && old(entries)[jti] > now
    {
      entries := Purge(entries, now);
      revoked := jti in entries;
    }
  }

  // ---- runs ----

  datatype Op = Tick(delay: nat) | Revoking(jti: string, exp: nat) | Asking(jti: string)

  datatype State = State(now: nat, list: RevokedTokens, answers: seq<bool>)

  /** With `purging` off the list only ever grows. */
  function Step(purging: bool, s: State, op: Op): State {
    match op
    case Tick(delay) => s.(now := s.now + delay)
    case Revoking(jti, exp) => s.(list := Revoke(s.list, jti, exp, s.now))
    case Asking(jti) =>
      var list := if purging then Purge(s.list, s.now) else s.list;
      State(s.now, list, s.answers + [jti in list && list[jti] > s.now])
  }

  function Play(purging: bool, start: nat, ops: seq<Op>): State {
    if ops == [] then State(start, map[], []) else Step(purging, Play(purging, start, ops[..|ops| - 1]), ops[|ops| - 1])
  }

  /** The purged list is the other one without some expired entries. */
  predicate Agree(purged: State, full: State) {
    && purged.now == full.now && purged.answers == full.answers
    && (forall jti :: jti in purged.list ==> jti in full.list && full.list[jti] == purged.list[jti])
    && (forall jti :: jti in full.list && jti !in purged.list ==> full.list[jti] <= full.now)
  }

  lemma {:induction false} PlaysAgree(start: nat, ops: seq<Op>)
    ensures Agree(Play(true, start, ops), Play(false, start, ops))
  {
    if ops == [] {
    } else {
      PlaysAgree(start, ops[..|ops| - 1]);
      AgreeStep(Play(true, start, ops[..|ops| - 1]), Play(false, start, ops[..|ops| - 1]), ops[|ops| - 1]);
    }
  }

  lemma {:induction false} AgreeStep(purged: State, full: State, op: Op)
    requires Agree(purged, full)
    ensures Agree(Step(true, purged, op), Step(false, full, op))
  {
    hide AsI64;
  }

  /** Every request to revoke `jti` came from a token with expiry `exp`, as all copies of one token have. */
  predicate OneExpiry(ops: seq<Op>, jti: string, exp: nat) {
    forall op :: op in ops && op.Revoking? && op.jti == jti ==> op.exp == exp
  }

  lemma {:induction false} FullListIff(start: nat, ops: seq<Op>, jti: string, exp: nat)
    requires OneExpiry(ops, jti, exp) && Play(false, start, ops).now < exp < 0x8000_0000_0000_0000
    ensures jti in Play(false, start, ops).list <==> Revoking(jti, exp) in ops
    ensures jti in Play(false, start, ops).list ==> Play(false, start, ops).list[jti] == exp
  {
    if ops == [] {
    } else {
      assert ops == ops[..|ops| - 1] + [ops[|ops| - 1]];
      FullListIff(start, ops[..|ops| - 1], jti, exp);
    }
  }

  /**
   * Purging never changes an answer: for a token not past its expiry the purged list says "revoked"
   * exactly when the token was revoked at some earlier point of the run, and the purged and the
   * ever-growing list have answered alike throughout.
   */
  lemma {:induction false} RevokedIff(start: nat, ops: seq<Op>, jti: string, exp: nat)
    requires OneExpiry(ops, jti, exp)
    requires Play(true, start, ops).now < exp < 0x8000_0000_0000_0000
    ensures var s := Play(true, start, ops);
            && (jti in Purge(s.list, s.now) <==> Revoking(jti, exp) in ops)
            && s.answers == Play(false, start, ops).answers
  {
    hide Play;
    PlaysAgree(start, ops);
    FullListIff(start, ops, jti, exp);
  }

  /** The time of a run: where it started, and every tick since. */
  function Elapsed(ops: seq<Op>): nat {
    if ops == [] then 0 else Elapsed(ops[..|ops| - 1]) + (if ops[|ops| - 1].Tick? then ops[|ops| - 1].delay else 0)
  }

  /**
   * The same over time alone: asked at the end of any run, the purged list says of a token "revoked" iff the token
   * was revoked in the run and has not expired by now.
   */
  lemma {:induction false} AnswerIff(start: nat, ops: seq<Op>, jti: string, exp: nat)
    requires OneExpiry(ops, jti, exp) && start + Elapsed(ops) < exp < 0x8000_0000_0000_0000
    ensures var answers := Play(true, start, ops + [Asking(jti)]).answers;
            |answers| > 0 && (answers[|answers| - 1] <==> Revoking(jti, exp) in ops)
  {
    TimeOf(start, ops);
    RevokedIff(start, ops, jti, exp);
    assert (ops + [Asking(jti)])[..|ops|] == ops;
    FullListIff(start, ops, jti, exp);
    PlaysAgree(start, ops);
  }

  lemma {:induction false} TimeOf(start: nat, ops: seq<Op>)
    ensures Play(true, start, ops).now == Play(false, start, ops).now == start + Elapsed(ops)
  {
    if ops == [] {
    } else {
      TimeOf(start, ops[..|ops| - 1]);
      hide Revoke, Purge;
    }
  }

  /** A list that serves any operations: its answers are those of a list that is never purged. */
  method Operate(start: nat, ops: seq<Op>) returns (list: RevocationList, answers: seq<bool>)
    ensures fresh(list) && list.entries == Play(true, start, ops).list
    ensures answers == Play(false, start, ops).answers
  {
    hide Revoke, Purge;
    list := new RevocationList();
    var now := start;
    answers := [];
    assert ops[..0] == [];
    for n := 0 to |ops|
      invariant fresh(list) && State(now, list.entries, answers) == Play(true, start, ops[..n])
    {
      assert ops[..n + 1][..n] == ops[..n];
      match ops[n] {
        case Tick(delay) => now := now + delay;
        case Revoking(jti, exp) => list.RevokeToken(jti, exp, now);
        case Asking(jti) =>
          PurgedAnswer(list.entries, jti, now);
          var revoked := list.IsRevoked(jti, now);
          answers := answers + [revoked];
      }
    }
    assert ops[..|ops|] == ops;
    PlaysAgree(start, ops);
  }

  lemma {:induction false} PurgedAnswer(entries: RevokedTokens, jti: string, now: nat)
    ensures jti in Purge(entries, now) && Purge(entries, now)[jti] > now <==> jti in entries && entries[jti] > now
  {
  }
}
