/**
 * Attestation tokens (BFIP section 11): short-lived tokens that a third party presents for verification,
 * the log of its attempts, and the limit on attempts per business and minute.
 */
module AttestationTokens {
  import opened Answers
  import opened Authority
  import opened Common
  import opened Platform
  import opened Safety
  import opened Store
  import A = Attestations
  import E = Ed25519
  import G = Guarantees
  import O = Orders
  import P = Presence
  import R = Reviewers
  import S = Soultokens

  /** An `attestation_tokens` row; only the hash of the token itself is stored. */
  datatype Token = Token(user: int, soultoken: nat, hash: string, issuedAt: nat, expiresAt: nat,
                         verifiedAt: Option<nat>, revokedAt: Option<nat>)

  datatype Outcome = Unknown | Expired | AlreadyVerified | Revoked | Success

  /** A `third_party_verification_attempts` row. */
  datatype Attempt = Attempt(hash: string, token: Option<nat>, business: Option<int>, outcome: Outcome, at: nat)

  datatype Tables = Tables(tokens: seq<Token>, attempts: seq<Attempt>)

  const LIFETIME: nat := 15 * MINUTE

  function FindHash(tokens: seq<Token>, hash: string): (r: Option<nat>)
    ensures r.Some? ==> r.value < |tokens| && tokens[r.value].hash == hash
    ensures r.None? ==> forall i :: 0 <= i < |tokens| ==> tokens[i].hash != hash
  {
    if tokens == [] then None
    else if tokens[|tokens| - 1].hash == hash then Some(|tokens| - 1)
    else FindHash(tokens[..|tokens| - 1], hash)
  }

  predicate InWindow(a: Attempt, business: int, now: nat) {
    a.business == Some(business) && a.at + MINUTE > Micros(now)
  }

  /** Attempts of the business in the minute before `now`, whatever their outcome. */
  function Recent(attempts: seq<Attempt>, business: int, now: nat): (n: nat)
    ensures n <= |attempts|
  {
    if attempts == [] then 0
    else
      var earlier := Recent(attempts[..|attempts| - 1], business, now);
      if InWindow(attempts[|attempts| - 1], business, now) then earlier + 1 else earlier
  }

  predicate OverLimit(attempts: seq<Attempt>, business: Option<int>, now: nat) {
    business.Some? && AsI32(Recent(attempts, business.value, now)) > 10
  }

  function Log(t: Tables, hash: string, token: Option<nat>, business: Option<int>, outcome: Outcome, now: nat): Tables {
    t.(attempts := t.attempts + [Attempt(hash, token, business, outcome, Micros(now))])
  }

  /** `verify_token`: an unusable token is an outcome, and logged; only the limit is an error, and unlogged. */
  function Verify(t: Tables, hash: string, business: Option<int>, now: nat): Result<(Tables, Outcome)> {
    var found := FindHash(t.tokens, hash);
    if found.None? then Ok((Log(t, hash, None, business, Unknown, now), Unknown))
    else
      var token := t.tokens[found.value];
      if now > token.expiresAt then Ok((Log(t, hash, found, business, Expired, now), Expired))
      else if token.verifiedAt.Some? then Ok((Log(t, hash, found, business, AlreadyVerified, now), AlreadyVerified))
      else if token.revokedAt.Some? then Ok((Log(t, hash, found, business, Revoked, now), Revoked))
      else if OverLimit(t.attempts, business, now) then Err(InvalidInput)
      else
        var marked := t.(tokens := t.tokens[found.value := token.(verifiedAt := Some(Micros(now)))]);
        Ok((Log(marked, hash, found, business, Success, now), Success))
  }

  function RevokeMine(t: Tables, id: nat, uid: int, now: nat): Result<Tables> {
    if id >= |t.tokens| || t.tokens[id].user != uid then Err(NotFound)
    else Ok(t.(tokens := t.tokens[id := t.tokens[id].(revokedAt := Some(Micros(now)))]))
  }

  /** `issue_token`, reading the user and the soultokens from the pipeline's tables. */
  function Issue(p: State, t: Tables, uid: int, scope: string, business: Option<nat>, hash: string): Result<Tables> {
    var user, live := Admitted(p.users, uid), S.FindLive(p.tokens, uid, p.clock);
    if user.Err? then Err(user.error)
    else if live.None? then Err(NotFound)
    else if scope != "presence.verified" then Err(InvalidInput)
    else if business.Some? && business.value >= |p.tokens| then Err(NotFound)
    else if business.Some? && p.tokens[business.value].revokedAt.Some? then Err(InvalidInput)
    else
      var token := Token(uid, live.value, hash, Micros(p.clock), Micros(p.clock + LIFETIME), None, None);
      Ok(t.(tokens := t.tokens + [token]))
  }

  // ---- what each request is answered, and what it does ----

  /** Positions of the attempts of this business logged less than a minute before `now`. */
  function LastMinute(attempts: seq<Attempt>, business: Option<int>, now: nat): set<nat> {
    set j: nat | j < |attempts| && attempts[j].business == business && attempts[j].at + 60 * SECOND > Micros(now)
  }

  lemma {:induction false} RecentIsLastMinute(attempts: seq<Attempt>, business: int, now: nat)
    ensures Recent(attempts, business, now) == |LastMinute(attempts, Some(business), now)|
  {
    if attempts == [] {
    } else {
      var n := |attempts| - 1;
      RecentIsLastMinute(attempts[..n], business, now);
      var before := LastMinute(attempts[..n], Some(business), now);
      assert LastMinute(attempts, Some(business), now)
          == if InWindow(attempts[n], business, now) then before + {n} else before;
    }
  }

  predicate Usable(token: Token, now: nat) {
    now <= token.expiresAt && token.verifiedAt.None? && token.revokedAt.None?
  }

  /** What a presentation tells, in the order of the checks: is there such a token, and what marks does it carry? */
  function Told(tokens: seq<Token>, found: Option<nat>, now: nat): Outcome
    requires found.Some? ==> found.value < |tokens|
  {
    if found.None? then Unknown
    else if tokens[found.value].expiresAt < now then Expired
    else if tokens[found.value].verifiedAt.Some? then AlreadyVerified
    else if tokens[found.value].revokedAt.Some? then Revoked
    else Success
  }

  /**
   * A presentation is refused exactly when the token is usable and its business made more than ten attempts in the
   * last minute. Otherwise the outcome is what the token's own marks say, and is logged; a success marks the token.
   */
  lemma {:induction false} VerifyRefusedIff(t: Tables, hash: string, business: Option<int>, now: nat)
    requires |t.attempts| < 0x8000_0000
    ensures var r, found := Verify(t, hash, business, now), FindHash(t.tokens, hash);
            && (r.Err? <==> found.Some? && Usable(t.tokens[found.value], now) && business.Some?
                            && |LastMinute(t.attempts, business, now)| > 10)
            && (r.Err? ==> r.error == InvalidInput)
            && (r.Ok? && r.value.1 == Success
                <==> found.Some? && Usable(t.tokens[found.value], now)
                     && (business.Some? ==> |LastMinute(t.attempts, business, now)| <= 10))
            && (r.Ok? ==>
                  && r.value.1 == Told(t.tokens, found, now)
                  && r.value.0.attempts == t.attempts + [Attempt(hash, found, business, r.value.1, Micros(now))]
                  && r.value.0.tokens == if r.value.1 == Success
                                         then t.tokens[found.value := t.tokens[found.value].(
                                                verifiedAt := Some(Micros(now)))]
                                         else t.tokens)
  {
    if business.Some? {
      RecentIsLastMinute(t.attempts, business.value, now);
    }
    hide Recent, FindHash, LastMinute;
  }

  lemma {:induction false} RevokeMineAnswer(t: Tables, id: nat, uid: int, now: nat)
    ensures RevokeMine(t, id, uid, now)
         == if id < |t.tokens| && t.tokens[id].user == uid
            then Ok(Tables(t.tokens[id := t.tokens[id].(revokedAt := Some(Micros(now)))], t.attempts))
            else Err(NotFound)
  {
  }

  /** A token is issued to an admitted holder of a live soultoken, for 15 minutes; the soultoken named is theirs. */
  lemma {:induction false} DeskIssueAnswer(p: State, t: Tables, uid: int, scope: string, business: Option<nat>,
                                           hash: string)
    ensures var r := Issue(p, t, uid, scope, business, hash);
            && Refusal(r) == (if !Known(p, uid) then Some(Unauthorized)
                              else if p.users[uid].banned then Some(Forbidden)
                              else if NoneLive(p, uid) then Some(NotFound)
                              else if scope != "presence.verified" then Some(InvalidInput)
                              else if business.Some? && business.value >= |p.tokens| then Some(NotFound)
                              else if business.Some? && p.tokens[business.value].revokedAt.Some?
                              then Some(InvalidInput)
                              else None)
            && (r.Ok? ==>
                  && |r.value.tokens| == |t.tokens| + 1 && r.value.tokens[..|t.tokens|] == t.tokens
                  && r.value.attempts == t.attempts
                  && var token := r.value.tokens[|t.tokens|];
                     && token == Token(uid, token.soultoken, hash, Micros(p.clock), Micros(p.clock) + 15 * 60 * SECOND,
                                       None, None)
                     && token.soultoken < |p.tokens| && S.Live(p.tokens[token.soultoken], uid, p.clock))
  {
    LiveFound(p, uid);
    MicrosPlus(p.clock, 15 * 60 * 1_000_000);
    hide S.FindLive, NoneLive, Micros, S.Live;
  }

  // ---- runs beside the pipeline ----

  datatype Sys = Sys(p: State, t: Tables)

  datatype Event =
    | Pipeline(timed: Timed)
    | IssueIt(delay: nat, uid: int, scope: string, business: Option<nat>, raw: string)
    | VerifyIt(delay: nat, raw: string, client: Option<int>)
    | RevokeIt(delay: nat, id: nat, uid: int)

  function Later(p: State, delay: nat): State { p.(clock := p.clock + delay) }

  function Next(w: World, sha256Hex: string -> string, s: Sys, e: Event): Sys {
    match e
    case Pipeline(timed) => s.(p := Step(w, s.p, timed))
    case IssueIt(delay, uid, scope, business, raw) =>
      var p := Later(s.p, delay);
      var r := Issue(p, s.t, uid, scope, business, sha256Hex(raw));
      Sys(p, if r.Ok? then r.value else s.t)
    case VerifyIt(delay, raw, client) =>
      var p := Later(s.p, delay);
      var r := Verify(s.t, sha256Hex(raw), client, p.clock);
      Sys(p, if r.Ok? then r.value.0 else s.t)
    case RevokeIt(delay, id, uid) =>
      var p := Later(s.p, delay);
      var r := RevokeMine(s.t, id, uid, p.clock);
      Sys(p, if r.Ok? then r.value else s.t)
  }

  function Play(w: World, sha256Hex: string -> string, s: Sys, events: seq<Event>): Sys {
    if events == [] then s
    else Next(w, sha256Hex, Play(w, sha256Hex, s, events[..|events| - 1]), events[|events| - 1])
  }

  function Fresh(p: State): Sys { Sys(p, Tables([], [])) }

  // ---- the invariant ----

  /** When the token was issued its user held the named soultoken, unrevoked and unexpired. */
  predicate TokenValid(p: State, token: Token) {
    && token.soultoken < |p.tokens| && token.issuedAt <= p.clock && Micros(token.issuedAt) == token.issuedAt
    && token.expiresAt == token.issuedAt + LIFETIME
    && var st := p.tokens[token.soultoken];
       && st.holder == token.user && st.kind == "user" && st.expiresAt > token.issuedAt
       && (st.revokedAt.Some? ==> st.revokedAt.value >= token.issuedAt)
  }

  predicate Succeeded(a: Attempt, id: nat) { a.outcome == Success && a.token == Some(id) }

  /**
   * A success marked its token, came in time, and came when at most ten attempts of its business were in the
   * window.
   */
  predicate AttemptValid(t: Tables, j: nat)
    requires j < |t.attempts|
  {
    var a := t.attempts[j];
    a.outcome == Success ==>
      && a.token.Some? && a.token.value < |t.tokens|
      && t.tokens[a.token.value].verifiedAt.Some? && a.at <= t.tokens[a.token.value].expiresAt
      && (a.business.Some? && j < 0x8000_0000 ==> Recent(t.attempts[..j], a.business.value, a.at) <= 10)
  }

  predicate OncePerToken(attempts: seq<Attempt>) {
    forall i, j :: 0 <= i < j < |attempts| && attempts[i].outcome == Success && attempts[j].outcome == Success
                   ==> attempts[i].token != attempts[j].token
  }

  ghost predicate Consistent(w: World, s: Sys) {
    && Inv(w, s.p)
    && (forall i :: 0 <= i < |s.t.tokens| ==> TokenValid(s.p, s.t.tokens[i]))
    && (forall j :: 0 <= j < |s.t.attempts| ==> AttemptValid(s.t, j))
    && OncePerToken(s.t.attempts)
  }

  /** What no command undoes: a token keeps its identity and its marks. */
  predicate TokensGrow(before: seq<Token>, after: seq<Token>) {
    && |before| <= |after|
    && forall i :: 0 <= i < |before| ==>
         && after[i].(verifiedAt := None, revokedAt := None) == before[i].(verifiedAt := None, revokedAt := None)
         && (before[i].verifiedAt.Some? ==> after[i].verifiedAt.Some?)
         && (before[i].revokedAt.Some? ==> after[i].revokedAt.Some?)
  }

  lemma {:induction false} MicrosRecent(attempts: seq<Attempt>, business: int, now: nat)
    ensures Recent(attempts, business, Micros(now)) == Recent(attempts, business, now)
  {
    MicrosIdempotent(now);
    if attempts == [] {
    } else {
      MicrosRecent(attempts[..|attempts| - 1], business, now);
    }
  }

  /** Old log entries stay valid while tokens grow and entries are appended. */
  lemma {:induction false} OldAttempts(t: Tables, t': Tables, j: nat)
    requires TokensGrow(t.tokens, t'.tokens) && t.attempts <= t'.attempts
    requires j < |t.attempts| && AttemptValid(t, j)
    ensures AttemptValid(t', j)
  {
    hide Recent;
    assert t'.attempts[..j] == t.attempts[..j];
    assert t'.attempts[j] == t.attempts[j];
  }

  /** One verification, as seen from the log. */
  lemma {:induction false} VerifyLogs(t: Tables, hash: string, business: Option<int>, now: nat)
    requires Verify(t, hash, business, now).Ok?
    requires forall j :: 0 <= j < |t.attempts| ==> AttemptValid(t, j)
    ensures var (t', outcome) := Verify(t, hash, business, now).value;
            && TokensGrow(t.tokens, t'.tokens) && |t'.attempts| == |t.attempts| + 1 && t.attempts <= t'.attempts
            && |t'.tokens| == |t.tokens|
            && AttemptValid(t', |t.attempts|)
            && (forall id: nat :: Succeeded(t'.attempts[|t.attempts|], id) ==>
                  id < |t.tokens| && t.tokens[id].verifiedAt.None? && t.tokens[id].revokedAt.None? &&
                      now <= t.tokens[id].expiresAt)
  {
    hide Recent, FindHash;
    var (t', outcome) := Verify(t, hash, business, now).value;
    assert t'.attempts[..|t.attempts|] == t.attempts;
    if business.Some? {
      MicrosRecent(t.attempts, business.value, now);
    }
  }

  lemma {:induction false} VerifyOnce(t: Tables, hash: string, business: Option<int>, now: nat)
    requires Verify(t, hash, business, now).Ok?
    requires (forall j :: 0 <= j < |t.attempts| ==> AttemptValid(t, j)) && OncePerToken(t.attempts)
    ensures OncePerToken(Verify(t, hash, business, now).value.0.attempts)
  {
    hide AttemptValid, Verify;
    VerifyLogs(t, hash, business, now);
    var attempts := Verify(t, hash, business, now).value.0.attempts;
    forall i, j | 0 <= i < j < |attempts| && attempts[i].outcome == Success && attempts[j].outcome == Success
      ensures attempts[i].token != attempts[j].token
    {
      assert attempts[i] == t.attempts[i];
      if j < |t.attempts| {
        assert attempts[j] == t.attempts[j];
      } else {
        EarlierSuccessMarked(t, i);
        assert Succeeded(attempts[i], attempts[i].token.value);
      }
    }
  }

  lemma {:induction false} EarlierSuccessMarked(t: Tables, i: nat)
    requires i < |t.attempts| && AttemptValid(t, i) && t.attempts[i].outcome == Success
    ensures t.attempts[i].token.Some? && t.attempts[i].token.value < |t.tokens| &&
              t.tokens[t.attempts[i].token.value].verifiedAt.Some?
  {
  }

  // ---- the soultoken behind a token ----

  /** A command that revokes a soultoken stamps it with the current time. */
  lemma {:induction false} RevokedNow(w: World, s: State, cmd: Command, i: nat)
    requires Exec(w, s, cmd).Ok? && i < |s.tokens| <= |Exec(w, s, cmd).value.tokens|
    ensures var st, st' := s.tokens[i], Exec(w, s, cmd).value.tokens[i];
            st'.revokedAt == st.revokedAt || st'.revokedAt == Some(Micros(s.clock))
  {
    hide RecordsVerify, A.Payload, E.Verify, E.EncodeRecord, S.FindLive, S.RowPayload, S.Issued, P.Qualify, P.Refuse,
         Witness,
         R.Assign, A.IsSha256Hex, O.Collect, O.Cancel, O.Activated, O.TapCheck, R.HasRole, P.NewlyMet;
  }

  lemma {:induction false} BackedStep(w: World, p: State, timed: Timed, token: Token)
    requires Inv(w, p) && TokenValid(p, token)
    ensures TokenValid(Step(w, p, timed), token)
  {
    hide Inv, Exec, Step;
    StepSafe(w, p, timed);
    StepRevokes(w, p, timed, token.soultoken);
    assert TokenKeeps(p.tokens[token.soultoken], Step(w, p, timed).tokens[token.soultoken]);
    MicrosMonotone(token.issuedAt, p.clock + timed.delay);
  }

  lemma {:induction false} StepRevokes(w: World, p: State, timed: Timed, i: nat)
    requires i < |p.tokens| <= |Step(w, p, timed).tokens|
    ensures var st, st' := p.tokens[i], Step(w, p, timed).tokens[i];
            st'.revokedAt == st.revokedAt || st'.revokedAt == Some(Micros(p.clock + timed.delay))
  {
    hide Exec;
    var now := p.(clock := p.clock + timed.delay);
    if Exec(w, now, timed.cmd).Ok? {
      RevokedNow(w, now, timed.cmd, i);
    }
  }

  // ---- whole runs ----

  lemma {:induction false} LaterValid(w: World, s: Sys, delay: nat)
    requires Consistent(w, s)
    ensures Consistent(w, s.(p := Later(s.p, delay)))
  {
    hide Inv, AttemptValid;
    ClockSafe(w, s.p, s.p.clock + delay);
    forall i | 0 <= i < |s.t.tokens| ensures TokenValid(Later(s.p, delay), s.t.tokens[i]) {
      assert TokenValid(s.p, s.t.tokens[i]);
    }
  }

  lemma {:induction false} PipelineConsistent(w: World, s: Sys, timed: Timed)
    requires Consistent(w, s)
    ensures Consistent(w, s.(p := Step(w, s.p, timed)))
  {
    hide Inv, AttemptValid, TokenValid, Step;
    StepSafe(w, s.p, timed);
    forall i | 0 <= i < |s.t.tokens| ensures TokenValid(Step(w, s.p, timed), s.t.tokens[i]) {
      BackedStep(w, s.p, timed, s.t.tokens[i]);
    }
  }

  lemma {:induction false} IssuedValid(w: World, p: State, t: Tables, uid: int, scope: string, business: Option<nat>,
                                       hash: string)
    requires Issue(p, t, uid, scope, business, hash).Ok?
    ensures var t' := Issue(p, t, uid, scope, business, hash).value;
            && t'.attempts == t.attempts && |t'.tokens| == |t.tokens| + 1 && t'.tokens[..|t.tokens|] == t.tokens
            && TokenValid(p, t'.tokens[|t.tokens|])
  {
    MicrosPlus(p.clock, LIFETIME / 1000);
    MicrosIdempotent(p.clock);
  }

  lemma {:induction false} IssueConsistent(w: World, s: Sys, uid: int, scope: string, business: Option<nat>,
                                           hash: string)
    requires Consistent(w, s) && Issue(s.p, s.t, uid, scope, business, hash).Ok?
    ensures Consistent(w, Sys(s.p, Issue(s.p, s.t, uid, scope, business, hash).value))
  {
    hide Inv, AttemptValid, TokenValid, Issue;
    IssuedValid(w, s.p, s.t, uid, scope, business, hash);
    var t' := Issue(s.p, s.t, uid, scope, business, hash).value;
    forall i | 0 <= i < |s.t.tokens| ensures t'.tokens[i] == s.t.tokens[i] {
      assert t'.tokens[..|s.t.tokens|][i] == s.t.tokens[i];
    }
    forall j | 0 <= j < |t'.attempts| ensures AttemptValid(t', j) {
      OldAttempts(s.t, t', j);
    }
  }

  lemma {:induction false} VerifyConsistent(w: World, s: Sys, hash: string, business: Option<int>)
    requires Consistent(w, s) && Verify(s.t, hash, business, s.p.clock).Ok?
    ensures Consistent(w, Sys(s.p, Verify(s.t, hash, business, s.p.clock).value.0))
  {
    hide Inv, AttemptValid, OncePerToken, Verify;
    VerifyLogs(s.t, hash, business, s.p.clock);
    VerifyOnce(s.t, hash, business, s.p.clock);
    var t' := Verify(s.t, hash, business, s.p.clock).value.0;
    forall i | 0 <= i < |t'.tokens| ensures TokenValid(s.p, t'.tokens[i]) {
      assert TokenValid(s.p, s.t.tokens[i]);
    }
    forall j | 0 <= j < |t'.attempts| ensures AttemptValid(t', j) {
      if j < |s.t.attempts| {
        OldAttempts(s.t, t', j);
      }
    }
  }

  lemma {:induction false} RevokeConsistent(w: World, s: Sys, id: nat, uid: int)
    requires Consistent(w, s) && RevokeMine(s.t, id, uid, s.p.clock).Ok?
    ensures Consistent(w, Sys(s.p, RevokeMine(s.t, id, uid, s.p.clock).value))
  {
    hide Inv, AttemptValid;
    var t' := RevokeMine(s.t, id, uid, s.p.clock).value;
    forall i | 0 <= i < |t'.tokens| ensures TokenValid(s.p, t'.tokens[i]) {
      assert TokenValid(s.p, s.t.tokens[i]);
    }
    forall j | 0 <= j < |t'.attempts| ensures AttemptValid(t', j) {
      OldAttempts(s.t, t', j);
    }
  }

  lemma {:induction false} NextConsistent(w: World, sha256Hex: string -> string, s: Sys, e: Event)
    requires Consistent(w, s)
    ensures Consistent(w, Next(w, sha256Hex, s, e))
  {
    hide Consistent, Issue, Verify, RevokeMine, Step, Later;
    match e
    case Pipeline(timed) => PipelineConsistent(w, s, timed);
    case IssueIt(delay, uid, scope, business, raw) =>
      LaterValid(w, s, delay);
      var now := s.(p := Later(s.p, delay));
      if Issue(now.p, s.t, uid, scope, business, sha256Hex(raw)).Ok? {
        IssueConsistent(w, now, uid, scope, business, sha256Hex(raw));
      }
    case VerifyIt(delay, raw, client) =>
      LaterValid(w, s, delay);
      var now := s.(p := Later(s.p, delay));
      if Verify(s.t, sha256Hex(raw), client, now.p.clock).Ok? {
        VerifyConsistent(w, now, sha256Hex(raw), client);
      }
    case RevokeIt(delay, id, uid) =>
      LaterValid(w, s, delay);
      var now := s.(p := Later(s.p, delay));
      if RevokeMine(s.t, id, uid, now.p.clock).Ok? {
        RevokeConsistent(w, now, id, uid);
      }
  }

  lemma {:induction false} PlayConsistent(w: World, sha256Hex: string -> string, s: Sys, events: seq<Event>)
    requires Consistent(w, s)
    ensures Consistent(w, Play(w, sha256Hex, s, events))
  {
    hide Consistent, Next;
    if events == [] {
    } else {
      PlayConsistent(w, sha256Hex, s, events[..|events| - 1]);
      NextConsistent(w, sha256Hex, Play(w, sha256Hex, s, events[..|events| - 1]), events[|events| - 1]);
    }
  }

  lemma {:induction false} FreshConsistent(w: World, p: State)
    requires Initial(p)
    ensures Consistent(w, Fresh(p))
  {
    InitialSafe(w, p);
    hide Inv;
  }

  // ---- the limit ----

  predicate SuccessIn(a: Attempt, business: int, lo: nat, hi: nat) {
    a.outcome == Success && a.business == Some(business) && lo <= a.at <= hi
  }

  /** Successful verifications of the business with logged time in [lo, hi]. */
  function Successes(attempts: seq<Attempt>, business: int, lo: nat, hi: nat): nat {
    if attempts == [] then 0
    else Successes(attempts[..|attempts| - 1], business, lo, hi)
         + (if SuccessIn(attempts[|attempts| - 1], business, lo, hi) then 1 else 0)
  }

  lemma {:induction false} LimitHolds(t: Tables, n: nat, business: int, lo: nat, hi: nat)
    requires n <= |t.attempts| && n <= 0x8000_0000 && hi < lo + MINUTE
    requires forall j :: 0 <= j < |t.attempts| ==> AttemptValid(t, j)
    ensures Successes(t.attempts[..n], business, lo, hi) <= 11
  {
    if n > 0 {
      var last := t.attempts[n - 1];
      assert t.attempts[..n][..n - 1] == t.attempts[..n - 1];
      assert AttemptValid(t, n - 1);
      if SuccessIn(last, business, lo, hi) {
        SuccessesWithin(t.attempts[..n - 1], business, lo, hi, last.at);
      } else {
        LimitHolds(t, n - 1, business, lo, hi);
      }
    }
  }

  /** Within less than a minute of a success, all other successes are in the window it was checked against. */
  lemma {:induction false} SuccessesWithin(attempts: seq<Attempt>, business: int, lo: nat, hi: nat, at: nat)
    requires lo <= at <= hi < lo + MINUTE
    ensures Successes(attempts, business, lo, hi) <= Recent(attempts, business, at)
  {
    if attempts == [] {
    } else {
      SuccessesWithin(attempts[..|attempts| - 1], business, lo, hi, at);
    }
  }

  /**
   * In every run, and whatever other attempts are mixed in, a business has at most eleven successful
   * verifications in any interval shorter than a minute: [a, a + 60s) and (a, a + 60s] alike. The attempt ids are
   * 32-bit, so the log never outgrows the cast of the count.
   */
  lemma {:induction false} BusinessLimit(w: World, sha256Hex: string -> string, s0: State, events: seq<Event>,
                                         business: int, lo: nat, hi: nat)
    requires Initial(s0) && hi < lo + MINUTE
    requires |Play(w, sha256Hex, Fresh(s0), events).t.attempts| <= 0x8000_0000
    ensures Successes(Play(w, sha256Hex, Fresh(s0), events).t.attempts, business, lo, hi) <= 11
  {
    hide Initial, Inv, Play, AttemptValid, TokenValid;
    FreshConsistent(w, s0);
    PlayConsistent(w, sha256Hex, Fresh(s0), events);
    var t := Play(w, sha256Hex, Fresh(s0), events).t;
    LimitHolds(t, |t.attempts|, business, lo, hi);
    assert t.attempts[..|t.attempts|] == t.attempts;
  }

  // ---- one success per token ----

  /** In every run no two log entries are successes of one token. */
  lemma {:induction false} AtMostOneSuccess(w: World, sha256Hex: string -> string, s0: State, events: seq<Event>,
                                            i: nat, j: nat, id: nat)
    requires Initial(s0)
    requires var log := Play(w, sha256Hex, Fresh(s0), events).t.attempts; i < j < |log| && Succeeded(log[i], id)
    ensures !Succeeded(Play(w, sha256Hex, Fresh(s0), events).t.attempts[j], id)
  {
    hide Initial, Inv, Play, AttemptValid, TokenValid;
    FreshConsistent(w, s0);
    PlayConsistent(w, sha256Hex, Fresh(s0), events);
  }

  /** Verified, revoked, or past its expiry. */
  predicate Dead(s: Sys, id: nat) {
    && id < |s.t.tokens|
    && (s.t.tokens[id].verifiedAt.Some? || s.t.tokens[id].revokedAt.Some? || s.p.clock > s.t.tokens[id].expiresAt)
  }

  /** The log of `s'` extends that of `s` by entries none of which is a success of `id`. */
  predicate NoNewSuccess(s: Sys, s': Sys, id: nat) {
    && s.t.attempts <= s'.t.attempts
    && forall j :: |s.t.attempts| <= j < |s'.t.attempts| ==> !Succeeded(s'.t.attempts[j], id)
  }

  lemma {:induction false} DeadStep(w: World, sha256Hex: string -> string, s: Sys, e: Event, id: nat)
    requires Consistent(w, s) && Dead(s, id)
    ensures var s' := Next(w, sha256Hex, s, e); Dead(s', id) && NoNewSuccess(s, s', id)
  {
    hide Inv, AttemptValid, TokenValid, OncePerToken, FindHash, Recent, Exec, S.FindLive;
    match e
    case Pipeline(timed) => StepSafe(w, s.p, timed);
    case IssueIt(delay, uid, scope, business, raw) =>
    case RevokeIt(delay, id, uid) =>
    case VerifyIt(delay, raw, client) =>
      var now := Later(s.p, delay).clock;
      if Verify(s.t, sha256Hex(raw), client, now).Ok? {
        VerifyLogs(s.t, sha256Hex(raw), client, now);
      }
  }

  /** No token ever succeeds after it was verified, revoked or expired, in any continuation. */
  lemma {:induction false} NeverAgain(w: World, sha256Hex: string -> string, s: Sys, events: seq<Event>, id: nat)
    requires Consistent(w, s) && Dead(s, id)
    ensures var s' := Play(w, sha256Hex, s, events); Dead(s', id) && NoNewSuccess(s, s', id)
  {
    hide Consistent, Dead, Next;
    if events == [] {
    } else {
      var before := Play(w, sha256Hex, s, events[..|events| - 1]);
      NeverAgain(w, sha256Hex, s, events[..|events| - 1], id);
      PlayConsistent(w, sha256Hex, s, events[..|events| - 1]);
      DeadStep(w, sha256Hex, before, events[|events| - 1], id);
    }
  }

  // ---- who may change a token ----

  function Now(s: Sys, e: Event): nat { s.p.clock + (if e.Pipeline? then e.timed.delay else e.delay) }

  /**
   * A token is revoked only by its own user, and marked verified only by a presentation of its raw form while it is
   * unexpired, unverified and unrevoked.
   */
  predicate TokenChange(sha256Hex: string -> string, s: Sys, e: Event, i: nat, t: Token, t': Token) {
    || t' == t
    || (e.RevokeIt? && e.id == i && e.uid == t.user && t' == t.(revokedAt := Some(Micros(Now(s, e)))))
    || (e.VerifyIt? && sha256Hex(e.raw) == t.hash && Now(s, e) <= t.expiresAt && t.verifiedAt.None?
        && t.revokedAt.None? && t' == t.(verifiedAt := Some(Micros(Now(s, e)))))
  }

  lemma {:induction false} DeskAuthority(w: World, sha256Hex: string -> string, s: Sys, e: Event, i: nat)
    requires i < |s.t.tokens|
    ensures var s' := Next(w, sha256Hex, s, e);
            i < |s'.t.tokens| && TokenChange(sha256Hex, s, e, i, s.t.tokens[i], s'.t.tokens[i])
  {
    hide FindHash, Recent, Step, S.FindLive;
  }

  /**
   * A token is issued only on the request of an admitted user, to that user, over a soultoken of theirs that is
   * live now.
   */
  lemma {:induction false} DeskIssues(w: World, sha256Hex: string -> string, s: Sys, e: Event, i: nat)
    requires |s.t.tokens| <= i < |Next(w, sha256Hex, s, e).t.tokens|
    ensures e.IssueIt? && Admitted(s.p.users, e.uid).Ok?
    ensures var token := Next(w, sha256Hex, s, e).t.tokens[i];
            && token.user == e.uid && token.hash == sha256Hex(e.raw)
            && token.soultoken < |s.p.tokens| && S.Live(s.p.tokens[token.soultoken], e.uid, Now(s, e))
            && token.expiresAt == Micros(Now(s, e)) + LIFETIME && token.verifiedAt.None? && token.revokedAt.None?
  {
    MicrosPlus(Now(s, e), LIFETIME / 1000);
    hide FindHash, Recent, Step, S.Live;
  }

  // ---- the life of a token ----

  /** The entry the last presentation logged. */
  predicate LastOutcome(s: Sys, id: nat, business: Option<int>, outcome: Outcome) {
    && |s.t.attempts| > 0
    && var a := s.t.attempts[|s.t.attempts| - 1]; a.token == Some(id) && a.business == business && a.outcome == outcome
  }

  /**
   * A token just issued, presented by a business within its limit, verifies within 15 minutes of its issue and is
   * expired after.
   */
  lemma {:induction false} FreshTokenIff(w: World, sha256Hex: string -> string, s: Sys, issue: Event, verify: Event)
    requires issue.IssueIt? && verify.VerifyIt? && verify.raw == issue.raw
    requires forall i :: 0 <= i < |s.t.tokens| ==> s.t.tokens[i].hash != sha256Hex(issue.raw)
    requires var s1 := Next(w, sha256Hex, s, issue);
             && |s1.t.tokens| > |s.t.tokens| && |s1.t.attempts| < 0x8000_0000
             && (verify.client.Some? ==> |LastMinute(s1.t.attempts, verify.client, Now(s1, verify))| <= 10)
    ensures var s1 := Next(w, sha256Hex, s, issue);
            LastOutcome(Next(w, sha256Hex, s1, verify), |s.t.tokens|, verify.client,
                        if Now(s1, verify) <= Micros(s1.p.clock) + 15 * 60 * SECOND then Success else Expired)
  {
    var p := Later(s.p, issue.delay);
    DeskIssueAnswer(p, s.t, issue.uid, issue.scope, issue.business, sha256Hex(issue.raw));
    var s1 := Next(w, sha256Hex, s, issue);
    hide Issue, Verify, LastMinute, Admitted, Micros;
    OnlyHash(s1.t.tokens, |s.t.tokens|, sha256Hex(issue.raw));
    VerifyRefusedIff(s1.t, sha256Hex(verify.raw), verify.client, Now(s1, verify));
  }

  lemma {:induction false} OnlyHash(tokens: seq<Token>, id: nat, hash: string)
    requires id < |tokens| && tokens[id].hash == hash
    requires forall i :: 0 <= i < |tokens| && i != id ==> tokens[i].hash != hash
    ensures FindHash(tokens, hash) == Some(id)
  {
    hide FindHash;
  }

  /** A token its user has revoked is told as revoked, however soon it is presented, unless it was verified before. */
  lemma {:induction false} RevokedIsTold(w: World, sha256Hex: string -> string, s: Sys, id: nat, revoke: Event,
                                         verify: Event)
    requires revoke.RevokeIt? && revoke.id == id < |s.t.tokens| && revoke.uid == s.t.tokens[id].user
    requires verify.VerifyIt? && FindHash(s.t.tokens, sha256Hex(verify.raw)) == Some(id)
    requires var s1 := Next(w, sha256Hex, s, revoke);
             s.t.tokens[id].verifiedAt.None? && Now(s1, verify) <= s.t.tokens[id].expiresAt
    requires |s.t.attempts| < 0x8000_0000
    ensures LastOutcome(Next(w, sha256Hex, Next(w, sha256Hex, s, revoke), verify), id, verify.client, Revoked)
  {
    var s1 := Next(w, sha256Hex, s, revoke);
    RevokeMineAnswer(s.t, id, revoke.uid, Now(s, revoke));
    SameHashes(s.t.tokens, s1.t.tokens, sha256Hex(verify.raw));
    hide RevokeMine, Verify, LastMinute, FindHash, Micros;
    VerifyRefusedIff(s1.t, sha256Hex(verify.raw), verify.client, Now(s1, verify));
  }

  lemma {:induction false} SameHashes(tokens: seq<Token>, tokens': seq<Token>, hash: string)
    requires |tokens| == |tokens'| && forall i :: 0 <= i < |tokens| ==> tokens[i].hash == tokens'[i].hash
    ensures FindHash(tokens, hash) == FindHash(tokens', hash)
  {
    if tokens == [] {
    } else {
      SameHashes(tokens[..|tokens| - 1], tokens'[..|tokens| - 1], hash);
    }
  }

  // ---- what a success tells the business ----

  /**
   * In every run: when a token verifies, its user earned the attestation, and held the token's soultoken
   * unrevoked and unexpired at some moment of the last 15 minutes. (It may have been revoked since.)
   */
  lemma {:induction false} SuccessIsBacked(w: World, sha256Hex: string -> string, s0: State, events: seq<Event>,
                                           hash: string, business: Option<int>)
    requires Initial(s0)
    requires var s := Play(w, sha256Hex, Fresh(s0), events);
             var r := Verify(s.t, hash, business, s.p.clock);
             r.Ok? && r.value.1 == Success
    ensures var s := Play(w, sha256Hex, Fresh(s0), events);
            var found := FindHash(s.t.tokens, hash);
            && found.Some?
            && var token := s.t.tokens[found.value];
               && G.Earned(w, s.p, token.user)
               && token.soultoken < |s.p.tokens|
               && var st := s.p.tokens[token.soultoken];
                  && st.holder == token.user && st.kind == "user"
                  && (st.revokedAt.Some? ==> s.p.clock <= st.revokedAt.value + LIFETIME)
                  && s.p.clock < st.expiresAt + LIFETIME
  {
    hide Initial, Inv, Play, AttemptValid, OncePerToken, FindHash, Recent, G.Earned, ApprovedFor;
    FreshConsistent(w, s0);
    PlayConsistent(w, sha256Hex, Fresh(s0), events);
    var s := Play(w, sha256Hex, Fresh(s0), events);
    var token := s.t.tokens[FindHash(s.t.tokens, hash).value];
    assert TokenValid(s.p, token);
    assert G.HoldsToken(s.p, token.user);
    G.AttestedOrHolder(w, s.p, token.user);
    G.ApprovedIsEarned(w, s.p, token.user);
  }

  // ---- the desk as it runs ----

  /** The service, one database statement after another, with the effect of the functions above. */
  class TokenDesk {
    const db: Database
    var tokens: seq<Token>
    var attempts: seq<Attempt>

    function Contents(): Tables
      reads this
    {
      Tables(tokens, attempts)
    }

    function System(): Sys
      reads this, db
    {
      Sys(db.Snapshot(), Contents())
    }

    constructor (db: Database)
      ensures this.db == db && Contents() == Tables([], [])
    {
      this.db := db;
      tokens, attempts := [], [];
    }

    method Record(hash: string, token: Option<nat>, business: Option<int>, outcome: Outcome, now: nat)
      modifies this`attempts
      ensures Contents() == Log(old(Contents()), hash, token, business, outcome, now)
    {
      attempts := attempts + [Attempt(hash, token, business, outcome, Micros(now))];
    }

    method VerifyToken(sha256Hex: string -> string, raw: string, business: Option<int>, now: nat)
      returns (r: Result<Outcome>)
      modifies this
      ensures match Verify(old(Contents()), sha256Hex(raw), business, now)
              case Ok((after, outcome)) => r == Ok(outcome) && Contents() == after
              case Err(e) => r == Err(e) && Contents() == old(Contents())
    {
      hide FindHash, Recent;
      var hash := sha256Hex(raw);
      var found := FindHash(tokens, hash);
      if found.None? {
        Record(hash, None, business, Unknown, now);
        return Ok(Unknown);
      }
      var token := tokens[found.value];
      if now > token.expiresAt {
        Record(hash, found, business, Expired, now);
        return Ok(Expired);
      }
      if token.verifiedAt.Some? {
        Record(hash, found, business, AlreadyVerified, now);
        return Ok(AlreadyVerified);
      }
      if token.revokedAt.Some? {
        Record(hash, found, business, Revoked, now);
        return Ok(Revoked);
      }
      if business.Some? {
        var recent := AsI32(Recent(attempts, business.value, now));
        if recent > 10 {
          return Err(InvalidInput);
        }
      }
      tokens := tokens[found.value := token.(verifiedAt := Some(Micros(now)))];
      Record(hash, found, business, Success, now);
      return Ok(Success);
    }

    method RevokeMyToken(id: nat, uid: int, now: nat) returns (r: Result<()>)
      modifies this`tokens
      ensures match RevokeMine(old(Contents()), id, uid, now)
              case Ok(after) => r == Ok(()) && Contents() == after
              case Err(e) => r == Err(e) && Contents() == old(Contents())
    {
      if id >= |tokens| || tokens[id].user != uid {
        return Err(NotFound);
      }
      tokens := tokens[id := tokens[id].(revokedAt := Some(Micros(now)))];
      return Ok(());
    }

    method IssueToken(p: State, sha256Hex: string -> string, uid: int, scope: string, business: Option<nat>,
                      raw: string)
      returns (r: Result<nat>)
      modifies this`tokens
      ensures match Issue(p, old(Contents()), uid, scope, business, sha256Hex(raw))
              case Ok(after) => r == Ok(|old(tokens)|) && Contents() == after
              case Err(e) => r == Err(e) && Contents() == old(Contents())
    {
      var user := Admitted(p.users, uid);
      if user.Err? {
        return Err(user.error);
      }
      var live := S.FindLive(p.tokens, uid, p.clock);
      if live.None? {
        return Err(NotFound);
      }
      if scope != "presence.verified" {
        return Err(InvalidInput);
      }
      if business.Some? {
        if business.value >= |p.tokens| {
          return Err(NotFound);
        }
        if p.tokens[business.value].revokedAt.Some? {
          return Err(InvalidInput);
        }
      }
      r := Ok(|tokens|);
      tokens := tokens + [Token(uid, live.value, sha256Hex(raw), Micros(p.clock), Micros(p.clock + LIFETIME), None,
                                None)];
    }

    /** One request, to the pipeline or to this desk. */
    method Execute(sha256Hex: string -> string, e: Event)
      modifies this, db
      ensures System() == Next(db.world, sha256Hex, old(System()), e)
      ensures Consistent(db.world, old(System())) ==> Consistent(db.world, System())
    {
      hide Verify, Issue, RevokeMine, Step, Consistent;
      ghost var before := System();
      match e {
        case Pipeline(timed) =>
          var _ := db.Execute(timed);
        case IssueIt(delay, uid, scope, business, raw) =>
          db.Tick(delay);
          var _ := IssueToken(db.Snapshot(), sha256Hex, uid, scope, business, raw);
        case VerifyIt(delay, raw, client) =>
          db.Tick(delay);
          var _ := VerifyToken(sha256Hex, raw, client, db.clock);
        case RevokeIt(delay, id, uid) =>
          db.Tick(delay);
          var _ := RevokeMyToken(id, uid, db.clock);
      }
      if Consistent(db.world, before) {
        NextConsistent(db.world, sha256Hex, before, e);
      }
    }

    method Serve(sha256Hex: string -> string, events: seq<Event>)
      modifies this, db
      ensures System() == Play(db.world, sha256Hex, old(System()), events)
    {
      hide Next, Consistent;
      ghost var before := System();
      assert events[..0] == [];
      for i := 0 to |events|
        invariant System() == Play(db.world, sha256Hex, before, events[..i])
      {
        Execute(sha256Hex, events[i]);
        assert events[..i + 1][..i] == events[..i];
      }
      assert events[..|events|] == events;
    }
  }

  /** A new desk over a new database that serves any requests: the limit holds, and no token succeeds twice. */
  method Operate(w: World, registered: map<int, User>, sha256Hex: string -> string, events: seq<Event>)
    returns (desk: TokenDesk)
    requires forall u :: u in registered ==> registered[u].status == Registered && registered[u].soultoken.None?
    ensures fresh(desk) && fresh(desk.db)
    ensures |desk.attempts| <= 0x8000_0000 ==>
              forall business, lo: nat, hi: nat :: hi < lo + MINUTE ==> Successes(desk.attempts, business, lo, hi) <= 11
    ensures OncePerToken(desk.attempts)
  {
    hide Initial, Play, Inv, AttemptValid, TokenValid, Successes;
    var db := new Database(w, registered);
    desk := new TokenDesk(db);
    ghost var s0 := db.Snapshot();
    FreshConsistent(w, s0);
    desk.Serve(sha256Hex, events);
    PlayConsistent(w, sha256Hex, Fresh(s0), events);
    if |desk.attempts| <= 0x8000_0000 {
      forall business, lo: nat, hi: nat | hi < lo + MINUTE ensures Successes(desk.attempts, business, lo, hi) <= 11 {
        BusinessLimit(w, sha256Hex, s0, events, business, lo, hi);
      }
    }
  }
}
