/** Magic-link sign-in: one-time links, the single statement that claims one, and the daily pruning. */
module MagicLinks {
  import opened Common

  /** A `magic_link_tokens` row. */
  datatype Link = Link(user: int, hash: string, expiresAt: nat, usedAt: Option<nat>)

  datatype Account = Account(banned: bool, verified: bool)

  datatype Tables = Tables(accounts: map<int, Account>, links: seq<Link>)

  const LIFETIME: nat := 900 * SECOND

  predicate Claimable(l: Link, hash: string, now: nat) { l.hash == hash && IsLive(l, now) }

  /** Unused and unexpired at database time `now`. */
  predicate IsLive(l: Link, now: nat) { l.usedAt.None? && l.expiresAt > Micros(now) }

  /** The UPDATE that stamps every matching row. */
  function Claim(links: seq<Link>, hash: string, now: nat): (r: seq<Link>)
    ensures |r| == |links|
  {
    if links == [] then []
    else
      var last := links[|links| - 1];
      var rest := Claim(links[..|links| - 1], hash, now);
      rest + [if Claimable(last, hash, now) then last.(usedAt := Some(Micros(now))) else last]
  }

  /** The user of the first row it returns. */
  function Winner(links: seq<Link>, hash: string, now: nat): Option<int> {
    if links == [] then None
    else
      var earlier := Winner(links[..|links| - 1], hash, now);
      if earlier.Some? then earlier
      else if Claimable(links[|links| - 1], hash, now) then Some(links[|links| - 1].user) else None
  }

  predicate Outlived(l: Link, now: nat) {
    (l.usedAt.Some? && l.usedAt.value + HOUR < Micros(now)) || l.expiresAt + DAY < Micros(now)
  }

  /** `prune_expired_magic_links` */
  function Prune(links: seq<Link>, now: nat): seq<Link> {
    if links == [] then []
    else
      var last := links[|links| - 1];
      var rest := Prune(links[..|links| - 1], now);
      if Outlived(last, now) then rest else rest + [last]
  }

  /** `request_magic_link` for the account of an e-mail address, created if new; banned accounts get nothing. */
  function Request(t: Tables, uid: int, hash: string, now: nat): Tables {
    var accounts := if uid in t.accounts then t.accounts else t.accounts[uid := Account(false, true)];
    if accounts[uid].banned then Tables(accounts, t.links)
    else Tables(accounts, t.links + [Link(uid, hash, Micros(now + LIFETIME), None)])
  }

  /** `verify_magic_link`: not one transaction, so the claim stays even when the account is refused. */
  function Verify(t: Tables, hash: string, now: nat): (Tables, Result<int>) {
    var winner, links := Winner(t.links, hash, now), Claim(t.links, hash, now);
    if winner.None? then (t.(links := links), Err(Unauthorized))
    else if winner.value !in t.accounts then (t.(links := links), Err(Unauthorized))
    else if t.accounts[winner.value].banned then (t.(links := links), Err(Forbidden))
    else (Tables(t.accounts[winner.value := t.accounts[winner.value].(verified := true)], links), Ok(winner.value))
  }

  // ---- what each operation is answered, and what it does ----

  /** Unused, unexpired, and of this hash. */
  predicate Matches(l: Link, hash: string, now: nat) {
    l.hash == hash && l.usedAt.None? && Micros(now) < l.expiresAt
  }

  /** A claim stamps exactly the matching links, with the time of the claim. */
  lemma {:induction false} ClaimStamps(links: seq<Link>, hash: string, now: nat, i: nat)
    requires i < |links|
    ensures Claim(links, hash, now)[i]
         == if Matches(links[i], hash, now) then links[i].(usedAt := Some(Micros(now))) else links[i]
  {
    var n := |links| - 1;
    if i < n {
      ClaimStamps(links[..n], hash, now, i);
      assert Claim(links, hash, now)[i] == Claim(links[..n], hash, now)[i];
    }
  }

  /** The first matching link decides whose sign-in it is. */
  lemma {:induction false} WinnerIsFirst(links: seq<Link>, hash: string, now: nat, i: nat)
    requires i <= |links| && forall j :: 0 <= j < i ==> !Matches(links[j], hash, now)
    ensures i < |links| && Matches(links[i], hash, now) ==> Winner(links, hash, now) == Some(links[i].user)
    ensures i == |links| ==> Winner(links, hash, now).None?
  {
    var n := |links| - 1;
    if 0 <= i < n {
      WinnerIsFirst(links[..n], hash, now, i);
    } else if n >= 0 {
      WinnerIsFirst(links[..n], hash, now, n);
    }
  }

  /** Pruning keeps every link, in every number, but those used over an hour ago or expired over a day ago. */
  lemma {:induction false} PruneKeeps(links: seq<Link>, now: nat, l: Link)
    ensures multiset(Prune(links, now))[l]
         == if (l.usedAt.Some? && Micros(now) > l.usedAt.value + 3600 * SECOND)
               || Micros(now) > l.expiresAt + 86_400 * SECOND
            then 0 else multiset(links)[l]
  {
    if links == [] {
    } else {
      var rest, last := links[..|links| - 1], links[|links| - 1];
      PruneKeeps(rest, now, l);
      assert links == rest + [last];
    }
  }

  /**
   * A request adds one link for the account, good for 15 minutes, unless the account is banned; a new account is
   * not.
   */
  lemma {:induction false} RequestEffect(t: Tables, uid: int, hash: string, now: nat)
    ensures var t' := Request(t, uid, hash, now);
            && t'.accounts.Keys == t.accounts.Keys + {uid}
            && (forall u :: u in t.accounts ==> t'.accounts[u] == t.accounts[u])
            && (uid !in t.accounts ==> t'.accounts[uid] == Account(false, true))
            && t'.links == if uid in t.accounts && t.accounts[uid].banned then t.links
                           else t.links + [Link(uid, hash, Micros(now) + 15 * 60 * SECOND, None)]
  {
    MicrosPlus(now, 15 * 60 * 1_000_000);
    hide Micros;
  }

  /**
   * A verification is answered by its first matching link: refused without one or without its account, forbidden
   * if that is banned, and else signs it in. In every case the matching links are used up.
   */
  lemma {:induction false} VerifyAnswer(t: Tables, hash: string, now: nat, i: nat)
    requires i <= |t.links| && forall j :: 0 <= j < i ==> !Matches(t.links[j], hash, now)
    requires i < |t.links| ==> Matches(t.links[i], hash, now)
    ensures var (t', r) := Verify(t, hash, now);
            && r == (if i == |t.links| || t.links[i].user !in t.accounts then Err(Unauthorized)
                     else if t.accounts[t.links[i].user].banned then Err(Forbidden)
                     else Ok(t.links[i].user))
            && t'.accounts == (if r.Ok? then t.accounts[r.value := t.accounts[r.value].(verified := true)]
                               else t.accounts)
            && |t'.links| == |t.links|
            && forall j :: 0 <= j < |t.links| ==>
                 t'.links[j] == if Matches(t.links[j], hash, now) then t.links[j].(usedAt := Some(Micros(now)))
                                else t.links[j]
  {
    WinnerIsFirst(t.links, hash, now, i);
    forall j | 0 <= j < |t.links|
      ensures Claim(t.links, hash, now)[j]
           == if Matches(t.links[j], hash, now) then t.links[j].(usedAt := Some(Micros(now))) else t.links[j]
    {
      ClaimStamps(t.links, hash, now, j);
    }
    hide Claim, Winner, Matches;
  }

  /** Links are found by the SHA-256 of their token, in hex: `hash`. */
  class LinkStore {
    var accounts: map<int, Account>
    var links: seq<Link>

    function Contents(): Tables
      reads this
    {
      Tables(accounts, links)
    }

    constructor (registered: map<int, Account>)
      ensures Contents() == Tables(registered, [])
    {
      accounts, links := registered, [];
    }

    method RequestLink(uid: int, hash: string, now: nat)
      modifies this
      ensures Contents() == Request(old(Contents()), uid, hash, now)
    {
      if uid !in accounts {
        accounts := accounts[uid := Account(false, true)];
      }
      if accounts[uid].banned {
        return;
      }
      links := links + [Link(uid, hash, Micros(now + LIFETIME), None)];
    }

    method VerifyLink(hash: string, now: nat) returns (r: Result<int>)
      modifies this
      ensures (Contents(), r) == Verify(old(Contents()), hash, now)
    {
      hide Winner, Claim;
      var claimed := Winner(links, hash, now);
      links := Claim(links, hash, now);
      if claimed.None? {
        return Err(Unauthorized);
      }
      var uid := claimed.value;
      if uid !in accounts {
        return Err(Unauthorized);
      }
      if accounts[uid].banned {
        return Err(Forbidden);
      }
      if !accounts[uid].verified {
        accounts := accounts[uid := accounts[uid].(verified := true)];
      }
      assert accounts == old(accounts)[uid := old(accounts)[uid].(verified := true)];
      return Ok(uid);
    }

    method SetBanned(uid: int, banned: bool)
      modifies this`accounts
      ensures accounts == if uid in old(accounts) then old(accounts)[uid := old(accounts)[uid].(banned := banned)]
                else old(accounts)
    {
      if uid in accounts {
        accounts := accounts[uid := accounts[uid].(banned := banned)];
      }
    }

    method PruneExpired(now: nat)
      modifies this`links
      ensures links == Prune(old(links), now)
    {
      links := Prune(links, now);
    }
  }

  // ---- runs ----

  datatype Op = Tick(delay: nat) | Requesting(uid: int, hash: string) | Verifying(hash: string)
              | Banning(uid: int, banned: bool) | Pruning

  datatype State = State(now: nat, t: Tables, results: seq<Result<int>>)

  function Step(s: State, op: Op): State {
    match op
    case Tick(delay) => s.(now := s.now + delay)
    case Requesting(uid, hash) => s.(t := Request(s.t, uid, hash, s.now))
    case Verifying(hash) => var (t, r) := Verify(s.t, hash, s.now); State(s.now, t, s.results + [r])
    case Banning(uid, banned) =>
      var accounts := s.t.accounts;
      if uid !in accounts then s else s.(t := s.t.(accounts := accounts[uid := accounts[uid].(banned := banned)]))
    case Pruning => s.(t := s.t.(links := Prune(s.t.links, s.now)))
  }

  function Play(s: State, ops: seq<Op>): State {
    if ops == [] then s else Step(Play(s, ops[..|ops| - 1]), ops[|ops| - 1])
  }

  function WithoutPruning(ops: seq<Op>): seq<Op> {
    if ops == [] then []
    else
      var rest := WithoutPruning(ops[..|ops| - 1]);
      if ops[|ops| - 1].Pruning? then rest else rest + [ops[|ops| - 1]]
  }

  // ---- the live links decide everything ----

  function Live(links: seq<Link>, now: nat): seq<Link> {
    if links == [] then []
    else
      var rest := Live(links[..|links| - 1], now);
      if IsLive(links[|links| - 1], now) then rest + [links[|links| - 1]] else rest
  }

  function Except(links: seq<Link>, hash: string): seq<Link> {
    if links == [] then []
    else
      var rest := Except(links[..|links| - 1], hash);
      if links[|links| - 1].hash == hash then rest else rest + [links[|links| - 1]]
  }

  lemma {:induction false} PruneKeepsLive(links: seq<Link>, now: nat)
    ensures Live(Prune(links, now), now) == Live(links, now)
  {
    if links == [] {
    } else {
      var rest, last := links[..|links| - 1], links[|links| - 1];
      PruneKeepsLive(rest, now);
      if !Outlived(last, now) {
        assert (Prune(rest, now) + [last])[..|Prune(rest, now)|] == Prune(rest, now);
      }
    }
  }

  lemma {:induction false} LiveLater(links: seq<Link>, now: nat, later: nat)
    requires now <= later
    ensures Live(Live(links, now), later) == Live(links, later)
  {
    if links == [] {
    } else {
      var rest, last := links[..|links| - 1], links[|links| - 1];
      MicrosMonotone(now, later);
      LiveLater(rest, now, later);
      if IsLive(last, now) {
        assert (Live(rest, now) + [last])[..|Live(rest, now)|] == Live(rest, now);
      }
    }
  }

  lemma {:induction false} WinnerIsLive(links: seq<Link>, hash: string, now: nat)
    ensures Winner(Live(links, now), hash, now) == Winner(links, hash, now)
  {
    if links == [] {
    } else {
      var rest, last := links[..|links| - 1], links[|links| - 1];
      WinnerIsLive(rest, hash, now);
      if IsLive(last, now) {
        assert (Live(rest, now) + [last])[..|Live(rest, now)|] == Live(rest, now);
      }
    }
  }

  /** Claiming removes the links of this hash from the live ones, and no others. */
  lemma {:induction false} ClaimKillsLive(links: seq<Link>, hash: string, now: nat)
    ensures Live(Claim(links, hash, now), now) == Except(Live(links, now), hash)
  {
    if links == [] {
    } else {
      var rest, last := links[..|links| - 1], links[|links| - 1];
      ClaimKillsLive(rest, hash, now);
      assert Claim(links, hash, now)[..|links| - 1] == Claim(rest, hash, now);
      if IsLive(last, now) {
        assert (Live(rest, now) + [last])[..|Live(rest, now)|] == Live(rest, now);
      }
    }
  }

  lemma {:induction false} LiveAppend(links: seq<Link>, l: Link, now: nat)
    ensures Live(links + [l], now) == if IsLive(l, now) then Live(links, now) + [l] else Live(links, now)
  {
    assert (links + [l])[..|links|] == links;
  }

  // ---- cleanup is invisible ----

  /** Same clock, accounts and answers, and the same live links. */
  predicate Alike(a: State, b: State) {
    a.now == b.now && a.t.accounts == b.t.accounts && a.results == b.results &&
        Live(a.t.links, a.now) == Live(b.t.links, b.now)
  }

  lemma {:induction false} AlikeStep(a: State, b: State, op: Op)
    requires Alike(a, b)
    ensures Alike(Step(a, op), Step(b, op))
  {
    hide Live, Winner, Claim, Prune, IsLive;
    match op
    case Tick(delay) =>
      LiveLater(a.t.links, a.now, a.now + delay);
      LiveLater(b.t.links, b.now, b.now + delay);
    case Requesting(uid, hash) =>
      var l := Link(uid, hash, Micros(a.now + LIFETIME), None);
      LiveAppend(a.t.links, l, a.now);
      LiveAppend(b.t.links, l, b.now);
    case Verifying(hash) =>
      WinnerIsLive(a.t.links, hash, a.now);
      WinnerIsLive(b.t.links, hash, b.now);
      ClaimKillsLive(a.t.links, hash, a.now);
      ClaimKillsLive(b.t.links, hash, b.now);
    case Banning(_, _) =>
    case Pruning =>
      PruneKeepsLive(a.t.links, a.now);
      PruneKeepsLive(b.t.links, b.now);
  }

  lemma {:induction false} PruningIsAlike(s: State)
    ensures Alike(Step(s, Pruning), s)
  {
    PruneKeepsLive(s.t.links, s.now);
  }

  lemma {:induction false} PlaysAlike(s: State, ops: seq<Op>)
    ensures Alike(Play(s, ops), Play(s, WithoutPruning(ops)))
  {
    hide Alike, Step;
    if ops == [] {
      assert Alike(s, s) by { AlikeSelf(s); }
    } else {
      var rest, last := ops[..|ops| - 1], ops[|ops| - 1];
      PlaysAlike(s, rest);
      var a, b := Play(s, rest), Play(s, WithoutPruning(rest));
      if last.Pruning? {
        PruningIsAlike(a);
        AlikeTrans(Step(a, last), a, b);
      } else {
        AlikeStep(a, b, last);
        assert (WithoutPruning(rest) + [last])[..|WithoutPruning(rest)|] == WithoutPruning(rest);
      }
    }
  }

  lemma {:induction false} AlikeSelf(s: State)
    ensures Alike(s, s)
  {
  }

  lemma {:induction false} AlikeTrans(a: State, b: State, c: State)
    requires Alike(a, b) && Alike(b, c)
    ensures Alike(a, c)
  {
  }

  /**
   * Cleanup never changes an answer: pruning at any points of a run leaves every verification result as it is
   * without.
   */
  lemma {:induction false} PruningIsInvisible(s: State, ops: seq<Op>)
    ensures Play(s, ops).results == Play(s, WithoutPruning(ops)).results
  {
    hide Step;
    PlaysAlike(s, ops);
  }

  // ---- one claim per link ----

  function CountHash(links: seq<Link>, hash: string): nat {
    if links == [] then 0
    else
      var earlier := CountHash(links[..|links| - 1], hash);
      if links[|links| - 1].hash == hash then earlier + 1 else earlier
  }

  function Requests(ops: seq<Op>, hash: string): nat {
    if ops == [] then 0
    else Requests(ops[..|ops| - 1], hash)
         + (if ops[|ops| - 1].Requesting? && ops[|ops| - 1].hash == hash then 1 else 0)
  }

  /** The verifications of this hash in the run that claimed a link. */
  function Claims(s: State, ops: seq<Op>, hash: string): nat {
    if ops == [] then 0
    else
      var before := Play(s, ops[..|ops| - 1]);
      Claims(s, ops[..|ops| - 1], hash)
      + (if ops[|ops| - 1] == Verifying(hash) && Winner(before.t.links, hash, before.now).Some? then 1 else 0)
  }

  lemma {:induction false} FewerLater(links: seq<Link>, now: nat, later: nat, hash: string)
    requires now <= later
    ensures CountHash(Live(links, later), hash) <= CountHash(Live(links, now), hash)
  {
    if links == [] {
    } else {
      var rest, last := links[..|links| - 1], links[|links| - 1];
      FewerLater(rest, now, later, hash);
      MicrosMonotone(now, later);
      CountAppend(Live(rest, now), last, hash);
      CountAppend(Live(rest, later), last, hash);
    }
  }

  lemma {:induction false} CountAppend(links: seq<Link>, l: Link, hash: string)
    ensures CountHash(links + [l], hash) == CountHash(links, hash) + (if l.hash == hash then 1 else 0)
  {
    assert (links + [l])[..|links|] == links;
  }

  lemma {:induction false} ExceptCount(links: seq<Link>, removed: string, hash: string)
    ensures CountHash(Except(links, removed), hash) == if hash == removed then 0 else CountHash(links, hash)
  {
    if links == [] {
    } else {
      ExceptCount(links[..|links| - 1], removed, hash);
      CountAppend(Except(links[..|links| - 1], removed), links[|links| - 1], hash);
    }
  }

  lemma {:induction false} WinnerCounts(links: seq<Link>, hash: string, now: nat)
    requires Winner(links, hash, now).Some?
    ensures CountHash(links, hash) >= 1
  {
    if Winner(links[..|links| - 1], hash, now).Some? {
      WinnerCounts(links[..|links| - 1], hash, now);
    }
  }

  /** A step claims at most what is live, and only a request adds live links. */
  lemma {:induction false} BudgetStep(s: State, op: Op, hash: string)
    ensures CountHash(Live(Step(s, op).t.links, Step(s, op).now), hash)
            + (if op == Verifying(hash) && Winner(s.t.links, hash, s.now).Some? then 1 else 0)
         <= CountHash(Live(s.t.links, s.now), hash) + (if op.Requesting? && op.hash == hash then 1 else 0)
  {
    hide Live, Winner, Claim, Prune, IsLive, CountHash, Except;
    match op
    case Tick(delay) => FewerLater(s.t.links, s.now, s.now + delay, hash);
    case Requesting(uid, requested) =>
      var l := Link(uid, requested, Micros(s.now + LIFETIME), None);
      LiveAppend(s.t.links, l, s.now);
      CountAppend(Live(s.t.links, s.now), l, hash);
    case Verifying(claimed) =>
      ClaimKillsLive(s.t.links, claimed, s.now);
      ExceptCount(Live(s.t.links, s.now), claimed, hash);
      if claimed == hash && Winner(s.t.links, hash, s.now).Some? {
        WinnerIsLive(s.t.links, hash, s.now);
        WinnerCounts(Live(s.t.links, s.now), hash, s.now);
      }
    case Banning(_, _) =>
    case Pruning => PruneKeepsLive(s.t.links, s.now);
  }

  lemma {:induction false} Budget(s: State, ops: seq<Op>, hash: string)
    requires s.t.links == []
    ensures Claims(s, ops, hash) + CountHash(Live(Play(s, ops).t.links, Play(s, ops).now), hash) <= Requests(ops, hash)
  {
    hide Live, Winner, Step, CountHash;
    if ops == [] {
      NoLinks(s.now, hash);
    } else {
      Budget(s, ops[..|ops| - 1], hash);
      BudgetStep(Play(s, ops[..|ops| - 1]), ops[|ops| - 1], hash);
    }
  }

  lemma {:induction false} NoLinks(now: nat, hash: string)
    ensures CountHash(Live([], now), hash) == 0
  {
  }

  /**
   * Each link is claimed at most once, however verifications, expiry and pruning interleave: a token hash is
   * claimed at most as often as a link with it was requested.
   */
  lemma {:induction false} ClaimedAtMostOnce(s: State, ops: seq<Op>, hash: string)
    requires s.t.links == []
    ensures Claims(s, ops, hash) <= Requests(ops, hash)
  {
    hide Live, CountHash, Claims, Requests, Play;
    Budget(s, ops, hash);
  }

  /** A sign-in claims: right after it, the same token claims nothing. */
  lemma {:induction false} NothingLeft(t: Tables, hash: string, now: nat)
    ensures Verify(Verify(t, hash, now).0, hash, now).1 == Err(Unauthorized)
  {
    hide Winner, Claim, Live;
    ClaimKillsLive(t.links, hash, now);
    WinnerIsLive(Claim(t.links, hash, now), hash, now);
    ExceptHasNoWinner(Live(t.links, now), hash, now);
  }

  lemma {:induction false} ExceptHasNoWinner(links: seq<Link>, hash: string, now: nat)
    ensures Winner(Except(links, hash), hash, now).None?
  {
    if links == [] {
    } else {
      var rest, last := Except(links[..|links| - 1], hash), links[|links| - 1];
      ExceptHasNoWinner(links[..|links| - 1], hash, now);
      assert (rest + [last])[..|rest|] == rest;
    }
  }

  // ---- how long a link is good ----

  lemma {:induction false} PlayThree(s: State, a: Op, b: Op, c: Op)
    ensures Play(s, [a, b, c]) == Step(Step(Step(s, a), b), c)
  {
    hide Step, Play;
    PlayNone(s);
    PlayOne(s, [], a);
    PlayOne(s, [a], b);
    PlayOne(s, [a, b], c);
    assert [] + [a] == [a] && [a] + [b] == [a, b] && [a, b] + [c] == [a, b, c];
  }

  /** A link requested for an account that is not banned signs it in when used within 15 minutes, and not after. */
  lemma {:induction false} FifteenMinutesIff(s: State, uid: int, hash: string, delay: nat)
    requires forall l :: l in s.t.links ==> l.hash != hash
    requires uid in s.t.accounts ==> !s.t.accounts[uid].banned
    ensures var s' := Play(s, [Requesting(uid, hash), Tick(delay), Verifying(hash)]);
            && s'.now == s.now + delay
            && s'.results == s.results + [if Micros(s.now + delay) < Micros(s.now) + 15 * 60 * SECOND then Ok(uid)
                                          else Err(Unauthorized)]
  {
    PlayThree(s, Requesting(uid, hash), Tick(delay), Verifying(hash));
    RequestEffect(s.t, uid, hash, s.now);
    var t1 := Request(s.t, uid, hash, s.now);
    hide Play, Request, Verify, Micros;
    var n := |s.t.links|;
    assert t1.links[n] == Link(uid, hash, Micros(s.now) + 15 * 60 * SECOND, None);
    assert forall j :: 0 <= j < n ==> t1.links[j] == s.t.links[j] && !Matches(t1.links[j], hash, s.now + delay);
    VerifyAnswer(t1, hash, s.now + delay,
                 if Micros(s.now + delay) < Micros(s.now) + 15 * 60 * SECOND then n else n + 1);
  }

  // ---- a claim is spent even when the sign-in fails ----

  /** A verification claims a link and yet fails exactly when the link's account is missing or banned. */
  lemma {:induction false} SpentWithoutSignInIff(t: Tables, hash: string, now: nat)
    ensures var winner := Winner(t.links, hash, now);
            winner.Some? && Verify(t, hash, now).1.Err?
            <==> winner.Some? && (winner.value !in t.accounts || t.accounts[winner.value].banned)
  {
    hide Winner, Claim;
  }

  predicate NoRequest(ops: seq<Op>, hash: string) {
    forall op :: op in ops && op.Requesting? ==> op.hash != hash
  }

  lemma {:induction false} NoWinnerWithoutCount(links: seq<Link>, hash: string, now: nat)
    requires CountHash(links, hash) == 0
    ensures Winner(links, hash, now).None?
  {
    if Winner(links, hash, now).Some? {
      WinnerCounts(links, hash, now);
    }
  }

  lemma {:induction false} StaysSpent(s: State, ops: seq<Op>, hash: string)
    requires CountHash(Live(s.t.links, s.now), hash) == 0 && NoRequest(ops, hash)
    ensures CountHash(Live(Play(s, ops).t.links, Play(s, ops).now), hash) == 0
  {
    hide Live, CountHash, Step, Winner;
    if ops == [] {
    } else {
      assert ops == ops[..|ops| - 1] + [ops[|ops| - 1]];
      StaysSpent(s, ops[..|ops| - 1], hash);
      BudgetStep(Play(s, ops[..|ops| - 1]), ops[|ops| - 1], hash);
    }
  }

  /**
   * After any verification of a token, whatever it returned, the token is refused in every continuation
   * (a lifted ban included) in which no link with its hash is requested anew.
   */
  lemma {:induction false} RefusedUntilRequested(s: State, ops: seq<Op>, hash: string)
    requires NoRequest(ops, hash)
    ensures var later := Play(Step(s, Verifying(hash)), ops);
            Verify(later.t, hash, later.now).1 == Err(Unauthorized)
  {
    var s1 := Step(s, Verifying(hash));
    ClaimKillsLive(s.t.links, hash, s.now);
    ExceptCount(Live(s.t.links, s.now), hash, hash);
    StaysSpent(s1, ops, hash);
    hide Live, CountHash, Play, Winner, Claim;
    var later := Play(s1, ops);
    NoWinnerWithoutCount(Live(later.t.links, later.now), hash, later.now);
    WinnerIsLive(later.t.links, hash, later.now);
  }

  lemma {:induction false} PlayOne(s: State, ops: seq<Op>, op: Op)
    ensures Play(s, ops + [op]) == Step(Play(s, ops), op)
  {
    hide Step;
    assert (ops + [op])[..|ops|] == ops;
  }

  lemma {:induction false} OneLink(link: Link, now: nat)
    requires IsLive(link, now)
    ensures Winner([link], link.hash, now) == Some(link.user)
  {
    assert [link][..0] == [];
  }

  /** Someone banned between request and use: the sign-in fails, and the link is gone when the ban is lifted. */
  lemma {:induction false} BannedLinkIsSpent(uid: int, hash: string)
    ensures var s0 := State(0, Tables(map[uid := Account(false, true)], []), []);
            var ops := [Requesting(uid, hash), Banning(uid, true), Verifying(hash), Banning(uid, false)]
                + [Verifying(hash)];
            Play(s0, ops).results == [Err(Forbidden), Err(Unauthorized)]
  {
    hide Play, Winner, Claim;
    var s0 := State(0, Tables(map[uid := Account(false, true)], []), []);
    var link := Link(uid, hash, Micros(LIFETIME), None);
    var s2 := State(0, Tables(map[uid := Account(true, true)], [link]), []);
    OneLink(link, 0);
    assert Play(s0, []) == s0 by { PlayNone(s0); }
    PlayOne(s0, [], Requesting(uid, hash));
    PlayOne(s0, [Requesting(uid, hash)], Banning(uid, true));
    assert [] + [Requesting(uid, hash)] == [Requesting(uid, hash)];
    var two := [Requesting(uid, hash)] + [Banning(uid, true)];
    assert Play(s0, two) == s2;
    PlayOne(s0, two, Verifying(hash));
    var s3 := Step(s2, Verifying(hash));
    assert s3.results == [Err(Forbidden)];
    var three := two + [Verifying(hash)];
    PlayOne(s0, three, Banning(uid, false));
    PlayNone(s3);
    PlayOne(s3, [], Banning(uid, false));
    assert [] + [Banning(uid, false)] == [Banning(uid, false)];
    RefusedUntilRequested(s2, [Banning(uid, false)], hash);
    var four := three + [Banning(uid, false)];
    PlayOne(s0, four, Verifying(hash));
    assert four == [Requesting(uid, hash), Banning(uid, true), Verifying(hash), Banning(uid, false)];
  }

  lemma {:induction false} PlayNone(s: State)
    ensures Play(s, []) == s
  {
  }

  /** A store that serves any operations: the answers are those of the run, with or without its pruning. */
  method Operate(registered: map<int, Account>, start: nat, ops: seq<Op>)
    returns (store: LinkStore, results: seq<Result<int>>)
    ensures fresh(store) && store.Contents() == Play(State(start, Tables(registered, []), []), ops).t
    ensures results == Play(State(start, Tables(registered, []), []), WithoutPruning(ops)).results
  {
    hide Verify, Request, Prune, WithoutPruning;
    ghost var s0 := State(start, Tables(registered, []), []);
    store := new LinkStore(registered);
    var now := start;
    results := [];
    assert ops[..0] == [];
    for n := 0 to |ops|
      invariant fresh(store) && State(now, store.Contents(), results) == Play(s0, ops[..n])
    {
      assert ops[..n + 1][..n] == ops[..n];
      match ops[n] {
        case Tick(delay) => now := now + delay;
        case Requesting(uid, hash) => store.RequestLink(uid, hash, now);
        case Verifying(hash) =>
          var r := store.VerifyLink(hash, now);
          results := results + [r];
        case Banning(uid, banned) => store.SetBanned(uid, banned);
        case Pruning => store.PruneExpired(now);
      }
    }
    assert ops[..|ops|] == ops;
    PruningIsInvisible(s0, ops);
  }
}
