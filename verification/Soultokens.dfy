/**
 * Soultoken rows and the renewal log (BFIP section 7): signatures over stored timestamps, at most one
 * live user token each, and expiries that chain.
 */
module Soultokens {
  import opened Common
  import opened Text
  import opened Payloads
  import opened Base36

  type Uuid = s: seq<Byte> | |s| == 16 witness seq(16, _ => 0)
  /** An HMAC-SHA256 tag (RFC 2104). */
  type Tag = s: seq<Byte> | |s| == 32 witness seq(32, _ => 0)

  /** The platform's keys and calendar: the display-code MAC, the soultoken signer, instants to UTC fields. */
  datatype Keys = Keys(mac: Uuid -> Tag, sign: string -> string, civil: nat -> DateTime)

  /** A `soultokens` row; its id is its position. Stored instants are whole microseconds. */
  datatype Token = Token(uuid: Uuid, code: string, holder: int, kind: string, threshold: nat, attestation: nat,
                         signature: Option<string>, issuedAt: nat, expiresAt: nat, renewedAt: Option<nat>,
                         revokedAt: Option<nat>, reason: string)

  /** A `soultoken_renewals` row. */
  datatype Renewal = Renewal(token: nat, user: int, previous: nat, next: nat)

  function PayloadOf(k: Keys, uuid: Uuid, holder: int, issuedAt: nat, expiresAt: nat, code: string): string {
    SoultokenPayload(uuid, holder, Rfc3339(k.civil(issuedAt)), Rfc3339(k.civil(expiresAt)), code)
  }

  /** The payload of a row, rebuilt from what the row stores. */
  function RowPayload(k: Keys, t: Token): string {
    PayloadOf(k, t.uuid, t.holder, t.issuedAt, t.expiresAt, t.code)
  }

  function Sign(k: Keys, t: Token): Token {
    t.(signature := Some(k.sign(RowPayload(k, t))))
  }

  /** Unrevoked `user` token of `user` that has not expired at database time. */
  predicate Live(t: Token, user: int, now: nat) {
    t.holder == user && t.kind == "user" && t.revokedAt.None? && t.expiresAt > Micros(now)
  }

  /** `get_active_soultoken_by_user`: the latest issued; ids grow with issue time. */
  function FindLive(tokens: seq<Token>, user: int, now: nat): (r: Option<nat>)
    ensures r.Some? ==> r.value < |tokens| && Live(tokens[r.value], user, now)
    ensures r.None? ==> forall i :: 0 <= i < |tokens| ==> !Live(tokens[i], user, now)
  {
    if tokens == [] then None
    else if Live(tokens[|tokens| - 1], user, now) then Some(|tokens| - 1)
    else FindLive(tokens[..|tokens| - 1], user, now)
  }

  /** The row issued at `now`: a year of validity, timestamps as stored, signed over the stored values. */
  function Issued(k: Keys, uuid: Uuid, holder: int, kind: string, threshold: nat, attestation: nat, now: nat): Token {
    Sign(k, Token(uuid, DisplayCode(k.mac(uuid)), holder, kind, threshold, attestation,
                  None, Micros(now), Micros(now + YEAR), None, None, ""))
  }

  function Renewed(k: Keys, t: Token, now: nat): Token {
    Sign(k, t.(expiresAt := Micros(now + YEAR), renewedAt := Some(Micros(now))))
  }

  function Revoked(t: Token, reason: string, now: nat): Token {
    t.(revokedAt := Some(Micros(now)), reason := reason)
  }

  // ---- facts the tables keep ----

  /**
   * The log of one token links up: from `start`, each renewal of it begins where the one before ended
   * and never shortens, and the last one ends at `end`.
   */
  predicate Chain(log: seq<Renewal>, token: nat, start: nat, end: nat) {
    if log == [] then start == end
    else
      var last, rest := log[|log| - 1], log[..|log| - 1];
      if last.token == token then last.next == end && last.previous <= end && Chain(rest, token, start, last.previous)
      else Chain(rest, token, start, end)
  }

  predicate RowValid(k: Keys, log: seq<Renewal>, id: nat, t: Token, clock: nat) {
    && t.signature == Some(k.sign(RowPayload(k, t)))
    && t.issuedAt <= clock && t.expiresAt <= Micros(clock + YEAR)
    && Chain(log, id, t.issuedAt + YEAR, t.expiresAt)
  }

  /** No user has two live tokens. */
  ghost predicate OneLive(tokens: seq<Token>, clock: nat) {
    forall u, i, j :: 0 <= i < j < |tokens| && Live(tokens[i], u, clock) ==> !Live(tokens[j], u, clock)
  }

  predicate RowsValid(k: Keys, tokens: seq<Token>, log: seq<Renewal>, clock: nat) {
    forall i :: 0 <= i < |tokens| ==> RowValid(k, log, i, tokens[i], clock)
  }

  ghost predicate Valid(k: Keys, tokens: seq<Token>, log: seq<Renewal>, clock: nat) {
    && OneLive(tokens, clock)
    && RowsValid(k, tokens, log, clock)
    && (forall i :: 0 <= i < |log| ==> log[i].token < |tokens|)
  }

  lemma {:induction false} TimePasses(k: Keys, tokens: seq<Token>, log: seq<Renewal>, clock: nat, now: nat)
    requires Valid(k, tokens, log, clock) && clock <= now
    ensures Valid(k, tokens, log, now)
  {
    hide PayloadOf;
    MicrosMonotone(clock, now);
    MicrosMonotone(clock + YEAR, now + YEAR);
    assert forall i, u :: 0 <= i < |tokens| && Live(tokens[i], u, now) ==> Live(tokens[i], u, clock);
    forall i | 0 <= i < |tokens| ensures RowValid(k, log, i, tokens[i], now) {
      assert RowValid(k, log, i, tokens[i], clock);
    }
  }

  lemma {:induction false} UnmentionedChain(log: seq<Renewal>, token: nat, e: nat)
    requires forall i :: 0 <= i < |log| ==> log[i].token != token
    ensures Chain(log, token, e, e)
  {
    if log == [] {
    } else {
      UnmentionedChain(log[..|log| - 1], token, e);
    }
  }

  lemma {:induction false} IssuedRow(k: Keys, log: seq<Renewal>, id: nat, uuid: Uuid, holder: int, kind: string,
                                     threshold: nat, attestation: nat, now: nat)
    requires forall i :: 0 <= i < |log| ==> log[i].token < id
    ensures var t := Issued(k, uuid, holder, kind, threshold, attestation, now);
            && RowValid(k, log, id, t, now)
            && t.holder == holder && t.kind == kind && t.revokedAt.None? && t.expiresAt == t.issuedAt + YEAR
  {
    hide PayloadOf;
    MicrosPlusYear(now);
    UnmentionedChain(log, id, Micros(now + YEAR));
  }

  lemma {:induction false} IssueKeepsValid(k: Keys, tokens: seq<Token>, log: seq<Renewal>, t: Token, now: nat)
    requires Valid(k, tokens, log, now) && FindLive(tokens, t.holder, now).None?
    requires RowValid(k, log, |tokens|, t, now)
    ensures Valid(k, tokens + [t], log, now)
  {
    hide PayloadOf;
    var tokens' := tokens + [t];
    forall i | 0 <= i < |tokens'| ensures RowValid(k, log, i, tokens'[i], now) {
      assert i < |tokens| ==> RowValid(k, log, i, tokens[i], now);
    }
    forall u, i, j | 0 <= i < j < |tokens'| && Live(tokens'[i], u, now) ensures !Live(tokens'[j], u, now) {
      assert Live(tokens[i], u, now);
      if j == |tokens| {
        assert u != t.holder;
      } else {
        assert tokens'[j] == tokens[j];
      }
    }
  }

  lemma {:induction false} RenewedRow(k: Keys, log: seq<Renewal>, id: nat, t: Token, now: nat)
    requires RowValid(k, log, id, t, now)
    ensures var t' := Renewed(k, t, now);
            && t'.expiresAt >= t.expiresAt && t'.holder == t.holder && t'.kind == t.kind && t'.revokedAt == t.revokedAt
            && RowValid(k, log + [Renewal(id, t.holder, t.expiresAt, t'.expiresAt)], id, t', now)
  {
    hide PayloadOf;
    var t' := Renewed(k, t, now);
    var log' := log + [Renewal(id, t.holder, t.expiresAt, t'.expiresAt)];
    assert log'[..|log|] == log;
    assert Chain(log', id, t.issuedAt + YEAR, t'.expiresAt);
  }

  lemma {:induction false} RenewKeepsValid(k: Keys, tokens: seq<Token>, log: seq<Renewal>, id: nat, t': Token,
                                           r: Renewal, now: nat)
    requires Valid(k, tokens, log, now) && id < |tokens| && Live(tokens[id], tokens[id].holder, now)
    requires t'.holder == tokens[id].holder && r.token == id
    requires RowValid(k, log + [r], id, t', now)
    ensures Valid(k, tokens[id := t'], log + [r], now)
  {
    hide PayloadOf;
    var tokens', log' := tokens[id := t'], log + [r];
    assert log'[..|log|] == log;
    forall i | 0 <= i < |tokens'| ensures RowValid(k, log', i, tokens'[i], now) {
      if i != id {
        assert RowValid(k, log, i, tokens[i], now);
        assert Chain(log', i, tokens[i].issuedAt + YEAR, tokens[i].expiresAt);
      }
    }
    LiveSubset(tokens, tokens', now);
  }

  /** Replacing rows so that no new token becomes live keeps them unique. */
  lemma {:induction false} LiveSubset(tokens: seq<Token>, tokens': seq<Token>, now: nat)
    requires OneLive(tokens, now) && |tokens'| == |tokens|
    requires forall i, u :: 0 <= i < |tokens| && Live(tokens'[i], u, now) ==> Live(tokens[i], u, now)
    ensures OneLive(tokens', now)
  {
    hide PayloadOf;
    forall u, i, j | 0 <= i < j < |tokens'| && Live(tokens'[i], u, now) ensures !Live(tokens'[j], u, now) {
      assert Live(tokens[i], u, now);
    }
  }

  lemma {:induction false} RevokeKeepsValid(k: Keys, tokens: seq<Token>, log: seq<Renewal>, id: nat, reason: string,
                                            now: nat)
    requires Valid(k, tokens, log, now) && id < |tokens|
    ensures Valid(k, tokens[id := Revoked(tokens[id], reason, now)], log, now)
  {
    hide PayloadOf;
    var t' := Revoked(tokens[id], reason, now);
    var tokens' := tokens[id := t'];
    forall i | 0 <= i < |tokens'| ensures RowValid(k, log, i, tokens'[i], now) {
      assert RowValid(k, log, i, tokens[i], now);
    }
    LiveSubset(tokens, tokens', now);
  }

  // ---- reading the chain ----

  predicate NoneBetween(log: seq<Renewal>, token: nat, i: int, j: int) {
    forall m :: 0 <= m < |log| && i < m < j ==> log[m].token != token
  }

  /**
   * What `Chain` says at one renewal of the token: it stays between the issued and the stored expiry and
   * does not shorten; the first starts at the issued expiry and the last ends at the stored one.
   */
  lemma {:induction false} ChainAt(log: seq<Renewal>, token: nat, start: nat, end: nat, i: nat)
    requires Chain(log, token, start, end) && i < |log| && log[i].token == token
    ensures start <= log[i].previous <= log[i].next <= end
    ensures NoneBetween(log, token, -1, i) ==> log[i].previous == start
    ensures NoneBetween(log, token, i, |log|) ==> log[i].next == end
  {
    var n := |log| - 1;
    var rest := log[..n];
    if i < n {
      assert rest[i] == log[i];
      ChainAt(rest, token, start, if log[n].token == token then log[n].previous else end, i);
      assert NoneBetween(log, token, -1, i) ==> NoneBetween(rest, token, -1, i);
      if NoneBetween(log, token, i, |log|) {
        assert log[n].token != token;
        assert NoneBetween(rest, token, i, |rest|);
      }
    } else {
      ChainBounds(rest, token, start, log[n].previous);
      if NoneBetween(log, token, -1, i) {
        assert forall m :: 0 <= m < |rest| ==> rest[m] == log[m];
      }
    }
  }

  lemma {:induction false} ChainBounds(log: seq<Renewal>, token: nat, start: nat, end: nat)
    requires Chain(log, token, start, end)
    ensures start <= end
    ensures (forall m :: 0 <= m < |log| ==> log[m].token != token) ==> start == end
  {
    if log == [] {
    } else {
      var last := log[|log| - 1];
      ChainBounds(log[..|log| - 1], token, start, if last.token == token then last.previous else end);
    }
  }

  /** Each later renewal starts where the renewal before it ended. */
  lemma {:induction false} ChainLinks(log: seq<Renewal>, token: nat, start: nat, end: nat, i: nat, j: nat)
    requires Chain(log, token, start, end) && i < j < |log|
    requires log[i].token == token && log[j].token == token && NoneBetween(log, token, i, j)
    ensures log[j].previous == log[i].next
  {
    var n := |log| - 1;
    var rest := log[..n];
    assert rest[i] == log[i];
    if j == n {
      assert NoneBetween(rest, token, i, |rest|);
      ChainAt(rest, token, start, log[n].previous, i);
    } else {
      assert rest[j] == log[j];
      assert NoneBetween(rest, token, i, j);
      ChainLinks(rest, token, start, if log[n].token == token then log[n].previous else end, i, j);
    }
  }

  /** The chain read off valid tables, for two successive renewals of one token. */
  lemma {:induction false} LogReads(k: Keys, tokens: seq<Token>, log: seq<Renewal>, clock: nat, i: nat, j: nat)
    requires Valid(k, tokens, log, clock)
    requires i < j < |log| && log[i].token == log[j].token && NoneBetween(log, log[i].token, i, j)
    ensures var id := log[i].token;
            && id < |tokens|
            && log[i].previous <= log[i].next == log[j].previous <= log[j].next <= tokens[id].expiresAt
            && (NoneBetween(log, id, -1, i) ==> log[i].previous == tokens[id].issuedAt + YEAR)
            && (NoneBetween(log, id, j, |log|) ==> log[j].next == tokens[id].expiresAt)
  {
    hide PayloadOf, Chain, OneLive;
    var id := log[i].token;
    assert RowValid(k, log, id, tokens[id], clock);
    ChainAt(log, id, tokens[id].issuedAt + YEAR, tokens[id].expiresAt, i);
    ChainAt(log, id, tokens[id].issuedAt + YEAR, tokens[id].expiresAt, j);
    ChainLinks(log, id, tokens[id].issuedAt + YEAR, tokens[id].expiresAt, i, j);
  }
}
