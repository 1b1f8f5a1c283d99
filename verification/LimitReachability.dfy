/** The limit on successful verifications is attained: eleven within one instant. */
module LimitReachability {
  import opened AttestationTokens
  import opened Common
  import opened Platform
  import opened Reachability
  import opened Safety
  import opened Text
  import Approvals
  import A = Attestations
  import P = Presence
  import S = Soultokens

  function PipelineEvents(cmds: seq<Timed>): seq<Event> {
    if cmds == [] then [] else PipelineEvents(cmds[..|cmds| - 1]) + [Pipeline(cmds[|cmds| - 1])]
  }

  lemma {:induction false} PlayOne(w: World, sha256Hex: string -> string, s: Sys, events: seq<Event>, e: Event)
    ensures Play(w, sha256Hex, s, events + [e]) == Next(w, sha256Hex, Play(w, sha256Hex, s, events), e)
  {
    hide Next;
    assert (events + [e])[..|events|] == events;
  }

  lemma {:induction false} PipelinePlays(w: World, sha256Hex: string -> string, p: State, cmds: seq<Timed>)
    ensures Play(w, sha256Hex, Fresh(p), PipelineEvents(cmds)) == Fresh(Run(w, p, cmds))
  {
    hide Step;
    if cmds == [] {
    } else {
      PipelinePlays(w, sha256Hex, p, cmds[..|cmds| - 1]);
      PlayOne(w, sha256Hex, Fresh(p), PipelineEvents(cmds[..|cmds| - 1]), Pipeline(cmds[|cmds| - 1]));
    }
  }

  /** At time 0 user 1 holds a live soultoken. */
  predicate Ready(p: State) {
    p.clock == 0 && Admitted(p.users, 1).Ok? && S.FindLive(p.tokens, 1, 0).Some?
  }

  /** Business 7 has had `k` attempts, all of them successes, all at time 0. */
  predicate Series(s: Sys, k: nat) {
    Ready(s.p) && |s.t.attempts| == k && Recent(s.t.attempts, 7, 0) == k && Successes(s.t.attempts, 7, 0, 0) == k
  }

  function Issuing(raw: string): Event { IssueIt(0, 1, "presence.verified", None, raw) }

  lemma {:induction false} IssueNext(w: World, sha256Hex: string -> string, s: Sys, raw: string)
    requires Ready(s.p)
    ensures var s' := Next(w, sha256Hex, s, Issuing(raw));
            && s' == s.(t := s.t.(tokens := s'.t.tokens)) && FindHash(s'.t.tokens, sha256Hex(raw)) == Some(|s.t.tokens|)
            && |s'.t.tokens| == |s.t.tokens| + 1
            && var token := s'.t.tokens[|s.t.tokens|];
               token.verifiedAt.None? && token.revokedAt.None? && token.expiresAt >= 0
  {
    hide S.FindLive;
    assert Later(s.p, 0) == s.p;
  }

  lemma {:induction false} VerifyNext(w: World, sha256Hex: string -> string, s: Sys, raw: string, k: nat)
    requires Series(s, k) && k <= 10
    requires var found := FindHash(s.t.tokens, sha256Hex(raw));
             && found.Some?
             && var token := s.t.tokens[found.value];
                token.verifiedAt.None? && token.revokedAt.None? && token.expiresAt >= 0
    ensures Series(Next(w, sha256Hex, s, VerifyIt(0, raw, Some(7))), k + 1)
  {
    hide FindHash, Ready, Recent, Successes;
    assert s.p.clock == 0 by { ReadyNow(s.p); }
    assert Later(s.p, 0) == s.p;
    var found := FindHash(s.t.tokens, sha256Hex(raw));
    OneMore(s.t.attempts, Attempt(sha256Hex(raw), found, Some(7), Success, 0));
  }

  lemma {:induction false} OneMore(attempts: seq<Attempt>, a: Attempt)
    requires a.business == Some(7) && a.outcome == Success && a.at == 0
    ensures Recent(attempts + [a], 7, 0) == Recent(attempts, 7, 0) + 1
    ensures Successes(attempts + [a], 7, 0, 0) == Successes(attempts, 7, 0, 0) + 1
  {
    assert (attempts + [a])[..|attempts|] == attempts;
  }

  lemma {:induction false} ReadyNow(p: State)
    requires Ready(p)
    ensures p.clock == 0
  {
  }

  /** `k` successes, each of a token issued just before. */
  lemma {:induction false} Succeed(w: World, sha256Hex: string -> string, s: Sys, k: nat) returns (events: seq<Event>)
    requires Series(s, 0) && k <= 11
    ensures Series(Play(w, sha256Hex, s, events), k)
  {
    hide Next, Series, Ready, FindHash;
    if k == 0 {
      events := [];
    } else {
      var before := Succeed(w, sha256Hex, s, k - 1);
      var raw, s1 := Dec(k), Play(w, sha256Hex, s, before);
      PlayOne(w, sha256Hex, s, before, Issuing(raw));
      PlayOne(w, sha256Hex, s, before + [Issuing(raw)], VerifyIt(0, raw, Some(7)));
      SeriesReads(s1, k - 1);
      IssueNext(w, sha256Hex, s1, raw);
      var s2 := Next(w, sha256Hex, s1, Issuing(raw));
      SeriesReads(s2, k - 1);
      VerifyNext(w, sha256Hex, s2, raw, k - 1);
      events := before + [Issuing(raw)] + [VerifyIt(0, raw, Some(7))];
    }
  }

  lemma {:induction false} SeriesReads(s: Sys, k: nat)
    ensures Series(s, k) <==>
              && Ready(s.p) && |s.t.attempts| == k
              && Recent(s.t.attempts, 7, 0) == k && Successes(s.t.attempts, 7, 0, 0) == k
  {
  }

  /** From registered users: a run in which one business verifies eleven tokens in one instant. */
  lemma {:induction false} ElevenAreReached(w: World, sha256Hex: string -> string, uuid: S.Uuid)
    returns (events: seq<Event>)
    requires w.primitives == Honest()
    ensures Successes(Play(w, sha256Hex, Fresh(Start()), events).t.attempts, 7, 0, 0) == 11
  {
    hide Run, Step, Series, Play, S.Issued, S.FindLive, Inv, P.Qualifying, A.Payload, RecordOf;
    var attest := AttestTwo(w);
    var s := Run(w, Start(), attest);
    var issue := Timed(0, CmdIssue(1, 0, "user", uuid));
    var threshold := s.attestations[0].threshold;
    var t := S.Issued(w.keys, uuid, 1, "user", threshold, 0, 0);
    IssuedIsLive(w, uuid, 1, threshold, 0, 0, 0);
    NoneLive(t);
    OneToken(t, 1, 0);
    IssueStep(w, s, 1, 0, uuid, 0);
    var cmds := attest + [issue];
    Approvals.RunSplice(w, Start(), attest, [issue]);
    Approvals.RunOne(w, s, issue);
    var p := Step(w, s, issue);
    assert p.tokens == [t];
    PipelinePlays(w, sha256Hex, Start(), cmds);
    SeriesReads(Fresh(p), 0);
    var more := Succeed(w, sha256Hex, Fresh(p), 11);
    PlaySplice(w, sha256Hex, Fresh(Start()), PipelineEvents(cmds), more);
    events := PipelineEvents(cmds) + more;
    SeriesReads(Play(w, sha256Hex, Fresh(p), more), 11);
  }

  lemma {:induction false} PlaySplice(w: World, sha256Hex: string -> string, s: Sys, first: seq<Event>,
                                      more: seq<Event>)
    ensures Play(w, sha256Hex, s, first + more) == Play(w, sha256Hex, Play(w, sha256Hex, s, first), more)
  {
    hide Next;
    if more == [] {
      assert first + more == first;
    } else {
      var n := |more| - 1;
      PlaySplice(w, sha256Hex, s, first, more[..n]);
      assert (first + more)[..|first + more| - 1] == first + more[..n];
    }
  }
}
