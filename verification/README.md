# The BFIP verification pipeline in Dafny

A model of the domain layer's identity pipeline and of the rules beside it, with proofs over every run.

A user gathers presence events until a threshold is met. Delivery staff then open an attestation and two
assigned reviewers co-sign it. The user becomes attested, is issued a signed soultoken, and may renew, lose
or surrender it. Attestation tokens, NFC boxes and orders, business assessments, platform
configuration, feature flags, magic links and JWT revocation follow their own history-dependent rules.

## How it is built

- `Platform` holds the tables as one `State` and each service command as a function from the tables to new tables or
  an error. `Step` and `Run` give all runs of all commands under a clock that only moves forward. An error changes nothing,
  because its transaction is dropped (`domain/src/transaction.rs:24-28`).
- `Presence`, `Reviewers`, `Attestations`, `Soultokens` and `Orders` hold the tables and rules of one area each, with
  the facts their tables keep. `Safety` joins these into one invariant and proves it for every command. `Guarantees`
  states what follows for whole runs, `Authority` who may change which row, `Answers` which error each request gets and when
  none, `Effects` what an accepted one leaves in each table, field by field, `Approvals` exactly when an attestation can
  still be approved, and `Identity` exactly when presence is completed with an identity credential.
- `Store.Database` is the services as they run: a class with one field per table, whose methods read and write row by row
  and undo their writes on an error. `Execute` and `Serve` are proved to run the state machine of `Platform`, so every
  guarantee holds of the class; `Store.Operate` says so for a new database under any requests.
- `CoSigning` splits `reviewer_sign` into its database statements and interleaves any number of such transactions with
  each other and with every other command of the platform.
- `AttestationTokens` runs third-party verification beside the pipeline. `Assessments`, `Configuration`, `Rollout`,
  `MagicLinks` and `Revocations` are separate, because nothing in the modelled pipeline reads their tables. Each has its
  class, and an `Operate` method that runs it through any sequence of operations.
- `Reachability`, `CoSigningReachability` and `LimitReachability` construct runs from registered users and empty tables:
  users do become attested, tokens are issued, renewed and revoked, and the shortfalls below that take a history are
  reached.
- `Text`, `Payloads`, `Base36` and `Ed25519` are the strings: decimal, RFC 3339 and UUID text, signed and MACed inputs,
  display codes, hex and length checks, and stored signature records.

## What the model assumes

- SHA-256, HMAC-SHA256 (RFC 2104), the Ed25519 primitive (section 5.1 of RFC 8032), the platform's signer and the calendar
  are arbitrary functions. Nothing is claimed about forgery. `hmac_eq` is string equality.
- One clock reading per command, in nanoseconds; the database keeps whole microseconds and compares with its truncated time.
- Rows of tables the model does not hold (visits, beacons, roles, locations, business state) and environment settings are
  arguments of the command that reads them, and arbitrary in every step. Error messages are dropped; error kinds are kept.
- Row ids are positions. Where a query may return several rows without an order, the model takes one fixed row.
- Every command other than `reviewer_sign` is one atomic step.

## Where the code and its documentation differ

- Revocation is documented to make the user restart the protocol (`domain/src/domain/soultokens/service.rs:322-323`). A
  threshold is met only once, so the user is stuck unless an attestation of theirs is still open
  (`Guarantees.RestartIff`, `Guarantees.AfterRevocation`; reached in `Reachability.RevocationStrandsUser`).
- Revocation clears the holder's `soultoken_id` and status, but another token of theirs stays live if the revoked one was
  not the live one, and is still renewable (`Guarantees.LiveAfterRevokeIff`; reached in
  `Reachability.LiveTokenOutlivesRevocation`).
- `days_count` is documented as calendar days (`domain/src/domain/presence/service.rs:100-104`). It counts (business, date)
  pairs, so three taps at three businesses on one day are enough (`Presence.PairsAreDatesIff`, `Presence.OneDayCanSuffice`).
- Presence never looks for an identity credential, and is completed without one exactly when the completing event finds
  the user `registered` (`Identity.CompletedWithIdentityIff`; reached in `Guarantees.IdentityNotRequired`). The date of a
  dwell is the client's.
- `issue_soultoken` asks for an approved attestation, not for one of the requester's (`Guarantees.IssuedForHolderIff`;
  reached in `Reachability.TokensAreIssued`).
- Reviewer signatures are per visit, not per attestation. One foreign signature is enough: an attestation one of whose
  reviewers signed the visit for another attestation is never approved, unless that record happens to verify over its
  payload (`Approvals.ApprovalIff`, `Approvals.OneForeignSignatureStrands`; reached in `Reachability.SharedReviewerStrands`).
- A display code keeps 9 bytes modulo 36^12, so distinct tags can share one (`Base36.CollisionFreeIff`).
- A clone-detection flag is written in the transaction that the following error drops, so it is never stored.
- A magic link of a banned or missing account is used up although the sign-in fails, because the claim is not in a
  transaction with the rest (`MagicLinks.SpentWithoutSignInIff`, `MagicLinks.RefusedUntilRequested`; reached in
  `MagicLinks.BannedLinkIsSpent`).
- Where a business has no active beacon, for instance once its beacons are switched off, `record_nfc_tap` checks no
  witness (`domain/src/domain/presence/service.rs:411-438`), as the tap case of `Authority.EventAuthority` says.
- Latent, since no code pre-assigns a box to an order (`assign_box_to_order` has no caller): `collect_order` would settle a
  pre-assigned order whatever its status and owner (`Orders.CollectIsFinalIff`).

## Model

| member | source | states |
|---|---|---|
| CoSigning.NoLostApproval | domain/src/domain/attestations/service.rs:418-571 | in every state of every interleaving, once both assigned reviewers have committed signatures made for an attestation it is approved or rejected, never waiting, and both stored records verify over its payload |
| CoSigningReachability.BothSignaturesAreReached | domain/src/domain/attestations/service.rs:418-571 | an interleaving from registered users in which both signatures made for an attestation are committed and it is approved |
| CoSigning.StoredSignaturesValid | domain/src/domain/attestations/service.rs:454-488 | in every state of every interleaving each stored co-signature was made in time, by a reviewer assigned to an attestation of the visit past staff sign, and verifies over its payload |
| CoSigning.SecondSignerApproves | domain/src/domain/attestations/service.rs:490-516 | a transaction whose partner's signature for the attestation is committed finds both records, verifies them, and its commit approves |
| CoSigning.CommitNoneLost | domain/src/domain/attestations/repository.rs:57-79 | the commit of one transaction never leaves a doubly signed attestation waiting, because the row lock froze what it read |
| CoSigning.CommitRefinesIff | domain/src/domain/attestations/service.rs:428-571 | a commit has the effect of the atomic command exactly when it approves or the partner has not signed the visit; otherwise the partner's signature was made for another attestation |
| CoSigning.StatementsCarry | domain/src/domain/attestations/service.rs:428-489 | a transaction carries the row it read under the lock and the clock it read when it checked, only its commit changes the tables, and the signature row written has that time, and the request's record and evidence |
| CoSigning.RollsBackIff | domain/src/domain/attestations/service.rs:434-515 | a statement rolls back iff there is no such attestation, the request is refused as row and clock stand, the reviewer's signature on the visit is committed, or the two records do not verify together |
| CoSigning.ConcurrentPipelineIsEarned | domain/src/domain/attestations/service.rs:418-571 | the end-to-end guarantee holds in every state of every interleaving and after any continuation |
| CoSigning.LockIsNeeded | domain/src/domain/attestations/service.rs:428-438 | without FOR UPDATE, any two acceptable co-signatures taken in turn both commit and leave the attestation waiting |
| CoSigning.NeverStuck | domain/src/domain/attestations/repository.rs:57-79 | waiting on row locks and on uncommitted signature rows never deadlocks |
| CoSigning.WaitsIff | domain/src/domain/attestations/repository.rs:57-79 | a transaction waits only for the lock of its row or for an uncommitted signature row of its key; of the other commands only a staff signature or rejection of a locked row waits |
| CoSigning.PlayConsistent | domain/src/domain/attestations/service.rs:428-571 | every interleaving keeps: one owner per row lock, one uncommitted row per signature key, rows unchanged under lock, committed signatures that verify over the attestation they were made for |
| Guarantees.PipelineIsEarned | domain/src/domain/soultokens/service.rs:158-212 | every attested user and every soultoken holder has an approved attestation by two independent reviewers over verifying evidence, and a threshold of their own met on three events on three (business, date) pairs, and keeps both in every continuation |
| Reachability.AttestTwo | domain/src/domain/attestations/service.rs:180-571 | a run from registered users after which two of them are attested, by two approved attestations, under primitives for which every payload can be signed |
| Reachability.TokensAreIssued | domain/src/domain/soultokens/service.rs:158-292 | a run from registered users with two tokens issued, the second naming the first user's attestation, and the first renewed twice |
| Guarantees.ApprovedForever | domain/src/domain/attestations/service.rs:461-526 | an approved row and both its signature rows never change again, and all three records still verify over the row's payload |
| Guarantees.ApprovalsAreUnique | domain/src/domain/attestations/service.rs:181-329 | two approved attestations differ in visit or user, and in visit or reviewer pair |
| Approvals.ApprovalIff | domain/src/domain/attestations/service.rs:342-571 | some continuation approves an attestation iff it is approved; or it awaits co-signatures in time, or staff sign with some photo hash, and one of its reviewers has not signed the visit, each who has did so with a record that verifies over its payload, and some key signs that payload |
| Approvals.OneForeignSignatureStrands | domain/src/domain/attestations/service.rs:476-514 | an assigned reviewer's earlier signature on the visit that does not verify over the payload leaves a waiting attestation unapproved in every continuation |
| Reachability.SharedReviewerStrands | domain/src/domain/attestations/repository.rs:266-297 | a run from registered users with two attestations of one visit that share one reviewer: the second is in time, its other reviewer has not signed, and no continuation approves it |
| Guarantees.StrandedForever | domain/src/domain/attestations/repository.rs:266-297 | the special case without any assumption on the tables: an unapproved attestation both of whose reviewers have signed the visit is never approved |
| Authority.RowAuthority | domain/src/domain/attestations/service.rs:342-652 | across all commands, an attestation row changes only by its own staff from pending, or by an assigned reviewer: approved in time from co-sign pending, or rejected while open |
| Authority.OpeningAuthority | domain/src/domain/attestations/service.rs:180-336 | across all commands, attestations are opened only by the staff of a visit in progress, for a presence-confirmed user with a met threshold, with two eligible reviewers within the co-sign limit; the new row has the request's threshold and photo hash, and neither staff record nor deadline |
| Authority.OpenedByFirstPair | domain/src/domain/attestations/service.rs:133-171 | an opened attestation is assigned no later pair, in order of ids, than any two eligible reviewers within the limit |
| Authority.SignatureAuthority | domain/src/domain/attestations/service.rs:476-489 | across all commands, a signature row never changes, and is written only by an assigned reviewer's co-signature: stamped with the time of the signature, with the request's record and evidence and the attestation's deadline |
| Authority.ApprovalCounts | domain/src/domain/attestations/service.rs:142-160 | across all commands, an approval at once counts as one more co-sign of its two reviewers, exactly when the first of them signs last or signed within 7 days |
| Effects.OpenedHashIsSigned | domain/src/domain/attestations/service.rs:31-39 | over every continuation, while the row is pending its staff's request without a hash is accepted iff its signature verifies over the payload with the photo hash the attestation was opened with |
| Effects.AttestationsAfter | domain/src/domain/attestations/service.rs:342-652 | across all commands, what becomes of every attestation row, field by field: staff sign keeps the hash unless the request brings one and sets 48 hours; a co-signature approves iff both reviewers have then signed |
| Answers.InitiateAnswer | domain/src/domain/attestations/service.rs:180-336 | which requests are accepted and which error each other gets; in particular, once everything else is in order, acceptance iff some two eligible reviewers co-signed at most three visits in a week |
| Answers.ReviewerSignAnswer | domain/src/domain/attestations/service.rs:418-571 | which co-signatures are accepted and which error each other gets; a partner's earlier signature on the visit stands in the way iff it does not verify over this payload |
| Authority.EventAuthority | domain/src/domain/presence/service.rs:221-495 | across all commands, every qualifying event has behind it a long enough dwell with the right witness and signal, or the tap of an active, unexpired, untapped box that uses it up, by a user who may still gather presence |
| Effects.TapCountsIff | domain/src/domain/presence/service.rs:369-495 | a tap adds a qualifying event iff the gate is open, the user is admitted and neither attested nor cleared, the box exists, is activated, unexpired and untapped, and the witness is right where a beacon is active; it then adds one event and its (business, date) pair to its user, to nobody else, and to the threshold row; any other accepted tap is only logged |
| Effects.DwellCountsIff | domain/src/domain/presence/service.rs:221-364 | the same for a dwell: iff the beacon is that business's, the signal reaches its minimum, the stay lasted 15 minutes, and the witness is right |
| Authority.TokenAuthority | domain/src/domain/soultokens/service.rs:324-665 | across all commands, a stored token becomes its renewed row only by its holder while live, and its revoked row only by an administrator or attestation staff for a listed reason, or by its holder's witnessed surrender |
| Effects.TokensAfter | domain/src/domain/soultokens/service.rs:324-665 | across all commands, what becomes of every token, field by field: only the live token of whoever renews is extended, and only the named token is revoked |
| Effects.RenewalEffect | domain/src/domain/soultokens/service.rs:569-665 | a renewal extends the requester's live token to exactly 365 days from now, stamps and re-signs it over that, and logs the step from the old expiry |
| Effects.RenewedForAYearIff | domain/src/domain/soultokens/service.rs:591-625 | in every continuation without another renewal by its holder and without its revocation, a renewed token is live iff less than 365 days have passed |
| Answers.RenewAnswer | domain/src/domain/soultokens/service.rs:569-590 | a renewal is accepted iff the user holds an unrevoked, unexpired user token |
| Authority.IssueAuthority | domain/src/domain/soultokens/service.rs:158-212 | across all commands, tokens come only from the request of an attested user without a live one, for that user, over an approved attestation and its threshold |
| Effects.IssueEffect | domain/src/domain/soultokens/service.rs:211-247 | every field of the token issued: valid for 365 days from now, with the display code of its tag and a signature over its own stored fields |
| Authority.OrderAuthority | domain/src/domain/orders/service.rs:208-368 | across all commands, an order changes only by its owner: cancelled while open, or collected while pending with a live untapped box that the command taps; nothing but status and box changes |
| Effects.OrdersAfter | domain/src/domain/orders/service.rs:55-368 | across all commands, what becomes of every order: a collection settles the user's oldest pending order at a business where the box is, and no other |
| Effects.BoxesAfter | domain/src/domain/orders/service.rs:137-308 | across all commands, what becomes of every box: only a tap with the right witness and a collection of its chip use it up |
| Answers.CollectAnswer | domain/src/domain/orders/service.rs:208-308 | which collections are accepted and which error each other gets; NotFound for want of an order iff no pending order of the user is at such a business |
| Authority.NewOrderAuthority | domain/src/domain/orders/service.rs:55-132 | across all commands, orders come only from an admitted user's own request at an active business, pending and without a box |
| Authority.BoxAuthority | domain/src/domain/orders/service.rs:137-202 | across all commands, boxes come only from delivery staff |
| Guarantees.PresenceAgrees | domain/src/domain/presence/service.rs:105-213 | in every run counters, completion times, links and notices agree with the event log, and each user's completion is announced once, exactly when three events on three pairs are reached |
| Guarantees.SoultokensAgree | domain/src/domain/soultokens/service.rs:211-247 | in every run each stored signature is that of the payload rebuilt from its row, no expiry is over a year ahead, no user has two live tokens, and `users.soultoken_id`, while set, names an unrevoked token of the user, which is the live one if there is one |
| Guarantees.LiveAfterRevokeIff | domain/src/domain/soultokens/service.rs:366-397 | revocation clears id and status of the holder, and leaves them with a live and renewable token iff the revoked one was not the live one |
| Reachability.LiveTokenOutlivesRevocation | domain/src/domain/soultokens/service.rs:179-184 | a run from registered users after which a token is live although its holder's id is cleared and status registered |
| Guarantees.TokensGrounded | domain/src/domain/soultokens/service.rs:186-232 | in every run every token rests on an approved attestation and carries that attestation's threshold |
| Guarantees.RenewalsChain | domain/src/domain/soultokens/service.rs:591-625 | in every run the renewals of a token link up from the issued to the stored expiry and never shorten it |
| Guarantees.OrdersAgree | domain/src/domain/orders/service.rs:208-368 | in every run collected orders have distinct boxes tapped by their owners, and taps, collections and cancellations are final |
| Guarantees.RestartIff | domain/src/domain/soultokens/service.rs:322-390 | a user sent back after meeting presence can be confirmed or attested again in some continuation iff an attestation of theirs is still open |
| Guarantees.AfterRevocation | domain/src/domain/soultokens/service.rs:376-397 | the same for the holder of any token at the moment it is revoked or surrendered |
| Reachability.RevocationStrandsUser | domain/src/domain/soultokens/service.rs:376-397 | a run from registered users after which a user whose token was revoked is never confirmed or attested again |
| Guarantees.IssuedForHolderIff | domain/src/domain/soultokens/service.rs:186-197 | every token issuable to a user names an attestation of that user iff nobody else has an approved one |
| Identity.CompletedWithIdentityIff | domain/src/domain/presence/service.rs:131-213 | in every run the command that meets a user's threshold confirms the user, whose status just before was registered or identity_confirmed, and there is an identity credential of theirs iff it was the latter |
| Identity.UnmetStatusTells | domain/src/domain/identity_credentials/service.rs:70-167 | in every run, while presence is not met the status is registered or identity_confirmed, the latter iff there is a credential |
| Effects.UsersAfter | domain/src/transaction.rs:24-28 | across all commands, what becomes of every user: only an approval attests, and only the attestation's user; only the completion of a threshold confirms presence, and only its own user's; revocation and surrender reset only the holder |
| Guarantees.IdentityNotRequired | domain/src/domain/presence/service.rs:221-364 | the failing input: from tables without credentials a registered user reaches presence_confirmed within one day |
| Safety.RunSafe | domain/src/transaction.rs:24-28 | every run of any commands keeps the whole invariant and undoes nothing it has made permanent |
| Safety.InitiateSafe | domain/src/domain/attestations/service.rs:180-336 | a new attestation rests on a met threshold of its user, has independent reviewers, and is the only active one of the user at the visit |
| Safety.StaffSignSafe | domain/src/domain/attestations/service.rs:342-412 | the stored staff record verifies over the payload of the row as written, photo hash included |
| Safety.SignedSafe | domain/src/domain/attestations/service.rs:476-526 | a co-signature and the approval it may complete keep the invariant: approved rows have three records verifying over one payload |
| Safety.FreshSignerNewPair | domain/src/domain/attestations/repository.rs:266-297 | a reviewer who has not signed the visit belongs to no pair that already approved there |
| Safety.RejectSafe | domain/src/domain/attestations/service.rs:577-652 | rejection keeps the invariant and undoes no approval, although it overwrites the user's status |
| Safety.IssueSafe | domain/src/domain/soultokens/service.rs:158-292 | issuing adds one token of the requester, puts its id on the user and nothing else, and keeps the invariant |
| Safety.RevokeSafe | domain/src/domain/soultokens/service.rs:366-397 | revocation and surrender stamp the token, clear the holder's token id, reset the holder to registered, touch no other user, and keep the invariant |
| Safety.RenewSafe | domain/src/domain/soultokens/service.rs:569-665 | renewal keeps the invariant: the row is re-signed over its new stored expiry and logged |
| Store.Database.ReviewerSign | domain/src/domain/attestations/service.rs:418-571 | the statements have exactly the effect of the atomic command, and an error undoes all of them |
| Store.Database.InitiateAttestation | domain/src/domain/attestations/service.rs:180-336 | same, for opening an attestation, with the checks in the source's order |
| Store.Database.StaffSign | domain/src/domain/attestations/service.rs:342-412 | same, for the staff signature |
| Store.Database.AdvanceThreshold | domain/src/domain/presence/service.rs:105-213 | counters, completion, link, notice and promotion of one qualifying event |
| Store.Database.RecordBeaconDwell | domain/src/domain/presence/service.rs:221-364 | a dwell has the effect of its specification: qualifying, or logged as not qualifying |
| Store.Database.RecordNfcTap | domain/src/domain/presence/service.rs:369-495 | a tap uses the box up and qualifies, or is logged, or fails without effect |
| Store.Database.IssueSoultoken | domain/src/domain/soultokens/service.rs:158-292 | insert, sign over stored values, set the user's token id |
| Store.Database.RenewSoultoken | domain/src/domain/soultokens/service.rs:569-665 | extend, re-sign, append to the renewal log |
| Store.Database.CollectOrder | domain/src/domain/orders/service.rs:208-308 | stale read, guarded tap, order choice and collection have the effect of one collection; a lost race or a missing order leaves everything as it was |
| Store.Database.Execute | domain/src/transaction.rs:24-28 | one request of any kind does to the fields of the class exactly what one step of the state machine does, succeeds exactly when the command does, and keeps the invariant |
| Store.Database.Serve | domain/src/transaction.rs:24-28 | any sequence of requests leaves the class in the state of the run, with the invariant kept and nothing permanent undone |
| Store.Operate | domain/src/domain/soultokens/service.rs:158-212 | whoever a new database shows as attested or as token holder after any requests has earned it |
| Store.Database.ActivateBox | domain/src/domain/orders/service.rs:137-202 | delivery staff add an untapped box without an order |
| Presence.QualifyKeepsValid | domain/src/domain/presence/service.rs:105-213 | a qualifying event keeps every threshold row equal to what its log says: events, pairs, links, completion, notices |
| Presence.QualifyGrows | domain/src/domain/presence/repository.rs:132-156 | a completion time once set never changes, and an event completes only its own user, once |
| Presence.QualifyStamps | domain/src/domain/presence/service.rs:105-165 | the user's threshold row after a qualifying event, in full: counters equal to the log's, the time of the event, the completion time kept or set to now once three events on three pairs are logged |
| Presence.MetIsEarned | domain/src/domain/presence/service.rs:131-152 | a user's threshold is met iff three qualifying events on three (business, date) pairs are logged, and it is announced exactly then |
| Presence.PairsAreDatesIff | domain/src/domain/presence/service.rs:82-99 | the stored day count is the number of dates iff no two businesses share a day |
| Presence.OneDayCanSuffice | domain/src/domain/presence/service.rs:82-152 | three businesses on one day meet the threshold |
| Presence.RefuseKeepsValid | domain/src/domain/presence/service.rs:255-312 | an event that does not qualify is logged and counts for nothing |
| Reviewers.SearchPair | domain/src/domain/attestations/service.rs:133-171 | the nested loops with early return find the first allowed pair |
| Reviewers.FirstPairIsFirst | domain/src/domain/attestations/service.rs:142-166 | the pair found is allowed and no allowed pair precedes it in loop order |
| Reviewers.AssignSound | domain/src/domain/attestations/service.rs:106-172 | the assigned reviewers are two, eligible, neither the staff, and at most three co-signs together |
| Reviewers.AssignComplete | domain/src/domain/attestations/service.rs:106-172 | any two eligible reviewers within the limit guarantee an assignment, and none precedes it lexicographically |
| Reviewers.AssignFailsIff | domain/src/domain/attestations/service.rs:133-171 | assignment fails iff fewer than two are eligible or every pair is over the limit |
| Reviewers.EligibleIff | domain/src/domain/attestations/service.rs:112-124 | a user is eligible iff they hold the reviewer role, are not the staff, and every unrevoked role of theirs at the location was granted at least 30 days ago |
| Reviewers.CosignedIff | domain/src/domain/attestations/service.rs:147-156 | a visit counts for a pair iff both signed it, the first of them within 7 days |
| Attestations.CheckBothSigned | domain/src/domain/attestations/repository.rs:299-334 | whatever order the rows come in, both records are returned, in reviewer order, iff both have signed |
| Attestations.RecordOfVerified | domain/src/domain/attestations/service.rs:466-473 | what passed verification is stored as a record that parses back and verifies over the same payload |
| Attestations.IsSha256HexIff | domain/src/domain/attestations/service.rs:93-99 | a photo hash is accepted iff it is the lower-case hex of some 32 bytes |
| Ed25519.VerifyAggregated | domain/src/crypto/ed25519.rs:108-125 | true iff there is at least one pair, as many keys as signatures, and every pair verifies over the one payload |
| Ed25519.FailsIff | domain/src/crypto/ed25519.rs:78-102 | which error a malformed key or signature gets, the key's first |
| Ed25519.RecordRoundTripIff | domain/src/domain/attestations/service.rs:45-64 | a stored record parses back to its parts iff the key has no colon and neither part is empty |
| Ed25519.VerifiedRoundTrips | domain/src/domain/attestations/service.rs:45-64 | every verified key and signature round-trips |
| Soultokens.IssuedRow | domain/src/domain/soultokens/service.rs:211-244 | the new row is signed over its stored timestamps and starts its renewal chain |
| Soultokens.RenewedRow | domain/src/domain/soultokens/service.rs:591-625 | renewal re-signs over the stored expiry, extends the chain, never shortens |
| Soultokens.ChainAt | domain/src/domain/soultokens/repository.rs:144-169 | each renewal lies between issued and stored expiry; the first starts at one and the last ends at the other |
| Soultokens.LogReads | domain/src/domain/soultokens/repository.rs:144-188 | two successive renewals of a token link up |
| Soultokens.TimePasses | domain/src/domain/soultokens/repository.rs:82-98 | expiry alone never breaks uniqueness or validity |
| Soultokens.RevokeKeepsValid | domain/src/domain/soultokens/repository.rs:100-126 | revoking a row keeps all others' facts |
| Orders.CollectKeeps | domain/src/domain/orders/service.rs:208-308 | a collection uses an untapped box for one order of the tapping user and leaves settled orders and tapped boxes alone |
| Orders.TapKeeps | domain/src/domain/orders/repository.rs:225-243 | a box is tapped at most once |
| Orders.CancelKeeps | domain/src/domain/orders/service.rs:327-368 | cancelling touches no settled order |
| Orders.CollectIsFinalIff | domain/src/domain/orders/service.rs:273-285 | with pre-assigned boxes, collection respects finality iff the pre-assigned order is absent or still open, and collects the tapping user's order iff it is absent or theirs |
| Base36.Accumulate | domain/src/domain/soultokens/service.rs:66-69 | the shift-and-or loop computes the base-256 value, modulo 2^128 |
| Base36.FillDigits | domain/src/domain/soultokens/service.rs:70-74 | the array filled from the back holds the 12 base-36 digits |
| Base36.Base36Encode | domain/src/domain/soultokens/service.rs:64-76 | up to 16 bytes the code denotes the value modulo 36^12 |
| Base36.DecodeEncode | domain/src/domain/soultokens/service.rs:64-76 | up to 16 bytes the accumulator does not overflow and decoding recovers the value modulo 36^12 |
| Base36.SameCodeIff | domain/src/domain/soultokens/service.rs:64-76 | two inputs share a code iff congruent modulo 36^12 |
| Base36.CollisionFreeIff | domain/src/domain/soultokens/service.rs:55-76 | inputs of one length never collide iff the length is at most 7 |
| Base36.DisplayCodeDecodes | domain/src/domain/soultokens/service.rs:55-61 | the hyphenated code decodes to the tag prefix modulo 36^12 |
| Base36.SameDisplayCodeIff | domain/src/domain/soultokens/service.rs:55-61 | two tags share a display code iff their 9-byte prefixes are congruent |
| Payloads.AttestationPayloadInjective | domain/src/domain/attestations/service.rs:31-39 | payloads agree iff id, visit, user and photo hash do (absent and empty alike), even if the hash holds the separator |
| Payloads.SoultokenPayloadInjective | domain/src/domain/soultokens/service.rs:97-112 | payloads agree iff every field does |
| Payloads.Rfc3339Injective | domain/src/domain/soultokens/service.rs:104-111 | timestamp text determines the instant to the nanosecond |
| Payloads.AttestationLayout | domain/src/domain/attestations/service.rs:31-39 | the payload signed, field for field |
| Payloads.Rfc3339Reads | domain/src/domain/soultokens/service.rs:104-111 | timestamp text splits into the texts of date and time, which read back as their fields (with DateReads, TimeReads and FractionReads) |
| Payloads.UuidReads | domain/src/domain/soultokens/service.rs:104-111 | hyphens at their four places, and hex digits between them that decode to the bytes |
| Payloads.WitnessInputInjective | domain/src/domain/beacons/service.rs:95-105 | a witness input determines business, date and user |
| Payloads.DailyUuidInputInjective | domain/src/domain/beacons/service.rs:62-70 | a daily-UUID input determines business and date |
| Payloads.UsesAreSeparated | domain/src/domain/beacons/service.rs:62-105 | no daily-UUID input is a witness input |
| AttestationTokens.BusinessLimit | domain/src/domain/attestation_tokens/service.rs:232-241 | in every run a business has at most eleven successes in any interval shorter than a minute, whatever attempts are mixed in |
| AttestationTokens.AtMostOneSuccess | domain/src/domain/attestation_tokens/service.rs:210-253 | no two log entries of a run are successes of one token |
| AttestationTokens.NeverAgain | domain/src/domain/attestation_tokens/service.rs:197-253 | a verified, revoked or expired token never succeeds in any continuation |
| AttestationTokens.VerifyRefusedIff | domain/src/domain/attestation_tokens/service.rs:197-253 | a presentation is refused iff the token is unexpired, unverified and unrevoked and its business made more than ten attempts in the last minute; it succeeds iff the token is so and there were at most ten; every other outcome is what the token's own marks say, in order; each is logged, and a success marks the token |
| AttestationTokens.FreshTokenIff | domain/src/domain/attestation_tokens/service.rs:61-253 | a token just issued, presented by a business within its limit, verifies if presented within 15 minutes of its issue and is expired after |
| AttestationTokens.RevokedIsTold | domain/src/domain/attestation_tokens/service.rs:219-340 | a token its user has just revoked is told as revoked |
| AttestationTokens.RecentIsLastMinute | domain/src/domain/attestation_tokens/repository.rs:138-154 | the count of the query is the size of the set of the business's attempts in the last minute |
| AttestationTokens.DeskIssueAnswer | domain/src/domain/attestation_tokens/service.rs:61-146 | which requests for a token are accepted and which error each other gets; the token names a live soultoken of the user and lasts 15 minutes |
| AttestationTokens.SuccessIsBacked | domain/src/domain/attestation_tokens/service.rs:61-146 | when a token verifies, its user earned the attestation and held the soultoken unrevoked and unexpired within the last 15 minutes |
| AttestationTokens.DeskAuthority | domain/src/domain/attestation_tokens/service.rs:197-340 | across all requests, a token is revoked only by its own user and marked verified only by its raw form while unexpired, unverified and unrevoked |
| AttestationTokens.DeskIssues | domain/src/domain/attestation_tokens/service.rs:61-146 | across all requests, tokens come only from an admitted user's request, over a live soultoken of theirs, valid 15 minutes |
| AttestationTokens.TokenDesk.Execute | domain/src/domain/attestation_tokens/service.rs:159-340 | one request to desk or pipeline is one step of the run the guarantees are about |
| AttestationTokens.Operate | domain/src/domain/attestation_tokens/service.rs:232-253 | a new desk over a new database keeps the limit and lets no token succeed twice, under any requests |
| LimitReachability.ElevenAreReached | domain/src/domain/attestation_tokens/service.rs:232-241 | the limit of eleven is attained: a run from registered users with eleven successes in one instant |
| Assessments.SuspendedIff | domain/src/domain/staff/repository.rs:292-342 | every stored count is the number of failures in its window, and a business is suspended iff it failed three times with the first less than twelve months before the last |
| Assessments.SuspendedByRunIff | domain/src/domain/staff/repository.rs:292-342 | the same read off the assessments made and their times: a business is suspended iff it failed three, the first made less than twelve months before the last |
| Assessments.SuspendedForever | domain/src/domain/staff/repository.rs:325-339 | no later assessment lifts a suspension |
| Assessments.CountIsCardinality | domain/src/domain/staff/repository.rs:299-309 | the count of a window is the size of the set of its failures |
| Assessments.SubmitAnswer | domain/src/domain/staff/service.rs:378-426 | who may assess which visit, that it passes iff all three points do, the count the new row stores, and that a third failure within twelve months suspends as of now |
| Assessments.Operate | domain/src/domain/staff/repository.rs:292-342 | a new book that records any assessments shows as suspended exactly the businesses with three failures within a year |
| Configuration.ConfigurationAgrees | domain/src/domain/platform_configuration/service.rs:132-185 | after any mix of seeding and updates, the history read from the seeded default gives the current value, changes chain, the type is unchanged, and all values are valid for it |
| Configuration.SeedingNeverOverwrites | domain/src/domain/platform_configuration/repository.rs:94-113 | re-seeding any number of times changes no stored row and no history |
| Configuration.UpdateSticks | domain/src/domain/platform_configuration/service.rs:132-185 | a valid update by an administrator is what the key's row holds after any seeding that follows, with who set it |
| Configuration.SeededIsStored | domain/src/domain/platform_configuration/repository.rs:94-113 | once seeded, every default's key is stored for good |
| Configuration.SeedingIsHarmless | domain/src/domain/platform_configuration/repository.rs:94-113 | seeding is idempotent and leaves every default's key present |
| Configuration.DefaultsValidate | domain/src/domain/platform_configuration/types.rs:58-82 | every default has a value valid for its type |
| Configuration.IntegerRoundTrip | domain/src/domain/platform_configuration/service.rs:31-61 | a written integer is valid iff it fits 64 bits, and reads back as itself |
| Configuration.ParseI64Iff | domain/src/domain/platform_configuration/service.rs:31-61 | what parses is exactly an optional sign before digits whose value fits 64 bits |
| Configuration.ConfigurationStore.SeedDefaults | domain/src/domain/platform_configuration/repository.rs:94-113 | the loop inserts each absent default in order |
| Configuration.Operate | domain/src/domain/platform_configuration/service.rs:73-185 | a new store seeded and updated in any order agrees with its history at every key |
| Rollout.RolloutIsExact | domain/src/domain/platform_configuration/service.rs:251-256 | of any 100 consecutive user ids exactly min(pct, 100) are enabled, none for a negative pct, negative ids included |
| Rollout.RaisingKeepsEnabled | domain/src/domain/platform_configuration/service.rs:225-257 | raising the percentage disables nobody |
| Rollout.RolloutIff | domain/src/domain/platform_configuration/service.rs:251-256 | for a flag that is off and a user not listed, enabled iff the id's last two digits, counted upwards for negative ids too, are below the percentage; anonymous callers count as 0 |
| MagicLinks.PruningIsInvisible | server/src/tasks/retention.rs:47-58 | pruning inserted anywhere leaves every verification result of the run as it is without |
| MagicLinks.ClaimedAtMostOnce | domain/src/domain/auth/service.rs:231-268 | a token hash is claimed at most as often as a link with it was requested, in every run |
| MagicLinks.FifteenMinutesIff | domain/src/domain/auth/service.rs:125-268 | a requested link of an account that is not banned signs it in iff it is used within 15 minutes |
| MagicLinks.NothingLeft | domain/src/domain/auth/service.rs:241-268 | after a verification the same token is refused at once |
| MagicLinks.VerifyAnswer | domain/src/domain/auth/service.rs:231-298 | the first unused, unexpired link of the hash decides the answer; exactly the matching links are stamped as used |
| MagicLinks.PruneKeeps | server/src/tasks/retention.rs:47-58 | pruning keeps every link, in every number, but those used over an hour ago or expired over a day ago |
| MagicLinks.SpentWithoutSignInIff | domain/src/domain/auth/service.rs:241-290 | a verification claims a link and fails iff the link's account is missing or banned |
| MagicLinks.RefusedUntilRequested | domain/src/domain/auth/service.rs:241-290 | after any verification of a token it is refused in every continuation without a new request of its hash, a lifted ban included |
| MagicLinks.BannedLinkIsSpent | domain/src/domain/auth/service.rs:241-290 | the failing input: requested, banned, tried, unbanned, and refused |
| MagicLinks.Operate | domain/src/domain/auth/service.rs:125-298 | a store that serves any operations answers as the run does without its pruning |
| Revocations.RevokedIff | domain/src/auth/mod.rs:91-165 | for a token not past its expiry the purged list says revoked iff it was revoked earlier in the run, and purging changed no answer |
| Revocations.AnswerIff | domain/src/auth/mod.rs:91-165 | asked at the end of any run about a token not past its expiry, the purged list says revoked iff it was revoked in the run |
| Revocations.RevocationList.IsRevoked | domain/src/auth/mod.rs:95-100 | purge then look up: revoked iff listed with an expiry still ahead |
| Revocations.Operate | domain/src/auth/mod.rs:91-165 | a list that serves any operations answers as one that is never purged |

## Left out

- Interleaving of commands other than `reviewer_sign`: `staff_sign`, `reject_attestation`, `verify_token` and `record_nfc_tap`
  read without a lock, and each is one atomic step here. Locks on user rows are not modelled.
- CoSigning.CommitRefinesIff: one clock reading per transaction, after the lock is granted; the database would stamp the row with the transaction's start.
- AttestationTokens.BusinessLimit: for logs of at most 2^31 rows, where the count fits its 32-bit cast; the log's own 32-bit ids run out at the same point.
- Revocations.RevokedIff: for expiries below 2^63, the largest a signed timestamp can hold; the 24-hour grace of the durable table and any leeway of the JWT library are not modelled.
- Redis: magic-link rate limiting and the shared revocation list depend on which store answers.
- Database failures, CHECK constraints, triggers (among them the cascade that switches off a suspended business's beacons), row-level security, and uniqueness the code does not name (a display-code collision would fail the insert).
- Audit rows, verification events, the assignment log and the attempt log: written with errors ignored.
- `users.attested_at`, device, location, scope-metadata, description and cache columns; the identity credential noted on a soultoken.
- Background checks, cooling periods, beacon key rotation, visits, billing, support, whisked orders, HTTP, and foreign services.
- Random generation of UUIDs and tokens: chosen freely by each step, so no uniqueness of random values is assumed.
