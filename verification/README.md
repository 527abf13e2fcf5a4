# Verified model of the x402 gateway

The gateway sells API access per payment. What a buyer and the operator can rely on
comes from a few stateful parts and the protocol that ties them together. This
project models those parts and proves what they keep over all inputs, all request
sequences and all interleavings. `dafny verify dfyconfig.toml` checks the whole of it.

| module | what it is |
|---|---|
| `RateLog`, `RateLimit` | the free tier's sliding window. `RateLog` is the specification: a limiter that remembers every admitted timestamp. `RateLimit` holds the in-process and the Redis limiter, each proved to answer as that log would; the promises to clients are proved about the log |
| `QuotaSpend` | the compare-exchange loop that spends a session's quota, under every interleaving of any number of threads |
| `Text`, `Token` | the printed session token, its authentication and its inverse |
| `Replay` | payment claims in both stores |
| `Session` | both session stores, each proved to answer from a ledger of every session ever sold |
| `PaymentProtocol` | streams, immediate requests, `/settle` calls, time and the cleanup tick as interleaved steps on one replay cache |
| `Stream`, `FacilitatorApi` | one stream of the deferred filter; one `/settle` call |
| `StreamProtocol` | a stream's two phases as steps of the protocol, so that what holds of every interleaving holds of streams |
| `Breaker` | the settlement circuit breaker and what it does to a policy's traffic |
| `Timing`, `Policy`, `Sui` | the `Server-Timing` header, resolution of a request to its terms, on-chain verification |

Classes carry ghost fields (`log`, `ledger`, `history`) that record what happened. A
method's `ensures` says that the concrete fields answer as that record does, and the
lemmas then speak about the record.

## Hypotheses

- Fractions (`f64` in the program) are exact reals. Integers are unbounded, except
  where the program saturates a `u64`; sums of amounts stay within `i128`.
- The clock does not run backwards for one key, one store or one protocol run.
- A policy's window length is positive and fixed. The ceiling may change between
  requests where a lemma takes a list of `Hit`s; the bounds are stated under one ceiling.
- Lua scripts, Redis pipelines and operations on one entry of a concurrent map are
  indivisible. The quota loop is the exception: it is interleaved step by step.
- The MAC, the transaction digest, the base64 decoder and the reader of decimal
  fractions are arbitrary functions; where injectivity matters it is a premise.
- Session identifiers are never drawn twice. Where the two session stores are compared,
  tokens are not forged: one that verifies presents a text that the gateway signed
  earlier in the run (`Unforged`). Policy names are not empty there, deadlines in
  milliseconds stay below 2^63 and quotas below 2^53, which is what Redis and its
  scripts can count. The quota balance needs only that identifiers are not drawn twice.
- Fullnode verdicts, broadcast results and whether a store can be reached are inputs.
- `PaymentProtocol.OnePaymentOneOwner` takes claims of any TTL on either store. It
  assumes that every holder is done with a payment while its claim still keeps others
  out: on Redis, for the claim's own TTL; in memory, for the least TTL anybody claims
  under, with replay records retained at least that long. Whatever callers of `/settle`
  name, that is never less than 300 seconds. None of it can be dropped:
  `PaymentProtocol.LateReleaseSettlesTwice`, `PaymentProtocol.ShorterTimeoutTakesOver`
  and `PaymentProtocol.EarlySweepTakesOver`.
- `Replay.BackendsAgree` compares the two replay stores under one TTL, and
  `Replay.OneTtlIsNeeded` shows that they differ otherwise.

## Where the code does less than its comments say

The model follows the code in each case, and a lemma gives the exact condition.

- `src/ratelimit.rs:268-269` says that the Redis estimate matches the in-process one
  exactly. In the first window since the epoch `previous_start` saturates to the
  current window, whose counter is then read twice. See `RateLimit.FirstWindowAgreement`.
- `src/session.rs:240-247` asks for a replay retention of at least the claim TTL. No
  configuration check enforces it, and `src/main.rs:136-142` passes the duration of a
  paid session. See `Replay.SweepIsInvisible`.
- The in-process claim compares a record's age with the TTL of the newcomer, Redis with
  that of the first claim, and `/settle` takes the timeout from its caller
  (`src/facilitator_api.rs:238`). See `Replay.OneTtlIsNeeded` and
  `PaymentProtocol.ShorterTimeoutTakesOver`.
- `src/x402.rs:535-538` says that the whole of `accepted` is compared with what was
  advertised. `maxTimeoutSeconds` and `extra` are not. See `Stream.Facilitator.WholeTermsIff`
  and `Stream.Facilitator.AlteredTermsPass`.
- `release_payment` removes a record whoever made it, so a holder that outlives its TTL
  frees somebody else's claim. See `PaymentProtocol.LateReleaseSettlesTwice`.
- `docs/settlement-failure.md:34` has the breaker open past a failure rate of 50%.
  A success clears the window, so the rate is always one and the test is for five
  failures in a row. See `Breaker.SettlementBreaker.Record`.
- The half-open state is described as a probe by one payment. Every request asks
  (`src/ext_proc.rs:480`), so one without a payment can take the probe, and nothing
  returns it. See `Breaker.RecoveryNeedsAPaymentInFlight` and `Breaker.UnpaidRequestLocksOut`.
- `src/config.rs:653` calls the order of routes irrelevant. That is so exactly when no
  two different routes claim one prefix, which validation does not reject. See
  `Policy.OrderIsIrrelevantIff`.
- Redis stores a session without a policy as one with the empty name. See
  `Session.ScopesAgree`.
- In stub mode a transaction that is not base64 is accepted but has no payment id, so
  nothing is claimed for it. See `Stream.Facilitator.VerifiedPaymentHasAnId`.

## Model

| member | source | states |
|---|---|---|
| RateLimit.MemoryRateLimiter.CheckAt | src/ratelimit.rs:162-219 | two counters per key, rolled over lazily, give every answer (allowed, remaining, limit, reset) that the full log of admitted timestamps gives, and record the request exactly if it was admitted |
| RateLimit.MemoryRateLimiter.Entry | src/ratelimit.rs:170-195 | creating or rolling over an entry, after any gap, leaves a summary of the key's whole log for the window of `now` |
| RateLimit.MemoryRateLimiter.Decide | src/ratelimit.rs:197-218 | the fractional estimate of a current entry decides, meters and times as the weighted log does |
| RateLimit.MemoryRateLimiter.CleanupIdleAt | src/ratelimit.rs:229-236 | the idle sweep forgets exactly the keys two of their own windows old, and no later answer can tell |
| RateLimit.RedisRateLimiter.CheckAt | src/ratelimit.rs:255-303 | the Redis limiter gives the log's answers from the second window on, its own stated answer in the first, and on an unreachable store denies without counting |
| RateLimit.RedisRateLimiter.RunScript | src/ratelimit.rs:107-118 | the script with its `INCR` and `EXPIRE` answers from, and extends, the same log; the expiry of twice the window never loses a counter a later decision reads |
| RateLimit.RedisRateLimiter.Evaluate | src/ratelimit.rs:109-116 | the script's arithmetic on two counters is the log's decision and remaining count |
| RateLimit.RollKeepsTrack | src/ratelimit.rs:183-193 | rolling by one window carries the count over, by more drops it, and either way the entry still summarises the log |
| RateLimit.IdleIsStale | src/ratelimit.rs:229-236 | an entry the sweep may drop holds no timestamp that any later estimate weighs |
| RateLimit.SweepKeeps | src/ratelimit.rs:229-236 | whatever subset of idle keys is dropped, the map still holds all that later decisions need |
| RateLimit.EstimateDecides | src/ratelimit.rs:197-218 | comparing the real-valued estimate with the ceiling, and metering from it, is comparing the log's integer load |
| RateLimit.ReadsCounts | src/ratelimit.rs:107-111 | a `GET` that may find its key expired still returns the log's count of that window |
| RateLimit.IncrementKeeps | src/ratelimit.rs:115-117 | after `INCR` and `EXPIRE` every live counter of every key still counts its window of the log |
| RateLimit.ServeBoth | src/ratelimit.rs:107-307 | over every sequence of requests on any keys, with idle sweeps in between and times of one window or more, memory, Redis and the log give the same answers |
| RateLimit.FirstWindowAgreement | src/ratelimit.rs:261-269 | in the first window since the epoch the backends agree on every count if and only if the ceiling is at most one, or is two after the first second |
| RateLimit.KeysAreIndependent | src/ratelimit.rs:76-78 | what one key is told, and what is remembered of it, depends only on that key's own requests |
| RateLimit.SharedAllowanceIff | src/ratelimit.rs:51-78 | of two requests with a ceiling of one, the second is denied if and only if both name one policy and come from one V4 address or from one V6 /64 |
| RateLimit.KeysAreClients | src/ratelimit.rs:51-78 | a key stands for exactly one policy and one V4 address or V6 /64 |
| RateLimit.AdmittedIsLogged | src/ratelimit.rs:162-219 | a client's admissions, read off the answers, are the log kept under its key |
| RateLimit.ClientIsBounded | src/ratelimit.rs:40-59 | in any traffic, all requests on one policy from one V4 address, or from all the addresses of one V6 /64 together, are admitted at most the burst ceiling in any `w` consecutive seconds and the ceiling in an aligned window, as read off the answers |
| RateLimit.MeterIsHonouredInTraffic | src/ratelimit.rs:85-88 | in any traffic with sweeps and other clients, of a client's requests after it was told `remaining`, the first that many are admitted |
| RateLimit.ErasedAreInvisible | src/ratelimit.rs:202-210 | in any traffic, erasing sweeps and denied requests of any clients changes nothing that anybody else is told |
| RateLog.WindowStartIsModulo | src/ratelimit.rs:170 | the start of the aligned window, defined by stepping, is `now - now % w` |
| RateLog.LoadIsWeightedCount | src/ratelimit.rs:197-201 | summing per-request weights that decay over the next window is the program's two-counter formula |
| RateLog.AdmittedIff | src/ratelimit.rs:197-210 | a request is admitted if and only if the two windows, weighted by the remaining overlap, are under the ceiling; a denial reports nothing remaining |
| RateLog.ResetIsTheRollover | src/ratelimit.rs:198-218 | every answer names the ceiling and the exact time to the next aligned window |
| RateLog.RunIsAdmissible | src/ratelimit.rs:162-219 | every run under one ceiling leaves a log each entry of which was admitted by the entries before it |
| RateLog.AdmissibleIsReachable | src/ratelimit.rs:162-219 | and every such log is the log of a run, so bounds on logs are bounds on runs and nothing less |
| RateLog.AdmissionBound | src/ratelimit.rs:197-218 | at an admission, both windows together hold at most the ceiling plus the part of the previous window that has slid out, rounded up |
| RateLog.WindowBound | src/ratelimit.rs:162-219 | no aligned window ever admits more than the ceiling |
| RateLog.StraddleBound | src/ratelimit.rs:183-218 | a whole window and the beginning of the next one together stay within the burst ceiling |
| RateLog.BurstBound | src/ratelimit.rs:183-218 | any `w` consecutive seconds admit at most `2L - floor(2L/w)` requests (`L` for one-second windows) |
| RateLog.BurstBoundIsTight | src/ratelimit.rs:183-218 | for every ceiling and every window of two seconds or more a run attains that bound |
| RateLog.RunIsBounded | src/ratelimit.rs:162-219 | both bounds, for every run of one client |
| RateLog.LoadFalls | src/ratelimit.rs:183-201 | with nothing admitted in between, the estimate never rises as time passes, across any number of rollovers |
| RateLog.MeterIsHonoured | src/ratelimit.rs:85-88 | after an admission reporting `remaining`, that many further requests are all admitted, at whatever later times they come |
| RateLog.MeterIsExact | src/ratelimit.rs:85-88 | within the same second exactly `L - 1 - floor(estimate)` more are admitted, which is the reported number or one more |
| RateLog.DeniedAreInvisible | src/ratelimit.rs:202-210 | erasing any denied requests from a run changes neither the log nor any other answer |
| RateLog.DeniedClientRecovers | src/ratelimit.rs:197-210 | a denied client is admitted one second after the reset it was told; at the reset itself, if and only if it had not filled its window |
| QuotaSpend.StepKeeps | src/session.rs:405-421 | every atomic step, a spurious exchange failure included, keeps quota and wins in balance and the returned values distinct |
| QuotaSpend.QuotaIsConserved | src/session.rs:405-421 | under every interleaving, quota left plus successes is the initial quota and the values returned are exactly its top part, each once |
| QuotaSpend.ExactlyTheQuotaIsServed | src/session.rs:405-421 | when all callers have returned, exactly min(callers, quota) were served |
| QuotaSpend.LostRaceMeansProgress | src/session.rs:405-421 | while one caller waits, the counter moves only by serving others, one for one |
| QuotaSpend.LoneCallerIsServed | src/session.rs:405-421 | a caller alone on the counter, after any number of failed exchanges, is served if quota is left and refused if not, and can do nothing else |
| QuotaSpend.CurrentCallerIsServed | src/session.rs:405-421 | whoever holds the current value can be served at once, so quota that is left can always be spent |
| Text.SplitJoin | src/session.rs:133-145 | joining separator-free fields and splitting gives the fields back |
| Text.JoinSplit | src/session.rs:133-145 | splitting loses nothing and leaves no separator in a field |
| Text.ParseDecimal | src/session.rs:150-160 | a printed integer parses to itself exactly when it fits the width |
| Text.HexRoundTrip | src/session.rs:123-146 | hex decoding inverts hex encoding |
| Token.MintedTokenVerifies | src/session.rs:123-166 | a minted token verifies to exactly its claims if and only if it has not expired, no field holds a colon and the payer does not start with white space |
| Token.AcceptedIffAuthentic | src/session.rs:133-166 | accepted are exactly the unexpired texts of four colon-free fields whose last is the MAC of the first three |
| Token.SignedPartInjective | src/session.rs:113-127 | no bytes can be shifted between the signed fields |
| Token.SameMacSameClaims | src/session.rs:113-166 | under a MAC without collisions, two accepted tokens with the same MAC carry the same claims |
| Replay.BackendsAgree | src/session.rs:188-193 | memory, swept at any times, and Redis answer every sequence of claims and releases alike, given one TTL and retention of at least it |
| Replay.StoresStayTogether | src/session.rs:355-397 | along every such run the two stores hold the same live claims |
| Replay.SweepIsInvisible | src/session.rs:386-397 | the sweep changes no later claim if and only if retention is at least the TTL |
| Replay.OneTtlIsNeeded | src/session.rs:355-374 | a claim met again under another TTL gets one answer from both stores at every age if and only if the TTLs are equal |
| Replay.EitherStore | src/session.rs:188-193 | the store of the shared protocol is, in memory, the cache with its sweep, and on Redis the records of the claim script |
| Replay.FreshClaimsAreSpaced | src/session.rs:355-397 | two fresh claims of one id with no release between them are at least the TTL apart, whatever else happens |
| Replay.FreshIff | src/session.rs:355-397 | over every run, a claim is fresh if and only if no earlier fresh claim of that payment is within its TTL and not given back |
| Replay.HeldTenTimeouts | src/auth.rs:943-947 | on either store, a payment is claimable again under the same timeout if and only if ten times that long, and at least 300 seconds, have passed |
| Replay.ClaimIsHeld | src/session.rs:355-397 | from a fresh claim on, the record stands until it is released or its TTL has passed |
| Replay.TtlOutlivesWindow | src/auth.rs:943-947 | a claim is held longer than the advertised payment window |
| Session.MemorySessionStore.CreateSessionAt | src/session.rs:288-311 | the new session is in the ledger under its saturated deadline, and the token names it (`BuyerGetsWhatWasSold` says what that is worth) |
| Session.MemorySessionStore.ConsumeAt | src/session.rs:319-352 | before its session's stored deadline any token gets the ledger's answer, after it a rejection as expired or unknown; any token costs exactly one request of the session it names or nothing |
| Session.StrangersAreRejected | src/session.rs:319-328 | a token that does not verify is rejected with that reason, one that names no session sold as unknown |
| Session.TokenNamesTheDeadline | src/session.rs:330-342 | the stored deadline never decides first: over every run, a token nobody forged names the deadline its session was stored with, so it stops verifying when the session lapses |
| Session.DeadlineStands | src/session.rs:288-352 | no later operation moves or forgets the deadline a session was sold with |
| Session.SessionStands | src/session.rs:288-352 | from its sale on, payer, policy, deadline and quota stay, and what is left is the quota less the requests accepted on that session |
| Session.BuyerGetsWhatWasSold | src/session.rs:288-352 | over every run, the token handed out for a session is accepted, with payer, remaining, quota and deadline, until sale time plus TTL, under the policy it was bought for and until as many requests as bought were accepted; otherwise it is rejected as expired, wrong policy or exhausted, in that order. With `ServeBoth`, on either store |
| Session.MemorySessionStore.ClaimPaymentAt | src/session.rs:355-374 | fresh exactly when no record younger than the TTL exists, and only then re-stamped |
| Session.MemorySessionStore.ReleasePayment | src/session.rs:377-379 | exactly the record of that id is gone |
| Session.MemorySessionStore.CleanupExpiredAt | src/session.rs:386-397 | exactly the expired sessions and the records beyond retention go, and no later answer of the session store can tell |
| Session.SpendOne | src/session.rs:405-421 | alone on the counter, however often the weak exchange fails, it takes one or reports exhaustion |
| Session.RedisSessionStore.CreateSession | src/session.rs:472-505 | as in memory, for deadlines and quotas that Redis can count |
| Session.RedisSessionStore.SpendScript | src/session.rs:218-228 | each sentinel code means its case, in the script's order, and only a non-negative code charges the session |
| Session.RedisSessionStore.Consume | src/session.rs:521-553 | before the stored deadline, under a named policy, any token gets the ledger's answer with the deadline the token names, after it `Unknown`; an unreachable store only rejects; any token costs one request or nothing |
| Session.ScopesAgree | src/session.rs:472-553 | Redis compares scopes as memory does except for no policy against the empty name |
| Session.ServeBoth | src/session.rs:288-553 | over every sequence of create, consume and sweep with unforged tokens, memory and Redis answer as the ledger does and hence alike |
| Session.QuotaIsAccountedFor | src/session.rs:288-352 | over every run and whatever tokens are shown, accepted requests plus unspent quota of live and expired sessions is the quota sold |
| Session.ServeAnybody | src/session.rs:288-352 | the in-process store keeps that balance itself, forged and lapsed tokens included: it never accepts more requests than it sold |
| PaymentProtocol.ArrivalKeeps | src/auth.rs:332-377 | a fresh claim, under any TTL from the floor up, gives a payment its only owner, and no settled payment an early one |
| PaymentProtocol.ResolutionKeeps | src/ext_proc.rs:629-654 | moving on, giving up, or releasing the claim takes ownership from nobody else |
| PaymentProtocol.SettlementKeeps | src/facilitator_api.rs:257-261 | a settlement by the owner keeps its distance from every earlier settlement of that payment |
| PaymentProtocol.StepKeeps | src/ext_proc.rs:597-778 | every step of every surface, of time and of the sweep keeps ownership exclusive and recorded, and settlements apart |
| PaymentProtocol.RunKeeps | src/session.rs:355-397 | so does every run of timely holders, on either store |
| PaymentProtocol.OnePaymentOneOwner | src/ext_proc.rs:629-666 | over all interleavings, with a TTL of its own for every claim, at most one holder owns a payment id, and the claims behind two settlements of one id are as far apart as the first keeps others out: its own TTL on Redis, the floor in memory |
| PaymentProtocol.WhateverTimeoutIsNamed | src/facilitator_api.rs:237-255 | whatever timeouts callers name, that holds for 300 seconds |
| PaymentProtocol.SecondOwnerIff | src/session.rs:355-374 | while a payment has an owner, another arrival is let in if and only if the owner's claim is as old as the TTL of the newcomer (memory) or its own (Redis) |
| PaymentProtocol.ShorterTimeoutTakesOver | src/facilitator_api.rs:238-239 | whoever names a shorter timeout becomes a second owner while the first is within its own TTL, in memory but not on Redis |
| PaymentProtocol.EarlySweepTakesOver | src/session.rs:386-397 | with retention under the TTL, the sweep lets a second owner in while the first is within its TTL |
| PaymentProtocol.LateReleaseSettlesTwice | src/session.rs:377-379 | without timely holders, on either store, two settlements of one payment succeed under claims of the same second |
| PaymentProtocol.StepConserves | src/ext_proc.rs:597-778 | every step, timely or not, keeps the payment, session and quota accounts balanced |
| PaymentProtocol.PaidAccessIsConserved | src/auth.rs:442-538 | over every run: verified payments = settled + failed after serving + discarded + dropped + in flight; sessions are at most the successful settlements; accepted requests plus unspent quota are the quota of the sessions |
| PaymentProtocol.SessionsAreTheMints | src/ext_proc.rs:689-701 | over every run, the sessions stored are exactly those the gateway's successful settlements had to mint, in order and with the quota sold |
| PaymentProtocol.SettlesIff | src/ext_proc.rs:656-666 | a settlement goes on record exactly when the broadcast succeeds for a payment served, or on the other surfaces just claimed, and then it is that payment |
| PaymentProtocol.HolderIsDone | src/ext_proc.rs:611-666 | after a settlement, successful or not, or a hang-up, the holder can never settle again |
| PaymentProtocol.UseIsAcceptedIff | src/session.rs:405-421 | a request on a session is accepted if and only if quota is left, and takes one |
| PaymentProtocol.MetersTellTheRun | src/ext_proc.rs:597-778 | over every run, each meter is the number of payments that were verified, settled, failed after serving, discarded, dropped, or settled in the gateway |
| PaymentProtocol.RecordLeavesIff | src/session.rs:377-397 | a claim leaves the cache if and only if its upstream failed, its `/settle` call failed, or it was swept after retention; a failed verification, a failed gateway settlement and a client that hangs up keep it |
| Stream.Facilitator.PassesIffComparedTermsAgree | src/x402.rs:637-709 | terms pass if and only if the five compared ones are the advertised ones, on the served chain, with a well-formed, non-blank payload |
| Stream.Facilitator.WholeTermsIff | src/x402.rs:535-538 | among payments that pass, the whole of the accepted terms is the advertised one if and only if the timeout and the extras agree too |
| Stream.Facilitator.AlteredTermsPass | src/x402.rs:661-691 | on every chain served a payment passes with any timeout and any extras in its accepted terms |
| Stream.Facilitator.VerifiesIff | src/x402.rs:552-573 | verification takes agreed terms and, against the chain, a transaction and a signature that decode and that the fullnode accepts |
| Stream.Facilitator.SettlesIff | src/x402.rs:576-632 | settlement takes the same and, against the chain, a transaction that executes |
| Stream.Facilitator.VerifiedPaymentHasAnId | src/x402.rs:758-766 | whatever verifies against the chain has a replay id; in stub mode exactly what decodes |
| Stream.Facilitator.SameIdIffSameTransaction | src/x402.rs:758-766 | two payments share an id if and only if they decode to the same transaction, however they are padded |
| Stream.StreamState.Decide | src/auth.rs:261-440 | a session holder is allowed; a payer exactly if the claim, where there is an id, is fresh and the payment verifies, and then payload, terms, claim and verification are recorded; without a payment the free tier decides; a denial leads to nothing but claims |
| Stream.StreamState.HandleRequestHeaders | src/ext_proc.rs:459-594 | an open breaker refuses exactly the requests with a payment, untouched; session holders and free-tier clients without one are served as without it; the verified payment is held, a denial leaves what was held |
| Stream.StreamState.HandleResponseHeaders | src/ext_proc.rs:597-778 | the held payment is taken; it is settled if and only if the upstream answered 2xx, else its claim is released |
| Stream.SettledIff2xx | src/ext_proc.rs:399-404 | for every status code, the payment in hand is settled if the code is 200 to 299, and otherwise its claim is released |
| Stream.ThreeDigitStatus | src/ext_proc.rs:399-404 | of three digits, the first decides: 2 |
| Stream.NoNumberNoSettlement | src/ext_proc.rs:399-404 | a status that is no number settles nothing and releases the claim |
| Stream.DoneIsEarned | src/auth.rs:332-417 | after a request the payment in hand was claimed and then verified on this stream, and past settlements stay justified |
| Stream.SettlingIsEarned | src/ext_proc.rs:656-666 | settling the payment in hand after a 2xx is justified by that claim and that verification |
| Stream.PaidRequestIsResolved | src/ext_proc.rs:597-666 | whatever came before, a payment freshly claimed and verified is settled by a status of 200 to 299 and released by any other |
| Stream.Process | src/ext_proc.rs:410-456 | the loop does what the handlers say, message by message; for every message sequence cut off anywhere: against the chain each settlement follows a fresh claim, a verification of the same payload and terms, and a status of 200 to 299; settlements are at most verifications, which are at most requests |
| StreamProtocol.RequestIsTwoSteps | src/auth.rs:332-417 | the request phase is an arrival and, after anything others do, a verification: it ends with the payment held, or over, as the filter decides |
| StreamProtocol.ResponseIsTwoSteps | src/ext_proc.rs:597-666 | the response phase is an answer and, after anything others do, a settlement: the cache and the settlements change as the handler records |
| StreamProtocol.OneStreamPerTransaction | src/ext_proc.rs:517-521 | in every timely run, no two streams hold a verified payment for one transaction, however its encoding is padded |
| FacilitatorApi.Settle | src/facilitator_api.rs:226-272 | success if and only if the id could be claimed and the chain accepts and executes the payment; success keeps the claim, failure frees it, a refusal changes nothing |
| FacilitatorApi.CallIsTwoSteps | src/facilitator_api.rs:237-271 | a call without interference is an arrival and a settlement of the shared protocol, with the same cache and the same success |
| FacilitatorApi.RepostIsRefused | src/facilitator_api.rs:237-255 | a settled payment posted again within the TTL changes nothing |
| Breaker.SettlementBreaker.StateAt | src/breaker.rs:106-121 | the answer is the rule's on the policy's history: five failures in a row, thirty seconds, one probe; other policies are untouched |
| Breaker.SettlementBreaker.Answer | src/breaker.rs:106-121 | window, opening time and probe flag together implement that rule, and stay an image of the history |
| Breaker.SettlementBreaker.RecordAt | src/breaker.rs:128-165 | one outcome is added to that policy's history and to no other |
| Breaker.SettlementBreaker.Record | src/breaker.rs:128-165 | trimming, rate test and reopening keep the window an image of the trailing failures: the 50% rate is a run of five |
| Breaker.OneProbePerOutcome | src/breaker.rs:106-121 | between two half-open answers an outcome was recorded |
| Breaker.OneSuccessCloses | src/breaker.rs:128-143 | after a success every answer is Closed until five more failures are recorded |
| Breaker.FiveFailuresOpen | src/breaker.rs:106-165 | Closed if and only if fewer than five failures in a row; half-open only thirty seconds after the last; Open before |
| Breaker.EveryAnswer | src/breaker.rs:106-165 | every answer in terms of events alone: Closed unless the last five outcomes failed; then Open for thirty seconds after the last, from then on HalfOpen to the first to ask and Open to the others until the next outcome, as often as this happens |
| Breaker.ClosedAtFirst | src/breaker.rs:106-111 | Closed before anything is recorded |
| Breaker.RunIsTheLastFailures | src/breaker.rs:128-165 | a run of `n` failures is that the last `n` recorded outcomes failed |
| Breaker.AnyRequestTakesTheProbe | src/ext_proc.rs:477-500 | a request takes the probe whether or not it brings a payment |
| Breaker.LostProbeLocksOut | src/ext_proc.rs:477-500 | with the probe out and no payment in flight, no traffic ever makes the policy accept a payment |
| Breaker.RecoveryNeedsAPaymentInFlight | src/ext_proc.rs:477-500 | while the probe is out, the policy can accept payments again if and only if a payment is in flight |
| Breaker.UnpaidRequestLocksOut | src/ext_proc.rs:477-500 | that lock-out is reached from a fresh gateway |
| Timing.ParsingIsCompositional | src/payclient.rs:620-629 | a header is parsed independently on either side of a comma |
| Timing.MalformedDropsOnlyItself | src/payclient.rs:620-629 | an unreadable metric disappears and the others stay as they were |
| Timing.DurationBehindOthers | src/payclient.rs:625 | a duration is found behind any other parameters, and what follows it is not looked at |
| Timing.NoDuration | src/payclient.rs:625 | a metric is dropped if and only if none of its parameters is a readable duration |
| Timing.RoundTrip | src/ext_proc.rs:96-102 | the client reads back the printed phases in order, durations rounded to a tenth |
| Timing.NamesSurviveIff | src/payclient.rs:620-629 | it does so if and only if no name holds a separator or padding |
| Timing.ParsedNamesArePlain | src/payclient.rs:620-629 | whatever the header, parsed names are trimmed and free of separators |
| Timing.ReadFixedReadsPrinted | src/payclient.rs:625 | the number reader assumed by the round trip exists |
| Timing.TenthsIsNearest | src/ext_proc.rs:99 | a printed duration is the nearest tenth to the measured one, and of two equally near the even one |
| Policy.ResolvedPolicy.Apply | src/config.rs:212-237 | each set field of an override replaces its own term, each unset field keeps it |
| Policy.PolicyFor | src/config.rs:658-685 | a known policy name, else the longest matching prefix, else the defaults |
| Policy.TermsOfRequest | src/config.rs:658-685 | the seven fields one by one: a set field of the named policy, or else of a longest route whose prefix the path starts with, replaces the default, an unset one keeps it; the label says which |
| Policy.LastOfEqualPrefixes | src/config.rs:674-679 | of routes with one prefix the last is taken |
| Policy.LongestIsLongest | src/config.rs:674-679 | a route is selected if and only if one matches, and no matching route is longer |
| Policy.OrderDoesNotMatter | src/config.rs:674-679 | permuting unambiguous routes selects the same route for every path |
| Policy.OrderIsIrrelevantIff | src/config.rs:652-653 | route order is irrelevant for all paths and permutations if and only if no two different routes share a prefix |
| Policy.ResolutionIgnoresOrder | src/config.rs:658-685 | nor does the order change the terms or the label of any request |
| Policy.NamedPolicyIsAuthoritative | src/config.rs:666-672 | under a known name neither the path nor the routes matter |
| Policy.UnnamedRequestsFollowTheLongestPrefix | src/config.rs:674-685 | otherwise the terms are those of a longest matching route laid over the defaults, labelled by its prefix |
| Sui.CreditedReordered | src/sui.rs:358-367 | the credited total does not depend on the order of balance changes |
| Sui.CreditVerdictIsInvariant | src/sui.rs:345-379 | nor does the verdict on how one account's change is split, merged and shuffled |
| Sui.AssertInputsAreLive | src/sui.rs:205-274 | passes if and only if every read, one per pin, finds the pinned version; otherwise the error is that of the first pin whose read does not |
| Sui.PinsAreComplete | src/sui.rs:213-233 | the objects read are exactly the owned, the receiving and the gas objects |
| Sui.LiveWhenNothingMoves | src/sui.rs:205-274 | if nothing moves during the reads, passing means that every owned, receiving and gas object is at its pinned version |
| Sui.Verify | src/sui.rs:82-195 | accepted if and only if signature, simulation, liveness of all pins and the exact credit all hold; each refusal names the first step that failed |

## Left out

- Transport: gRPC, HTTP, Redis and fullnode clients, channels, TLS, shutdown. Their results are inputs.
- HMAC, SHA-256, base64, BCS and JSON: library code, arbitrary functions here.
- Rounding of `f64` in the limiter, the breaker and the timings.
- Weak memory in the quota loop: its steps are sequentially consistent.
- Headers, protobuf messages, denial framing, receipts, error codes (an expired authorization and a replay are one refusal here), metrics and logging.
- Configuration parsing and field validation.
- Transaction building, coin selection, path selection and key loading in the paying client; the demo programs.
- RateLimit.RedisRateLimiter.CheckAt: a reply lost after the script ran is not modelled; an unreachable store is one whose script did not run.
- Session.RedisSessionStore.CreateSession: deadlines past 2^63 milliseconds, which `EXPIRE` refuses or the cast to a signed number turns negative, and quotas of 2^53 and more, which the script rounds, are not modelled.
- Replay.BackendsAgree: a TTL too large for Redis to accept is not modelled; the program then refuses the payment.
- Session.RedisSessionStore.Consume: a reply lost after the script ran is not modelled.
- Session.SpendOne: has the counter to itself; the interleaved loop is `QuotaSpend`.
- PaymentProtocol.PaidAccessIsConserved: sessions do not expire there; their deadlines and scopes are in `Session`.
- Stream.StreamState.Decide: covers the deferred filter; the filter that settles at once is the `Immediate` surface of `PaymentProtocol`. Of sessions and the free tier only the verdict enters.
- FacilitatorApi.Settle: runs on the in-process store; Redis, and a release that cannot reach it, are in `PaymentProtocol`.
- Timing.RoundTrip: exponents, infinities and NaN are forms only the arbitrary number reader knows.
- Policy.ResolvedPolicy.Apply: validation of the resulting terms is not part of this model.
