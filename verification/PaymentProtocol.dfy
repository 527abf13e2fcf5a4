/** The payment lifecycle as a concurrent protocol. Streams of the deferred filter
    (`src/ext_proc.rs`), requests of the immediate filter (`src/auth.rs`) and
    `/settle` calls (`src/facilitator_api.rs`) share one replay cache; time and the
    cleanup tick interleave with them. Every step is one uninterrupted piece of the
    program between two awaits. Verification, settlement and the reachability of the
    store are nondeterministic. */
module PaymentProtocol {
  import opened Prelude
  import opened Replay

  datatype Surface =
    | Deferred    // verify, serve, settle on success
    | Immediate   // settle before serving
    | Api         // the /settle endpoint

  datatype Phase =
    | Claimed    // holds a fresh claim; being verified, or settled outright
    | Serving    // verified, the upstream is at work (Deferred)
    | Settling   // the upstream succeeded, settlement under way (Deferred)
    | Over

  /** Who claimed a payment, when, and under what TTL. */
  datatype Holder = Holder(surface: Surface, id: string, claimedAt: nat, ttl: nat, phase: Phase)

  /** A successful settlement and the claim it was made under. */
  datatype Settlement = Settlement(id: string, claimedAt: nat, ttl: nat)

  /** The store of the replay cache, and how long its sweep retains records. */
  datatype Setup = Setup(backend: Backend, retention: nat)

  datatype Grant = Grant(quota: nat, remaining: nat)

  /** The gateway's counters for the deferred filter, and all settlements that may
      mint a session. */
  datatype Meters = Meters(verified: nat, settled: nat, failedAfterServe: nat,
                           discarded: nat, dropped: nat, sellable: nat)

  datatype State = State(now: nat, seen: Records, holders: seq<Holder>,
                         settlements: seq<Settlement>, meters: Meters,
                         sessions: seq<Grant>, accepted: nat)

  datatype Step =
    | Tick(to: nat)
    | Cleanup
    /** A payment arrives and claims its id for as long as the timeout named with it
        makes it; a replay or an unreachable store turns it away without effect. */
    | Arrive(surface: Surface, id: string, timeout: nat, reachable: bool)
    | VerifyOk(h: nat)
    | VerifyFail(h: nat)
    /** The upstream answered; `lost` when the release could not reach the store. */
    | Respond(h: nat, success: bool, lost: bool)
    /** Settlement returned; `mint` is the quota of the session stored, if one was. */
    | Settle(h: nat, ok: bool, mint: Option<nat>, lost: bool)
    /** The client hung up, or the handler was cancelled. */
    | Vanish(h: nat)
    /** A request on a paid session. */
    | Use(session: nat)

  const Start: State := State(0, map[], [], [], Meters(0, 0, 0, 0, 0, 0), [], 0)

  /** `h` is a holder in that phase. */
  predicate In(s: State, h: nat, phase: Phase) {
    h < |s.holders| && s.holders[h].phase == phase
  }

  predicate CanSettle(s: State, h: nat) {
    h < |s.holders| &&
    s.holders[h].phase == if s.holders[h].surface.Deferred? then Settling else Claimed
  }

  function Move(s: State, h: nat, phase: Phase): State
    requires h < |s.holders|
  {
    s.(holders := s.holders[h := s.holders[h].(phase := phase)])
  }

  /** `release_payment` removes the record of an id, whoever made it. */
  function Free(s: State, h: nat, lost: bool): State
    requires h < |s.holders|
  {
    if lost then s else s.(seen := s.seen - {s.holders[h].id})
  }

  /** One step; a step that is not enabled changes nothing. */
  function Next(s: State, step: Step, gw: Setup): State {
    match step
    case Tick(to) => if to >= s.now then s.(now := to) else s
    case Cleanup => s.(seen := SweptOn(gw.backend, s.seen, gw.retention, s.now))
    case Arrive(surface, id, timeout, reachable) =>
      var ttl := ReplayTtl(timeout);
      if reachable && ClaimOn(gw.backend, s.seen, id, ttl, s.now).Fresh? then
        s.(seen := AfterClaimOn(gw.backend, s.seen, id, ttl, s.now),
           holders := s.holders + [Holder(surface, id, s.now, ttl, Claimed)])
      else s
    case VerifyOk(h) =>
      if In(s, h, Claimed) && s.holders[h].surface.Deferred? then
        Move(s, h, Serving).(meters := s.meters.(verified := s.meters.verified + 1))
      else s
    case VerifyFail(h) =>
      // The claim is kept: nothing is released.
      if In(s, h, Claimed) && s.holders[h].surface.Deferred? then Move(s, h, Over) else s
    case Respond(h, success, lost) =>
      if !In(s, h, Serving) then s
      else if success then Move(s, h, Settling)
      else Free(Move(s, h, Over), h, lost)
             .(meters := s.meters.(discarded := s.meters.discarded + 1))
    case Settle(h, ok, mint, lost) =>
      if !CanSettle(s, h) then s else Settled(s, h, ok, mint, lost)
    case Vanish(h) =>
      if h >= |s.holders| || s.holders[h].phase.Over? then s
      else if InFlight(s.holders[h]) then
        Move(s, h, Over).(meters := s.meters.(dropped := s.meters.dropped + 1))
      else Move(s, h, Over)
    case Use(i) =>
      if i < |s.sessions| && s.sessions[i].remaining > 0 then
        s.(sessions := s.sessions[i := s.sessions[i].(remaining := s.sessions[i].remaining - 1)],
           accepted := s.accepted + 1)
      else s
  }

  /** The three surfaces differ in what a settlement does next: only the gateway
      mints sessions, only `/settle` releases on failure. */
  function Settled(s: State, h: nat, ok: bool, mint: Option<nat>, lost: bool): State
    requires h < |s.holders|
  {
    var holder := s.holders[h];
    var over := Move(s, h, Over);
    if ok then
      over.(settlements := s.settlements + [SettlementBy(holder)],
            meters := if holder.surface.Api? then s.meters
                      else if holder.surface.Immediate? then s.meters.(sellable := s.meters.sellable + 1)
                      else s.meters.(settled := s.meters.settled + 1,
                                     sellable := s.meters.sellable + 1),
            sessions := if holder.surface.Api? || mint.None? then s.sessions
                        else s.sessions + [Grant(mint.value, mint.value)])
    else if holder.surface.Api? then Free(over, h, lost)
    else if holder.surface.Deferred? then
      over.(meters := s.meters.(failedAfterServe := s.meters.failedAfterServe + 1))
    else over
  }

  function SettlementBy(holder: Holder): Settlement {
    Settlement(holder.id, holder.claimedAt, holder.ttl)
  }

  function After(steps: seq<Step>, gw: Setup): State {
    if steps == [] then Start else Next(After(steps[..|steps| - 1], gw), steps[|steps| - 1], gw)
  }

  // ------------------------------------------------------------- mutual exclusion

  predicate Active(holder: Holder) {
    !holder.phase.Over?
  }

  /** How long a claim made under `ttl` keeps others out, whoever they are: on Redis for
      that TTL, in memory only for the least TTL that anybody claims under. */
  function Guard(gw: Setup, ttl: nat, floor: nat): nat {
    if gw.backend.Redis? then ttl else floor
  }

  /** Every holder resolves while its claim still keeps others out. */
  predicate Timely(s: State, gw: Setup, floor: nat) {
    forall h :: 0 <= h < |s.holders| && Active(s.holders[h]) ==>
      s.now < s.holders[h].claimedAt + Guard(gw, s.holders[h].ttl, floor)
  }

  /** In memory, records are retained for the floor and nobody claims under less. */
  predicate Retains(gw: Setup, floor: nat) {
    gw.backend.Memory? ==> floor <= gw.retention
  }

  predicate Suits(step: Step, gw: Setup, floor: nat) {
    gw.backend.Memory? && step.Arrive? ==> floor <= ReplayTtl(step.timeout)
  }

  predicate Owns(s: State, h: nat, id: string) {
    h < |s.holders| && Active(s.holders[h]) && s.holders[h].id == id
  }

  /** At most one holder at a time owns a payment id. */
  ghost predicate Exclusive(s: State) {
    forall g: nat, h: nat, id :: Owns(s, g, id) && Owns(s, h, id) ==> g == h
  }

  /** The claims behind two settlements of one id are as far apart as the first keeps
      others out. */
  ghost predicate Spaced(s: State, gw: Setup, floor: nat) {
    forall k, l :: 0 <= k < l < |s.settlements| && s.settlements[k].id == s.settlements[l].id ==>
      s.settlements[k].claimedAt + Guard(gw, s.settlements[k].ttl, floor) <= s.settlements[l].claimedAt
  }

  /** A holder's claim is the one on record. */
  ghost predicate Recorded(s: State) {
    && (forall id :: id in s.seen ==> s.seen[id].value <= s.now)
    && forall h: nat, id :: Owns(s, h, id) ==>
         id in s.seen && s.seen[id] == RecordOf(s.holders[h].claimedAt, s.holders[h].ttl)
  }

  function RecordOf(claimedAt: nat, ttl: nat): Record {
    Record(claimedAt, claimedAt + ttl)
  }

  /** Until its guard has passed, the claim of a settled payment stays on record and
      nobody owns the id. */
  ghost predicate Spent(s: State, x: Settlement, gw: Setup, floor: nat) {
    && x.claimedAt <= s.now
    && (s.now < x.claimedAt + Guard(gw, x.ttl, floor) ==>
          && x.id in s.seen && s.seen[x.id] == RecordOf(x.claimedAt, x.ttl)
          && forall h: nat :: !Owns(s, h, x.id))
    && forall h: nat :: Owns(s, h, x.id) ==>
         x.claimedAt + Guard(gw, x.ttl, floor) <= s.holders[h].claimedAt
  }

  ghost predicate Inv(s: State, gw: Setup, floor: nat) {
    && Exclusive(s)
    && Spaced(s, gw, floor)
    && Recorded(s)
    && forall k :: 0 <= k < |s.settlements| ==> Spent(s, s.settlements[k], gw, floor)
  }

  lemma ClockKeeps(s: State, to: nat, gw: Setup, floor: nat)
    requires Inv(s, gw, floor) && to >= s.now
    ensures Inv(s.(now := to), gw, floor)
  {
    var s' := s.(now := to);
    assert forall h: nat, id :: Owns(s', h, id) == Owns(s, h, id);
    forall k | 0 <= k < |s'.settlements| ensures Spent(s', s'.settlements[k], gw, floor) {
      assert Spent(s, s.settlements[k], gw, floor);
    }
  }

  lemma CleanupKeeps(s: State, gw: Setup, floor: nat)
    requires Inv(s, gw, floor) && Timely(s, gw, floor) && Retains(gw, floor)
    ensures Inv(s.(seen := SweptOn(gw.backend, s.seen, gw.retention, s.now)), gw, floor)
  {
    var s' := s.(seen := SweptOn(gw.backend, s.seen, gw.retention, s.now));
    assert forall h: nat, id :: Owns(s', h, id) == Owns(s, h, id);
    forall k | 0 <= k < |s'.settlements| ensures Spent(s', s'.settlements[k], gw, floor) {
      assert Spent(s, s.settlements[k], gw, floor);
    }
  }

  lemma ArrivalKeeps(s: State, surface: Surface, id: string, ttl: nat, gw: Setup, floor: nat)
    requires Inv(s, gw, floor) && Timely(s, gw, floor)
    requires gw.backend.Memory? ==> floor <= ttl
    requires ClaimOn(gw.backend, s.seen, id, ttl, s.now).Fresh?
    ensures Inv(s.(seen := s.seen[id := RecordOf(s.now, ttl)],
                   holders := s.holders + [Holder(surface, id, s.now, ttl, Claimed)]), gw, floor)
  {
    var n := |s.holders|;
    var s' := s.(seen := s.seen[id := RecordOf(s.now, ttl)],
                 holders := s.holders + [Holder(surface, id, s.now, ttl, Claimed)]);
    // Nobody owns the id: a timely owner's record would have refused the newcomer.
    assert forall h: nat :: !Owns(s, h, id);
    assert forall h: nat, x :: Owns(s', h, x) <==> (Owns(s, h, x) || (h == n && x == id));
    assert forall h :: 0 <= h < n ==> s'.holders[h] == s.holders[h];
    forall k | 0 <= k < |s'.settlements| ensures Spent(s', s'.settlements[k], gw, floor) {
      assert Spent(s, s.settlements[k], gw, floor);
    }
  }

  /** A holder that goes on, or is over without a settlement; its record may be freed. */
  lemma ResolutionKeeps(s: State, h: nat, phase: Phase, freed: bool, gw: Setup, floor: nat)
    requires Inv(s, gw, floor) && h < |s.holders| && Active(s.holders[h])
    requires freed ==> phase.Over?
    ensures Inv(if freed then Free(Move(s, h, phase), h, false) else Move(s, h, phase), gw, floor)
  {
    var id := s.holders[h].id;
    var s' := if freed then Free(Move(s, h, phase), h, false) else Move(s, h, phase);
    assert Owns(s, h, id);
    assert forall g: nat, x :: Owns(s', g, x) <==> Owns(s, g, x) && (g != h || !phase.Over?);
    assert forall g :: 0 <= g < |s.holders| ==>
      s'.holders[g].claimedAt == s.holders[g].claimedAt && s'.holders[g].ttl == s.holders[g].ttl;
    forall k | 0 <= k < |s'.settlements| ensures Spent(s', s'.settlements[k], gw, floor) {
      assert Spent(s, s.settlements[k], gw, floor);
    }
  }

  lemma SettlementKeeps(s: State, h: nat, gw: Setup, floor: nat)
    requires Inv(s, gw, floor) && Timely(s, gw, floor) && h < |s.holders| && Active(s.holders[h])
    ensures var x := SettlementBy(s.holders[h]);
            Inv(Move(s, h, Over).(settlements := s.settlements + [x]), gw, floor)
  {
    ResolutionKeeps(s, h, Over, false, gw, floor);
    var x := SettlementBy(s.holders[h]);
    var moved := Move(s, h, Over);
    var s' := moved.(settlements := s.settlements + [x]);
    assert Owns(s, h, x.id);
    assert forall g: nat, y :: Owns(s', g, y) <==> Owns(s, g, y) && g != h;
    assert forall g: nat, y :: Owns(s', g, y) <==> Owns(moved, g, y);
    assert Spent(s', x, gw, floor);
    forall k | 0 <= k < |s'.settlements| ensures Spent(s', s'.settlements[k], gw, floor) {
      if k < |s.settlements| {
        assert Spent(moved, moved.settlements[k], gw, floor) && Spent(s, s.settlements[k], gw, floor);
      }
    }
  }

  /** The invariant does not look at meters or sessions. */
  lemma BookkeepingKeeps(s: State, s': State, gw: Setup, floor: nat)
    requires Inv(s, gw, floor)
    requires s'.now == s.now && s'.seen == s.seen && s'.holders == s.holders
             && s'.settlements == s.settlements
    ensures Inv(s', gw, floor)
  {
    assert forall h: nat, id :: Owns(s', h, id) == Owns(s, h, id);
    forall k | 0 <= k < |s'.settlements| ensures Spent(s', s'.settlements[k], gw, floor) {
      assert Spent(s, s.settlements[k], gw, floor);
    }
  }

  lemma StepKeeps(s: State, step: Step, gw: Setup, floor: nat)
    requires Inv(s, gw, floor) && Timely(s, gw, floor)
    requires Retains(gw, floor) && Suits(step, gw, floor)
    ensures Inv(Next(s, step, gw), gw, floor)
  {
    var s' := Next(s, step, gw);
    match step {
      case Tick(to) =>
        if to >= s.now {
          ClockKeeps(s, to, gw, floor);
        }
      case Cleanup =>
        CleanupKeeps(s, gw, floor);
      case Arrive(surface, id, timeout, reachable) =>
        if reachable && ClaimOn(gw.backend, s.seen, id, ReplayTtl(timeout), s.now).Fresh? {
          ArrivalKeeps(s, surface, id, ReplayTtl(timeout), gw, floor);
        }
      case VerifyOk(h) =>
        if In(s, h, Claimed) && s.holders[h].surface.Deferred? {
          ResolutionKeeps(s, h, Serving, false, gw, floor);
          BookkeepingKeeps(Move(s, h, Serving), s', gw, floor);
        }
      case VerifyFail(h) =>
        if In(s, h, Claimed) {
          ResolutionKeeps(s, h, Over, false, gw, floor);
        }
      case Respond(h, success, lost) =>
        if In(s, h, Serving) {
          if success {
            ResolutionKeeps(s, h, Settling, false, gw, floor);
          } else {
            ResolutionKeeps(s, h, Over, !lost, gw, floor);
            BookkeepingKeeps(Free(Move(s, h, Over), h, lost), s', gw, floor);
          }
        }
      case Settle(h, ok, mint, lost) =>
        if CanSettle(s, h) {
          if ok {
            SettlementKeeps(s, h, gw, floor);
            var x := SettlementBy(s.holders[h]);
            BookkeepingKeeps(Move(s, h, Over).(settlements := s.settlements + [x]), s', gw, floor);
          } else {
            var freed := s.holders[h].surface.Api? && !lost;
            ResolutionKeeps(s, h, Over, freed, gw, floor);
            BookkeepingKeeps(if freed then Free(Move(s, h, Over), h, false) else Move(s, h, Over),
                             s', gw, floor);
          }
        }
      case Vanish(h) =>
        if h < |s.holders| && Active(s.holders[h]) {
          ResolutionKeeps(s, h, Over, false, gw, floor);
          BookkeepingKeeps(Move(s, h, Over), s', gw, floor);
        }
      case Use(i) =>
        BookkeepingKeeps(s, s', gw, floor);
    }
  }

  /** At every step of the run, every holder was still within its guard. */
  ghost predicate TimelyRun(steps: seq<Step>, gw: Setup, floor: nat) {
    forall k :: 0 <= k < |steps| ==> Timely(After(steps[..k], gw), gw, floor)
  }

  predicate AllSuit(steps: seq<Step>, gw: Setup, floor: nat) {
    forall k :: 0 <= k < |steps| ==> Suits(steps[k], gw, floor)
  }

  lemma {:induction false} RunKeeps(steps: seq<Step>, gw: Setup, floor: nat)
    requires Retains(gw, floor) && AllSuit(steps, gw, floor) && TimelyRun(steps, gw, floor)
    ensures Inv(After(steps, gw), gw, floor)
  {
    if steps != [] {
      var n := |steps| - 1;
      forall k | 0 <= k < n ensures Timely(After(steps[..n][..k], gw), gw, floor) {
        assert steps[..n][..k] == steps[..k];
      }
      RunKeeps(steps[..n], gw, floor);
      assert Timely(After(steps[..n], gw), gw, floor);
      assert Suits(steps[n], gw, floor);
      StepKeeps(After(steps[..n], gw), steps[n], gw, floor);
    }
  }

  /** Over every interleaving of every surface, with time passing and records being
      swept: one owner per payment, and settlements of one payment as far apart as the
      earlier claim keeps others out. Every claim may have a TTL of its own. */
  lemma OnePaymentOneOwner(steps: seq<Step>, gw: Setup, floor: nat)
    requires Retains(gw, floor) && AllSuit(steps, gw, floor) && TimelyRun(steps, gw, floor)
    ensures Exclusive(After(steps, gw))
    ensures Spaced(After(steps, gw), gw, floor)
  {
    RunKeeps(steps, gw, floor);
  }

  /** Callers of `/settle` name their own timeouts. Whatever they name, the floor of the
      claim TTL protects every payment resolved within it. */
  lemma WhateverTimeoutIsNamed(steps: seq<Step>, gw: Setup)
    requires Retains(gw, TTL_FLOOR) && TimelyRun(steps, gw, TTL_FLOOR)
    ensures Exclusive(After(steps, gw))
    ensures Spaced(After(steps, gw), gw, TTL_FLOOR)
  {
    OnePaymentOneOwner(steps, gw, TTL_FLOOR);
  }

  /** While a payment has an owner, a second arrival is let in exactly when the owner's
      claim is older than, in memory, the TTL of the newcomer, and on Redis its own. */
  lemma SecondOwnerIff(s: State, h: nat, id: string, gw: Setup, floor: nat, ttl: nat, now: nat)
    requires Inv(s, gw, floor) && Owns(s, h, id) && now >= s.now
    ensures ClaimOn(gw.backend, s.seen, id, ttl, now).Fresh?
            <==> now >= s.holders[h].claimedAt
                        + if gw.backend.Memory? then ttl else s.holders[h].ttl
  {
  }

  // --------------------------------------------- the hypotheses cannot be dropped

  /** Running on from a state. */
  function RunOn(s: State, steps: seq<Step>, gw: Setup): State
    decreases |steps|
  {
    if steps == [] then s else RunOn(Next(s, steps[0], gw), steps[1..], gw)
  }

  lemma {:induction false} RunOnIsAfter(before: seq<Step>, steps: seq<Step>, gw: Setup)
    ensures RunOn(After(before, gw), steps, gw) == After(before + steps, gw)
    decreases |steps|
  {
    if steps == [] {
      assert before + steps == before;
    } else {
      assert (before + [steps[0]])[..|before|] == before;
      assert before + steps == (before + [steps[0]]) + steps[1..];
      RunOnIsAfter(before + [steps[0]], steps[1..], gw);
    }
  }

  lemma TwoSteps(s: State, steps: seq<Step>, gw: Setup)
    requires |steps| >= 2
    ensures RunOn(s, steps, gw) == RunOn(Next(Next(s, steps[0], gw), steps[1], gw), steps[2..], gw)
  {
    assert steps[1..][0] == steps[1] && steps[1..][1..] == steps[2..];
  }

  /** A second caller names a shorter timeout than the first. */
  function ShorterTimeout(long: nat, short: nat): seq<Step> {
    [Arrive(Api, "p", long, true), Tick(ReplayTtl(short)), Arrive(Api, "p", short, true)]
  }

  /** In memory the floor cannot be the TTL of the holder: a newcomer that names a
      shorter timeout becomes a second owner while the first is still within its own
      TTL. On Redis it stays out. */
  lemma ShorterTimeoutTakesOver(long: nat, short: nat, gw: Setup)
    requires ReplayTtl(short) < ReplayTtl(long)
    ensures var s := After(ShorterTimeout(long, short), gw);
            && Owns(s, 0, "p") && s.now < s.holders[0].claimedAt + s.holders[0].ttl
            && (Owns(s, 1, "p") <==> gw.backend.Memory?)
  {
    var steps := ShorterTimeout(long, short);
    var s1 := Next(Start, steps[0], gw);
    assert s1.holders == [Holder(Api, "p", 0, ReplayTtl(long), Claimed)];
    var s2 := Next(s1, steps[1], gw);
    assert RunOn(Next(s2, steps[2], gw), [], gw) == Next(s2, steps[2], gw);
    TwoSteps(Start, steps, gw);
    assert steps[2..] == [steps[2]] && [steps[2]][1..] == [];
    RunOnIsAfter([], steps, gw);
    assert [] + steps == steps;
  }

  /** Nor can retention: swept early, the record of a payment lets a second owner in. */
  lemma EarlySweepTakesOver(timeout: nat, gw: Setup)
    requires gw.backend.Memory? && gw.retention < ReplayTtl(timeout)
    ensures var arrival := Arrive(Api, "p", timeout, true);
            var s := Next(Next(Next(Next(Start, arrival, gw), Tick(gw.retention), gw), Cleanup, gw),
                          arrival, gw);
            && Owns(s, 0, "p") && Owns(s, 1, "p")
            && s.now < s.holders[0].claimedAt + s.holders[0].ttl
  {
    var arrival, ttl := Arrive(Api, "p", timeout, true), ReplayTtl(timeout);
    var s1 := Next(Start, arrival, gw);
    assert s1.holders == [Holder(Api, "p", 0, ttl, Claimed)] && s1.seen == map["p" := RecordOf(0, ttl)];
    var s3 := Next(Next(s1, Tick(gw.retention), gw), Cleanup, gw);
    assert s3.seen == map[];
    var s4 := Next(s3, arrival, gw);
    assert s4.holders == s1.holders + [Holder(Api, "p", gw.retention, ttl, Claimed)];
  }

  /** A stream whose upstream is slower than its TTL, then fails: its release removes
      the claim of the stream that took over, and a third one gets in beside it. */
  function LateRelease(timeout: nat): seq<Step> {
    [Arrive(Deferred, "p", timeout, true), VerifyOk(0),
     Tick(ReplayTtl(timeout)), Arrive(Immediate, "p", timeout, true),
     Respond(0, false, false), Arrive(Immediate, "p", timeout, true),
     Settle(1, true, None, false), Settle(2, true, None, false)]
  }

  /** The state when the late stream's upstream fails. */
  function TakenOver(ttl: nat): State {
    State(ttl, map["p" := RecordOf(ttl, ttl)],
          [Holder(Deferred, "p", 0, ttl, Serving), Holder(Immediate, "p", ttl, ttl, Claimed)],
          [], Meters(1, 0, 0, 0, 0, 0), [], 0)
  }

  /** The state when two more owners hold the payment. */
  function TwoOwners(ttl: nat): State {
    State(ttl, map["p" := RecordOf(ttl, ttl)],
          [Holder(Deferred, "p", 0, ttl, Over), Holder(Immediate, "p", ttl, ttl, Claimed),
           Holder(Immediate, "p", ttl, ttl, Claimed)],
          [], Meters(1, 0, 0, 1, 0, 0), [], 0)
  }

  lemma LateTakeover(timeout: nat, gw: Setup)
    ensures var s := Next(Next(Start, LateRelease(timeout)[0], gw), LateRelease(timeout)[1], gw);
            Next(Next(s, LateRelease(timeout)[2], gw), LateRelease(timeout)[3], gw)
            == TakenOver(ReplayTtl(timeout))
  {
    var ttl := ReplayTtl(timeout);
    var s0 := Next(Start, Arrive(Deferred, "p", timeout, true), gw);
    assert s0.holders == [Holder(Deferred, "p", 0, ttl, Claimed)];
    assert s0.seen == map["p" := RecordOf(0, ttl)];
    var s1 := Next(s0, VerifyOk(0), gw);
    assert s1.holders == [Holder(Deferred, "p", 0, ttl, Serving)];
  }

  lemma LateSecondOwner(timeout: nat, gw: Setup)
    ensures Next(Next(TakenOver(ReplayTtl(timeout)), LateRelease(timeout)[4], gw),
                 LateRelease(timeout)[5], gw)
            == TwoOwners(ReplayTtl(timeout))
  {
    var ttl := ReplayTtl(timeout);
    var s := Next(TakenOver(ttl), Respond(0, false, false), gw);
    assert s.seen == map[];
    assert s.holders
           == [Holder(Deferred, "p", 0, ttl, Over), Holder(Immediate, "p", ttl, ttl, Claimed)];
  }

  lemma LateSettlements(timeout: nat, gw: Setup)
    ensures var ttl := ReplayTtl(timeout);
            Next(Next(TwoOwners(ttl), LateRelease(timeout)[6], gw), LateRelease(timeout)[7], gw)
              .settlements
            == [Settlement("p", ttl, ttl), Settlement("p", ttl, ttl)]
  {
    var ttl := ReplayTtl(timeout);
    var s := Next(TwoOwners(ttl), Settle(1, true, None, false), gw);
    assert s.settlements == [Settlement("p", ttl, ttl)];
    assert s.holders[2] == Holder(Immediate, "p", ttl, ttl, Claimed);
  }

  /** Timeliness cannot be dropped, on either store: with one late holder, two
      settlements of one payment succeed under claims made in the same second. */
  lemma LateReleaseSettlesTwice(timeout: nat, gw: Setup)
    ensures var ttl := ReplayTtl(timeout);
            After(LateRelease(timeout), gw).settlements
            == [Settlement("p", ttl, ttl), Settlement("p", ttl, ttl)]
  {
    var steps, ttl := LateRelease(timeout), ReplayTtl(timeout);
    LateTakeover(timeout, gw);
    LateSecondOwner(timeout, gw);
    LateSettlements(timeout, gw);
    TwoSteps(Start, steps, gw);
    TwoSteps(Next(Next(Start, steps[0], gw), steps[1], gw), steps[2..], gw);
    TwoSteps(TakenOver(ttl), steps[4..], gw);
    TwoSteps(TwoOwners(ttl), steps[6..], gw);
    assert steps[2..][2..] == steps[4..] && steps[4..][2..] == steps[6..] && steps[6..][2..] == [];
    RunOnIsAfter([], steps, gw);
    assert [] + steps == steps;
  }

  // ------------------------------------------------------------------ conservation

  /** Verified but neither settled nor given up: the deferred filter's pendings. */
  predicate InFlight(holder: Holder) {
    holder.phase.Serving? || holder.phase.Settling?
  }

  function Pendings(holders: seq<Holder>, n: nat): nat
    requires n <= |holders|
  {
    if n == 0 then 0 else Pendings(holders, n - 1) + if InFlight(holders[n - 1]) then 1 else 0
  }

  function Quotas(sessions: seq<Grant>, n: nat): nat
    requires n <= |sessions|
  {
    if n == 0 then 0 else Quotas(sessions, n - 1) + sessions[n - 1].quota
  }

  function Left(sessions: seq<Grant>, n: nat): nat
    requires n <= |sessions|
  {
    if n == 0 then 0 else Left(sessions, n - 1) + sessions[n - 1].remaining
  }

  /** Only the deferred filter serves before it settles. */
  predicate OnlyDeferredServe(s: State) {
    forall h :: 0 <= h < |s.holders| && InFlight(s.holders[h]) ==> s.holders[h].surface.Deferred?
  }

  /** Paid access is conserved. */
  ghost predicate Conserved(s: State) {
    var m := s.meters;
    // Every verified payment was settled, failed to settle, was discarded or dropped
    // unsettled, or is still in flight.
    && m.verified == m.settled + m.failedAfterServe + m.discarded + m.dropped
                     + Pendings(s.holders, |s.holders|)
    // A session is minted by a successful settlement only, and by each at most once.
    && |s.sessions| <= m.sellable <= |s.settlements|
    && m.settled <= m.sellable
    // Accepted requests and unspent quota are the quota sold.
    && s.accepted + Left(s.sessions, |s.sessions|) == Quotas(s.sessions, |s.sessions|)
    && OnlyDeferredServe(s)
  }

  lemma {:induction false} PendingsUpdate(holders: seq<Holder>, n: nat, h: nat, holder: Holder)
    requires n <= |holders| && h < |holders|
    ensures Pendings(holders[h := holder], n) + (if h < n && InFlight(holders[h]) then 1 else 0)
            == Pendings(holders, n) + if h < n && InFlight(holder) then 1 else 0
  {
    if n > 0 {
      PendingsUpdate(holders, n - 1, h, holder);
    }
  }

  lemma {:induction false} PendingsAgree(a: seq<Holder>, b: seq<Holder>, n: nat)
    requires n <= |a| && n <= |b| && a[..n] == b[..n]
    ensures Pendings(a, n) == Pendings(b, n)
  {
    if n > 0 {
      assert a[..n][..n - 1] == a[..n - 1] && b[..n][..n - 1] == b[..n - 1];
      assert a[n - 1] == a[..n][n - 1] == b[n - 1];
      PendingsAgree(a, b, n - 1);
    }
  }

  lemma {:induction false} SumsAgree(a: seq<Grant>, b: seq<Grant>, n: nat)
    requires n <= |a| && n <= |b| && forall i :: 0 <= i < n ==> a[i] == b[i]
    ensures Quotas(a, n) == Quotas(b, n) && Left(a, n) == Left(b, n)
  {
    if n > 0 {
      SumsAgree(a, b, n - 1);
    }
  }

  lemma {:induction false} SumsAfterUse(sessions: seq<Grant>, n: nat, i: nat)
    requires i < n <= |sessions| && sessions[i].remaining > 0
    ensures var used := sessions[i := sessions[i].(remaining := sessions[i].remaining - 1)];
            Quotas(used, n) == Quotas(sessions, n) && Left(used, n) + 1 == Left(sessions, n)
  {
    var used := sessions[i := sessions[i].(remaining := sessions[i].remaining - 1)];
    if i == n - 1 {
      SumsAgree(sessions, used, n - 1);
    } else {
      SumsAfterUse(sessions, n - 1, i);
    }
  }

  lemma MoveConserves(s: State, s': State, h: nat)
    requires Conserved(s) && h < |s.holders| && |s'.holders| == |s.holders|
    requires s'.holders == s.holders[h := s'.holders[h]]
    requires InFlight(s'.holders[h]) ==> s'.holders[h].surface.Deferred?
    requires s'.sessions == s.sessions && s'.accepted == s.accepted
    requires s'.meters.sellable == s.meters.sellable && s'.meters.settled == s.meters.settled
    requires s'.settlements == s.settlements
    requires var m, m' := s.meters, s'.meters;
             && m'.verified + (if InFlight(s.holders[h]) then 1 else 0) + m.failedAfterServe
                + m.discarded + m.dropped
                == m.verified + (if InFlight(s'.holders[h]) then 1 else 0) + m'.failedAfterServe
                   + m'.discarded + m'.dropped
    ensures Conserved(s')
  {
    PendingsUpdate(s.holders, |s.holders|, h, s'.holders[h]);
  }

  lemma SettlementConserves(s: State, h: nat, mint: Option<nat>, lost: bool)
    requires Conserved(s) && CanSettle(s, h)
    ensures Conserved(Settled(s, h, true, mint, lost))
  {
    var s' := Settled(s, h, true, mint, lost);
    PendingsUpdate(s.holders, |s.holders|, h, s'.holders[h]);
    SumsAgree(s.sessions, s'.sessions, |s.sessions|);
  }

  lemma UseConserves(s: State, i: nat, gw: Setup)
    requires Conserved(s)
    ensures Conserved(Next(s, Use(i), gw))
  {
    if i < |s.sessions| && s.sessions[i].remaining > 0 {
      SumsAfterUse(s.sessions, |s.sessions|, i);
    }
  }

  lemma ArrivalConserves(s: State, s': State, holder: Holder)
    requires Conserved(s) && holder.phase.Claimed?
    requires s' == s.(seen := s'.seen, holders := s.holders + [holder])
    ensures Conserved(s')
  {
    PendingsAgree(s.holders, s'.holders, |s.holders|);
  }

  lemma StreamConserves(s: State, step: Step, gw: Setup)
    requires Conserved(s)
    requires step.VerifyOk? || step.VerifyFail? || step.Respond? || step.Vanish?
    ensures Conserved(Next(s, step, gw))
  {
    var s' := Next(s, step, gw);
    if s' != s {
      MoveConserves(s, s', step.h);
    }
  }

  lemma StepConserves(s: State, step: Step, gw: Setup)
    requires Conserved(s)
    ensures Conserved(Next(s, step, gw))
  {
    var s' := Next(s, step, gw);
    match step {
      case Tick(_) =>
      case Cleanup =>
      case Arrive(surface, id, timeout, reachable) =>
        if s' != s {
          ArrivalConserves(s, s', Holder(surface, id, s.now, ReplayTtl(timeout), Claimed));
        }
      case Use(i) => UseConserves(s, i, gw);
      case Settle(h, ok, mint, lost) =>
        if CanSettle(s, h) {
          if ok {
            SettlementConserves(s, h, mint, lost);
          } else {
            MoveConserves(s, s', h);
          }
        }
      case _ => StreamConserves(s, step, gw);
    }
  }

  /** Over every run, timely or not. */
  lemma {:induction false} PaidAccessIsConserved(steps: seq<Step>, gw: Setup)
    ensures Conserved(After(steps, gw))
  {
    if steps != [] {
      PaidAccessIsConserved(steps[..|steps| - 1], gw);
      StepConserves(After(steps[..|steps| - 1], gw), steps[|steps| - 1], gw);
    }
  }

  // --------------------------------------------------- the accounts tell the run

  /** A step that puts a settlement on record. */
  predicate Settles(s: State, step: Step, gw: Setup) {
    |Next(s, step, gw).settlements| > |s.settlements|
  }

  /** A settlement is made by exactly the steps in which the broadcast succeeded for a
      payment served (Deferred) or just claimed (the other surfaces). */
  lemma SettlesIff(s: State, step: Step, gw: Setup)
    ensures Settles(s, step, gw)
            <==> && step.Settle? && step.ok && step.h < |s.holders|
                 && if s.holders[step.h].surface.Deferred? then s.holders[step.h].phase.Settling?
                    else s.holders[step.h].phase.Claimed?
    ensures Settles(s, step, gw) ==>
              var holder := s.holders[step.h];
              && Next(s, step, gw).settlements
                 == s.settlements + [Settlement(holder.id, holder.claimedAt, holder.ttl)]
              && Next(s, step, gw).holders[step.h].phase.Over?
    ensures !Settles(s, step, gw) ==> Next(s, step, gw).settlements == s.settlements
  {
  }

  /** Whatever comes of a settlement, and whenever a client hangs up, the holder is done:
      it never settles again. */
  lemma HolderIsDone(s: State, step: Step, later: seq<Step>, gw: Setup)
    requires (step.Settle? && CanSettle(s, step.h)) || (step.Vanish? && step.h < |s.holders|)
    ensures var s' := RunOn(Next(s, step, gw), later, gw);
            step.h < |s'.holders| && s'.holders[step.h].phase.Over? && !CanSettle(s', step.h)
  {
    OverForever(Next(s, step, gw), step.h, later, gw);
  }

  lemma {:induction false} OverForever(s: State, h: nat, later: seq<Step>, gw: Setup)
    requires h < |s.holders| && s.holders[h].phase.Over?
    ensures var s' := RunOn(s, later, gw); h < |s'.holders| && s'.holders[h].phase.Over?
    decreases |later|
  {
    if later != [] {
      OverStays(s, h, later[0], gw);
      OverForever(Next(s, later[0], gw), h, later[1..], gw);
    }
  }

  lemma OverStays(s: State, h: nat, step: Step, gw: Setup)
    requires h < |s.holders| && s.holders[h].phase.Over?
    ensures var s' := Next(s, step, gw); h < |s'.holders| && s'.holders[h].phase.Over?
  {
  }

  /** The quota of the session a step has to store: the gateway's settlements mint one
      whenever the payer is known and the store accepts it. */
  function MintOf(s: State, step: Step, gw: Setup): seq<nat> {
    if Settles(s, step, gw) && step.Settle? && step.h < |s.holders|
       && !s.holders[step.h].surface.Api? && step.mint.Some?
    then [step.mint.value] else []
  }

  function MintsOf(steps: seq<Step>, gw: Setup): seq<nat> {
    if steps == [] then []
    else
      var n := |steps| - 1;
      MintsOf(steps[..n], gw) + MintOf(After(steps[..n], gw), steps[n], gw)
  }

  /** Every session sold is stored, with the quota it was sold with, in the order of the
      settlements; and there are no others. */
  lemma {:induction false} SessionsAreTheMints(steps: seq<Step>, gw: Setup)
    ensures var s := After(steps, gw);
            && |s.sessions| == |MintsOf(steps, gw)|
            && forall i :: 0 <= i < |s.sessions| ==> s.sessions[i].quota == MintsOf(steps, gw)[i]
  {
    if steps != [] {
      var n := |steps| - 1;
      SessionsAreTheMints(steps[..n], gw);
      SessionsGrow(After(steps[..n], gw), steps[n], gw);
    }
  }

  lemma SessionsGrow(s: State, step: Step, gw: Setup)
    ensures var s', mints := Next(s, step, gw), MintOf(s, step, gw);
            && |s'.sessions| == |s.sessions| + |mints|
            && (forall i :: 0 <= i < |s.sessions| ==> s'.sessions[i].quota == s.sessions[i].quota)
            && (mints != [] ==> s'.sessions[|s.sessions|] == Grant(mints[0], mints[0]))
  {
  }

  /** A request on a session is accepted exactly while quota is left, and takes one. */
  lemma UseIsAcceptedIff(s: State, i: nat, gw: Setup)
    requires i < |s.sessions|
    ensures var s' := Next(s, Use(i), gw);
            && (s'.accepted == s.accepted + 1 <==> s.sessions[i].remaining > 0)
            && (s.sessions[i].remaining > 0 ==>
                  s'.sessions == s.sessions[i := Grant(s.sessions[i].quota, s.sessions[i].remaining - 1)])
            && (s.sessions[i].remaining == 0 ==> s' == s)
  {
  }

  predicate Went(s: State, s': State, h: nat, from: Phase, to: Phase) {
    h < |s.holders| && h < |s'.holders| && s.holders[h].phase == from && s'.holders[h].phase == to
  }

  function One(happened: bool): nat {
    if happened then 1 else 0
  }

  /** What a step does to the payments, to be metered. */
  function Happened(s: State, step: Step, gw: Setup): Meters {
    var s' := Next(s, step, gw);
    match step
    case VerifyOk(h) => Meters(One(Went(s, s', h, Claimed, Serving)), 0, 0, 0, 0, 0)
    case Respond(h, _, _) => Meters(0, 0, 0, One(Went(s, s', h, Serving, Over)), 0, 0)
    case Vanish(h) =>
      Meters(0, 0, 0, 0, One(Went(s, s', h, Serving, Over) || Went(s, s', h, Settling, Over)), 0)
    case Settle(h, _, _, _) =>
      var added := Settles(s, step, gw);
      Meters(0, One(added && Went(s, s', h, Settling, Over)),
             One(!added && Went(s, s', h, Settling, Over)), 0, 0,
             One(added && h < |s.holders| && !s.holders[h].surface.Api?))
    case _ => Meters(0, 0, 0, 0, 0, 0)
  }

  function Total(a: Meters, b: Meters): Meters {
    Meters(a.verified + b.verified, a.settled + b.settled, a.failedAfterServe + b.failedAfterServe,
           a.discarded + b.discarded, a.dropped + b.dropped, a.sellable + b.sellable)
  }

  function Tally(steps: seq<Step>, gw: Setup): Meters {
    if steps == [] then Meters(0, 0, 0, 0, 0, 0)
    else
      var n := |steps| - 1;
      Total(Tally(steps[..n], gw), Happened(After(steps[..n], gw), steps[n], gw))
  }

  /** Over every run each meter counts what its name says: payments verified, settled
      after serving, failed after serving, discarded, dropped, and settlements that may
      mint. */
  lemma {:induction false} MetersTellTheRun(steps: seq<Step>, gw: Setup)
    ensures After(steps, gw).meters == Tally(steps, gw)
  {
    if steps != [] {
      var n := |steps| - 1;
      MetersTellTheRun(steps[..n], gw);
      PaidAccessIsConserved(steps[..n], gw);
      StepIsMetered(After(steps[..n], gw), steps[n], gw);
    }
  }

  lemma StepIsMetered(s: State, step: Step, gw: Setup)
    requires OnlyDeferredServe(s)
    ensures Next(s, step, gw).meters == Total(s.meters, Happened(s, step, gw))
  {
  }

  /** The steps by which a record leaves the replay cache. */
  predicate LetsGo(s: State, step: Step, id: string, gw: Setup)
    requires id in s.seen
  {
    match step
    case Respond(h, success, lost) =>
      h < |s.holders| && s.holders[h].phase.Serving? && s.holders[h].id == id && !success && !lost
    case Settle(h, ok, _, lost) =>
      h < |s.holders| && s.holders[h].surface.Api? && s.holders[h].phase.Claimed?
      && s.holders[h].id == id && !ok && !lost
    case Cleanup => gw.backend.Memory? && s.now >= s.seen[id].value + gw.retention
    case _ => false
  }

  /** A claim is given back by an upstream failure and by a failed `/settle`, is swept
      from memory once retained long enough, and otherwise stays: a failed verification,
      a failed settlement in the gateway and a client that hangs up all keep it. */
  lemma RecordLeavesIff(s: State, step: Step, id: string, gw: Setup)
    requires id in s.seen && s.seen[id].value <= s.now
    ensures id !in Next(s, step, gw).seen <==> LetsGo(s, step, id, gw)
  {
  }
}
