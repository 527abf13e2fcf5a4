/** `POST /settle` of `src/facilitator_api.rs`, the one surface that both claims a
    payment and gives the claim back when settlement fails. One call run without
    interference is two steps of the concurrent protocol. */
module FacilitatorApi {
  import opened Prelude
  import Replay
  import Session
  import P = PaymentProtocol
  import opened Stream

  datatype Receipt = Success | ReplayRefused(firstSeen: nat) | Unavailable | Failure | BadRequest

  /** One call: the version its envelope declares, the payment, the terms its caller
      supplies, and what the store and the chain answer. */
  datatype Call = Call(version: nat, payload: Payload, required: Terms,
                       reachable: bool, chainAccepts: bool, executes: bool)

  /** Claim, settle, and release on failure. */
  method Settle(f: Facilitator, store: Session.MemorySessionStore, call: Call, now: nat)
    returns (r: Receipt)
    modifies store`seenPayments
    ensures store.seenPayments == SeenAfter(f, old(store.seenPayments), call, now)
    ensures r.BadRequest? <==> call.version != 2
    ensures r.Unavailable? <==>
              call.version == X402_VERSION && f.PaymentId(call.payload).Some? && !call.reachable
    ensures r.ReplayRefused? ==>
              && f.PaymentId(call.payload).Some?
              && Replay.ClaimIn(old(store.seenPayments), f.PaymentId(call.payload).value,
                                Replay.ReplayTtl(call.required.maxTimeoutSecs), now) == Replay.Seen(r.firstSeen)
    // It settles exactly when the chain does and the id, if any, could be claimed.
    ensures r.Success? <==>
              && call.version == X402_VERSION
              && (f.PaymentId(call.payload).Some? ==>
                    call.reachable && Claimable(old(store.seenPayments), f.PaymentId(call.payload).value,
                                                Replay.ReplayTtl(call.required.maxTimeoutSecs), now))
              && f.Settles(call.payload, call.required, call.chainAccepts, call.executes)
    // Against the chain that takes an accepted and executed transaction.
    ensures r.Success? && f.mode.SuiGrpc? ==> call.chainAccepts && call.executes
    // The claim it settled under stays on record.
    ensures r.Success? && f.PaymentId(call.payload).Some? ==>
              !Claimable(store.seenPayments, f.PaymentId(call.payload).value,
                         Replay.ReplayTtl(call.required.maxTimeoutSecs), now)
    // A failed settlement leaves the payment claimable at once.
    ensures r.Failure? && f.PaymentId(call.payload).Some? ==>
              f.PaymentId(call.payload).value !in store.seenPayments
    ensures r.ReplayRefused? || r.Unavailable? || r.BadRequest? ==>
              store.seenPayments == old(store.seenPayments)
  {
    if call.version != X402_VERSION {
      return BadRequest;
    }
    var id := f.PaymentId(call.payload);
    var ttl := Replay.ReplayTtl(call.required.maxTimeoutSecs);
    if id.Some? {
      if !call.reachable {
        return Unavailable;
      }
      var claim := store.ClaimPaymentAt(id.value, ttl, now);
      match claim {
        case Fresh =>
        case Seen(firstSeen) => return ReplayRefused(firstSeen);
      }
    }
    if f.Settles(call.payload, call.required, call.chainAccepts, call.executes) {
      return Success;
    }
    if id.Some? {
      store.ReleasePayment(id.value);
    }
    r := Failure;
  }

  predicate Claimable(seen: Replay.Cache, id: string, ttl: nat, now: nat) {
    Replay.ClaimIn(seen, id, ttl, now).Fresh?
  }

  /** The replay cache after a call. */
  function SeenAfter(f: Facilitator, seen: Replay.Cache, call: Call, now: nat): Replay.Cache {
    var id, ttl := f.PaymentId(call.payload), Replay.ReplayTtl(call.required.maxTimeoutSecs);
    if call.version != X402_VERSION || id.None? || !call.reachable
       || !Claimable(seen, id.value, ttl, now)
    then seen
    else if f.Settles(call.payload, call.required, call.chainAccepts, call.executes)
    then seen[id.value := now]
    else seen - {id.value}
  }

  /** A call is an arrival followed by a settlement in the shared protocol. */
  lemma CallIsTwoSteps(f: Facilitator, s: P.State, call: Call, retention: nat)
    requires call.version == X402_VERSION && f.PaymentId(call.payload).Some?
    ensures var id, timeout := f.PaymentId(call.payload).value, call.required.maxTimeoutSecs;
            var ok := f.Settles(call.payload, call.required, call.chainAccepts, call.executes);
            var gw := P.Setup(Replay.Memory, retention);
            var arrived := P.Next(s, P.Arrive(P.Api, id, timeout, call.reachable), gw);
            var done := P.Next(arrived, P.Settle(|s.holders|, ok, None, false), gw);
            && Replay.Stamps(done.seen) == SeenAfter(f, Replay.Stamps(s.seen), call, s.now)
            && (|done.settlements| == |s.settlements| + 1
                <==> call.reachable && ok
                     && Claimable(Replay.Stamps(s.seen), id, Replay.ReplayTtl(timeout), s.now))
  {
    var ok := f.Settles(call.payload, call.required, call.chainAccepts, call.executes);
    ClaimThenSettle(s, f.PaymentId(call.payload).value, call.required.maxTimeoutSecs,
                    call.reachable, ok, retention);
  }

  lemma ClaimThenSettle(s: P.State, id: string, timeout: nat, reachable: bool, ok: bool, retention: nat)
    ensures var gw, ttl := P.Setup(Replay.Memory, retention), Replay.ReplayTtl(timeout);
            var arrived := P.Next(s, P.Arrive(P.Api, id, timeout, reachable), gw);
            var done := P.Next(arrived, P.Settle(|s.holders|, ok, None, false), gw);
            var seen := Replay.Stamps(s.seen);
            if reachable && Claimable(seen, id, ttl, s.now) then
              && Replay.Stamps(done.seen) == (if ok then seen[id := s.now] else seen - {id})
              && |done.settlements| == |s.settlements| + if ok then 1 else 0
            else done == s
  {
    var gw, ttl := P.Setup(Replay.Memory, retention), Replay.ReplayTtl(timeout);
    var arrived := P.Next(s, P.Arrive(P.Api, id, timeout, reachable), gw);
    if reachable && Claimable(Replay.Stamps(s.seen), id, ttl, s.now) {
      assert arrived.holders[|s.holders|] == P.Holder(P.Api, id, s.now, ttl, P.Claimed);
      Replay.EitherStore(s.seen, id, ttl, retention, s.now);
      Replay.EitherStore(arrived.seen, id, ttl, retention, s.now);
      assert Replay.Stamps(s.seen)[id := s.now] - {id} == Replay.Stamps(s.seen) - {id};
    }
  }

  /** The same signed transaction, posted again before its claim lapses, is refused and
      changes nothing, whatever terms it names this time. */
  lemma RepostIsRefused(f: Facilitator, seen: Replay.Cache, first: Call, again: Call, now: nat, later: nat)
    requires f.PaymentId(first.payload).Some? && f.PaymentId(again.payload) == f.PaymentId(first.payload)
    requires first.version == X402_VERSION && first.reachable
    requires Claimable(seen, f.PaymentId(first.payload).value, Replay.ReplayTtl(first.required.maxTimeoutSecs), now)
    requires f.Settles(first.payload, first.required, first.chainAccepts, first.executes)
    ensures var settled := SeenAfter(f, seen, first, now);
            SatSub(later, now) < Replay.ReplayTtl(again.required.maxTimeoutSecs) ==>
              SeenAfter(f, settled, again, later) == settled
  {
  }
}
