/** How one stream of the deferred filter (module Stream) takes part in the shared
    protocol (module PaymentProtocol): its request phase is an arrival and a
    verification, its response phase an answer and a settlement, with anything other
    parties do in between. What holds of every run of the protocol holds of streams. */
module StreamProtocol {
  import opened Prelude
  import opened Stream
  import Replay
  import Text
  import P = PaymentProtocol

  /** What the replay cache tells a newcomer in this state. */
  function AnswerIn(s: P.State, id: string, timeout: nat, reachable: bool, gw: P.Setup): ClaimAnswer {
    if !reachable then Backend
    else if Replay.ClaimOn(gw.backend, s.seen, id, Replay.ReplayTtl(timeout), s.now).Fresh? then Fresh
    else Replayed
  }

  /** Holder `h` of the protocol is the payment this stream has in hand. */
  predicate Holds(s: P.State, h: nat, pending: Pending) {
    && h < |s.holders| && pending.id.Some?
    && s.holders[h].surface == P.Deferred && s.holders[h].phase == P.Serving
    && s.holders[h].id == pending.id.value
  }

  /** A step by somebody else. */
  predicate Foreign(step: P.Step, h: nat) {
    match step
    case VerifyOk(g) => g != h
    case VerifyFail(g) => g != h
    case Respond(g, _, _) => g != h
    case Settle(g, _, _, _) => g != h
    case Vanish(g) => g != h
    case _ => true
  }

  lemma {:induction false} ForeignStepsLeave(s: P.State, steps: seq<P.Step>, h: nat, gw: P.Setup)
    requires h < |s.holders| && forall i :: 0 <= i < |steps| ==> Foreign(steps[i], h)
    ensures h < |P.RunOn(s, steps, gw).holders|
    ensures P.RunOn(s, steps, gw).holders[h] == s.holders[h]
    decreases |steps|
  {
    if steps != [] {
      ForeignStepsLeave(P.Next(s, steps[0], gw), steps[1..], h, gw);
    }
  }

  /** The request phase. `between` is what others do while the payment is verified. */
  lemma RequestIsTwoSteps(f: Facilitator, s: P.State, request: Request, reachable: bool,
                          between: seq<P.Step>, gw: P.Setup)
    requires !Refused(request) && !request.sessionAccepted && request.payment.Carries?
    requires f.PaymentId(request.payment.payload).Some?
    requires request.claim == AnswerIn(s, f.PaymentId(request.payment.payload).value,
                                       request.required.maxTimeoutSecs, reachable, gw)
    requires forall i :: 0 <= i < |between| ==> Foreign(between[i], |s.holders|)
    ensures var p, required, h := request.payment.payload, request.required, |s.holders|;
            var id, ttl := f.PaymentId(p).value, Replay.ReplayTtl(required.maxTimeoutSecs);
            var ok := f.Verifies(p, required, request.chainAccepts);
            var s1 := P.Next(s, P.Arrive(P.Deferred, id, required.maxTimeoutSecs, reachable), gw);
            var s2 := P.RunOn(s1, between, gw);
            var s3 := P.Next(s2, if ok then P.VerifyOk(h) else P.VerifyFail(h), gw);
            if !request.claim.Fresh? then Decided(f, request).Deny? && s1 == s
            else
              && s1.holders == s.holders + [P.Holder(P.Deferred, id, s.now, ttl, P.Claimed)]
              && h < |s3.holders| && s3.seen == s2.seen
              && if ok then
                   && Decided(f, request) == Allow(Some(Pending(p, required, Some(id))))
                   && Holds(s3, h, Decided(f, request).pending.value)
                   && s3.holders[h].claimedAt == s.now && s3.holders[h].ttl == ttl
                 else Decided(f, request).Deny? && s3.holders[h].phase == P.Over
  {
    var p, required, h := request.payment.payload, request.required, |s.holders|;
    var s1 := P.Next(s, P.Arrive(P.Deferred, f.PaymentId(p).value, required.maxTimeoutSecs, reachable), gw);
    if request.claim.Fresh? {
      ForeignStepsLeave(s1, between, h, gw);
    }
  }

  /** The response phase. `between` is what others do while the payment is settled. */
  lemma ResponseIsTwoSteps(f: Facilitator, s: P.State, h: nat, pending: Pending, status: string,
                           chainAccepts: bool, executes: bool, mint: Option<nat>, lost: bool,
                           between: seq<P.Step>, gw: P.Setup)
    requires Holds(s, h, pending)
    requires forall i :: 0 <= i < |between| ==> Foreign(between[i], h)
    ensures var more := Resolution(f, pending, status, chainAccepts, executes);
            var settled := f.Settles(pending.payload, pending.required, chainAccepts, executes);
            var s1 := P.Next(s, P.Respond(h, IsSuccess(status), lost), gw);
            var s2 := P.RunOn(s1, between, gw);
            var s3 := P.Next(s2, P.Settle(h, settled, mint, lost), gw);
            if IsSuccess(status) then
              && more[|more| - 1] == SettleCalled(pending.payload, pending.required, settled)
              && s1.seen == s.seen && s3.seen == s2.seen
              && h < |s3.holders| && s3.holders[h].phase == P.Over
              && s3.settlements == s2.settlements + if settled then [P.SettlementBy(s.holders[h])] else []
            else
              && more[|more| - 1] == Released(s.holders[h].id)
              && s1.seen == (if lost then s.seen else s.seen - {s.holders[h].id})
              && s1.holders[h].phase == P.Over && s1.settlements == s.settlements
  {
    var s1 := P.Next(s, P.Respond(h, IsSuccess(status), lost), gw);
    if IsSuccess(status) {
      ForeignStepsLeave(s1, between, h, gw);
      assert P.SettlementBy(s1.holders[h]) == P.SettlementBy(s.holders[h]);
    }
  }

  /** No two streams serve on one transaction, however its encoding is padded and
      whatever else is going on. */
  lemma OneStreamPerTransaction(f: Facilitator, steps: seq<P.Step>, gw: P.Setup, floor: nat,
                                g: nat, h: nat, p: Pending, q: Pending)
    requires P.Retains(gw, floor) && P.AllSuit(steps, gw, floor) && P.TimelyRun(steps, gw, floor)
    requires Holds(P.After(steps, gw), g, p) && p.id == f.PaymentId(p.payload)
    requires Holds(P.After(steps, gw), h, q) && q.id == f.PaymentId(q.payload)
    requires f.decode(Text.Trim(p.payload.sui.value.transaction))
             == f.decode(Text.Trim(q.payload.sui.value.transaction))
    ensures g == h
  {
    P.OnePaymentOneOwner(steps, gw, floor);
    assert P.Owns(P.After(steps, gw), g, p.id.value) && P.Owns(P.After(steps, gw), h, p.id.value);
  }
}
