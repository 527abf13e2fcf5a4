/** One stream of the deferred filter, `src/ext_proc.rs`: the request phase claims
    and verifies a payment (`src/auth.rs`, `src/x402.rs`), the response phase settles
    or releases it. What other streams and the chain do in between enters as the
    answers each call receives. */
module Stream {
  import opened Prelude
  import opened Text

  datatype Mode = StubAcceptAll | SuiGrpc

  datatype SuiPayload = SuiPayload(transaction: string, signature: string)

  /** `extra` is what a scheme adds, as text. */
  datatype Terms = Terms(scheme: string, network: string, amount: string, asset: string,
                         payTo: string, maxTimeoutSecs: nat, extra: Option<string>)

  /** `sui` is the payload read as a Sui `exact` payload, if it is one. */
  datatype Payload = Payload(version: nat, accepted: Terms, sui: Option<SuiPayload>)

  datatype TermsError =
    | VersionMismatch | SchemeMismatch | NetworkMismatch | AmountMismatch | AssetMismatch
    | RecipientMismatch | MalformedPayload | EmptyTransaction | MissingSignature

  const X402_VERSION: nat := 2

  /** What a facilitator is built with: its mode and chain, and the base64 decoder
      and the digest it uses. */
  datatype Facilitator = Facilitator(mode: Mode, network: string,
                                     decode: string -> Option<seq<byte>>,
                                     digest: seq<byte> -> string)
  {
    function CheckTerms(p: Payload, required: Terms): Result<SuiPayload, TermsError> {
      if required.network != network then Err(NetworkMismatch)
      else if p.version != X402_VERSION then Err(VersionMismatch)
      else if p.accepted.scheme != required.scheme then Err(SchemeMismatch)
      else if p.accepted.network != required.network then Err(NetworkMismatch)
      else if p.accepted.amount != required.amount then Err(AmountMismatch)
      else if p.accepted.asset != required.asset then Err(AssetMismatch)
      else if p.accepted.payTo != required.payTo then Err(RecipientMismatch)
      else if p.sui.None? then Err(MalformedPayload)
      else if Trim(p.sui.value.transaction) == "" then Err(EmptyTransaction)
      else if Trim(p.sui.value.signature) == "" then Err(MissingSignature)
      else Ok(p.sui.value)
    }

    /** The replay key: the digest of the decoded transaction. */
    function PaymentId(p: Payload): Option<string> {
      if p.sui.None? then None
      else
        match decode(Trim(p.sui.value.transaction))
        case None => None
        case Some(bytes) => Some(digest(bytes))
    }

    /** `chainAccepts` is the fullnode's verdict, asked only for what decodes. */
    predicate Verifies(p: Payload, required: Terms, chainAccepts: bool) {
      match CheckTerms(p, required)
      case Err(_) => false
      case Ok(sui) =>
        mode.StubAcceptAll?
        || (decode(Trim(sui.transaction)).Some? && decode(Trim(sui.signature)).Some? && chainAccepts)
    }

    /** Settlement verifies again, then broadcasts. */
    predicate Settles(p: Payload, required: Terms, chainAccepts: bool, executes: bool) {
      Verifies(p, required, chainAccepts) && (mode.StubAcceptAll? || executes)
    }

    /** A client cannot buy at its own price: what passes names the advertised scheme,
        amount, asset and recipient on the chain served. */
    lemma PassesIffComparedTermsAgree(p: Payload, required: Terms)
      ensures CheckTerms(p, required).Ok?
              <==> && p.accepted.scheme == required.scheme
                   && p.accepted.network == required.network == network
                   && p.accepted.amount == required.amount
                   && p.accepted.asset == required.asset
                   && p.accepted.payTo == required.payTo
                   && p.version == 2 && p.sui.Some?
                   && Trim(p.sui.value.transaction) != "" && Trim(p.sui.value.signature) != ""
    {
    }

    /** But two of the advertised terms are not compared: what passes is the whole of
        them exactly when those two agree. */
    lemma WholeTermsIff(p: Payload, required: Terms)
      requires CheckTerms(p, required).Ok?
      ensures p.accepted == required
              <==> && p.accepted.maxTimeoutSecs == required.maxTimeoutSecs
                   && p.accepted.extra == required.extra
    {
    }

    /** Whatever a client writes there passes as well as what was advertised, so on every
        chain served some payment passes on terms nobody advertised. */
    lemma AlteredTermsPass(required: Terms, timeout: nat, extra: Option<string>)
      requires required.network == network
      ensures exists p: Payload ::
                && CheckTerms(p, required).Ok?
                && p.accepted == required.(maxTimeoutSecs := timeout, extra := extra)
    {
      var p := Payload(X402_VERSION, required.(maxTimeoutSecs := timeout, extra := extra),
                       Some(SuiPayload("t", "s")));
      assert Trim("t") == "t" && Trim("s") == "s" by {
        TrimClean("t");
        TrimClean("s");
      }
      assert CheckTerms(p, required).Ok?;
    }

    /** What verification takes: agreed terms; against the chain, also that transaction
        and signature decode and that the fullnode accepts them. */
    lemma VerifiesIff(p: Payload, required: Terms, chainAccepts: bool)
      ensures Verifies(p, required, chainAccepts)
              <==> && CheckTerms(p, required).Ok?
                   && (mode.SuiGrpc? ==>
                         && chainAccepts && p.sui.Some?
                         && decode(Trim(p.sui.value.transaction)).Some?
                         && decode(Trim(p.sui.value.signature)).Some?)
    {
    }

    /** What settlement takes: the same, and against the chain that the broadcast
        transaction executes. */
    lemma SettlesIff(p: Payload, required: Terms, chainAccepts: bool, executes: bool)
      ensures Settles(p, required, chainAccepts, executes)
              <==> && CheckTerms(p, required).Ok?
                   && (mode.SuiGrpc? ==>
                         && chainAccepts && executes && p.sui.Some?
                         && decode(Trim(p.sui.value.transaction)).Some?
                         && decode(Trim(p.sui.value.signature)).Some?)
    {
    }

    /** Replay protection is not optional against the chain: whatever verifies there
        has an id to claim. In stub mode it is, for exactly the transactions that do
        not decode. */
    lemma VerifiedPaymentHasAnId(p: Payload, required: Terms, chainAccepts: bool)
      requires Verifies(p, required, chainAccepts)
      ensures PaymentId(p).Some? <==> mode.SuiGrpc? || decode(Trim(p.sui.value.transaction)).Some?
    {
    }

    /** Two payloads share an id exactly when they carry the same transaction, under
        a digest without collisions; white space cannot tell them apart. */
    lemma SameIdIffSameTransaction(p: Payload, q: Payload)
      requires PaymentId(p).Some? && PaymentId(q).Some?
      requires forall a, b :: digest(a) == digest(b) ==> a == b
      ensures PaymentId(p) == PaymentId(q)
              <==> decode(Trim(p.sui.value.transaction)) == decode(Trim(q.sui.value.transaction))
    {
    }
  }

  predicate IsSuccess(status: string) {
    match ParseUnsigned(status, 65535)
    case None => false
    case Some(code) => 200 <= code < 300
  }

  /** A verified, unsettled payment. */
  datatype Pending = Pending(payload: Payload, required: Terms, id: Option<string>)

  datatype ClaimAnswer = Fresh | Replayed | Backend

  /** One request: what it carries, and what the breaker, the session store, the
      replay cache, the chain and the free tier answer to it. */
  datatype Request = Request(payment: PaymentHeader, required: Terms, breakerAccepts: bool,
                             sessionAccepted: bool, claim: ClaimAnswer, chainAccepts: bool,
                             freeTierAllows: bool)

  datatype PaymentHeader = Absent | Unreadable | Carries(payload: Payload)

  datatype Message =
    | RequestHeaders(request: Request)
    | ResponseHeaders(status: string, chainAccepts: bool, executes: bool)
    | OtherPhase

  datatype Decision = Allow(pending: Option<Pending>) | Deny

  datatype Event =
    | Claimed(id: string)
    | Verified(payload: Payload, required: Terms)
    | Responded(status: string)
    | Released(id: string)
    | SettleCalled(payload: Payload, required: Terms, settled: bool)

  // ----------------------------------------------------------------- what is promised

  /** Between `j` and `k` nothing was settled and no claim given back. */
  predicate Unresolved(trace: seq<Event>, j: nat, k: nat) {
    forall l :: j < l < k && l < |trace| ==> !trace[l].SettleCalled? && !trace[l].Released?
  }

  /** At `j` this stream verified that payload against those terms, right after it had
      claimed the payment's id. */
  predicate ClaimedAndVerified(f: Facilitator, trace: seq<Event>, j: nat, p: Payload, required: Terms) {
    && 1 <= j < |trace|
    && trace[j] == Verified(p, required)
    && f.PaymentId(p).Some?
    && trace[j - 1] == Claimed(f.PaymentId(p).value)
  }

  /** The settlement at `k` answers a 2xx status, and a verified claim of the same
      payment on the same terms, which nothing since has settled or given back. */
  ghost predicate Earned(f: Facilitator, trace: seq<Event>, k: nat)
    requires k < |trace| && trace[k].SettleCalled?
  {
    && k >= 1 && trace[k - 1].Responded?
    && var code := ParseUnsigned(trace[k - 1].status, 0xFFFF);
    && code.Some? && 200 <= code.value <= 299
    && exists j: nat :: ClaimedAndVerified(f, trace, j, trace[k].payload, trace[k].required)
                   && j < k - 1 && Unresolved(trace, j, k)
  }

  ghost predicate AllEarned(f: Facilitator, trace: seq<Event>) {
    forall k :: 0 <= k < |trace| && trace[k].SettleCalled? ==> Earned(f, trace, k)
  }

  /** The payment in hand was claimed and verified, and is not settled yet. */
  ghost predicate InHand(f: Facilitator, trace: seq<Event>, pending: Option<Pending>) {
    pending.Some? ==>
      && pending.value.id == f.PaymentId(pending.value.payload)
      && exists j: nat :: ClaimedAndVerified(f, trace, j, pending.value.payload, pending.value.required)
                     && Unresolved(trace, j, |trace|)
  }

  function Verifications(trace: seq<Event>): nat {
    if trace == [] then 0
    else Verifications(trace[..|trace| - 1]) + if trace[|trace| - 1].Verified? then 1 else 0
  }

  function Settlements(trace: seq<Event>): nat {
    if trace == [] then 0
    else Settlements(trace[..|trace| - 1]) + if trace[|trace| - 1].SettleCalled? then 1 else 0
  }

  /** Each verified payment is settled at most once, in any mode. */
  ghost predicate OncePerPayment(trace: seq<Event>, pending: Option<Pending>) {
    Settlements(trace) + (if pending.Some? then 1 else 0) <= Verifications(trace)
  }

  lemma {:induction false} EarnedStays(f: Facilitator, trace: seq<Event>, more: seq<Event>)
    requires AllEarned(f, trace)
    requires forall i :: 0 <= i < |more| ==> !more[i].SettleCalled?
    ensures AllEarned(f, trace + more)
  {
    var longer := trace + more;
    forall k | 0 <= k < |longer| && longer[k].SettleCalled? ensures Earned(f, longer, k) {
      EarnedInLonger(f, trace, more, k);
    }
  }

  lemma EarnedInLonger(f: Facilitator, trace: seq<Event>, more: seq<Event>, k: nat)
    requires k < |trace| && trace[k].SettleCalled? && Earned(f, trace, k)
    ensures Earned(f, trace + more, k)
  {
    var j: nat :| ClaimedAndVerified(f, trace, j, trace[k].payload, trace[k].required)
             && j < k - 1 && Unresolved(trace, j, k);
    assert ClaimedAndVerified(f, trace + more, j, trace[k].payload, trace[k].required);
    assert Unresolved(trace + more, j, k);
    assert (trace + more)[k] == trace[k] && (trace + more)[k - 1] == trace[k - 1];
  }

  lemma InHandStays(f: Facilitator, trace: seq<Event>, more: seq<Event>, pending: Option<Pending>)
    requires InHand(f, trace, pending)
    requires forall i :: 0 <= i < |more| ==> !more[i].SettleCalled? && !more[i].Released?
    ensures InHand(f, trace + more, pending)
  {
    if pending.Some? {
      var p, r := pending.value.payload, pending.value.required;
      var j: nat :| ClaimedAndVerified(f, trace, j, p, r) && Unresolved(trace, j, |trace|);
      assert ClaimedAndVerified(f, trace + more, j, p, r);
      assert Unresolved(trace + more, j, |trace + more|);
    }
  }

  /** Settling the payment in hand, right after a 2xx. */
  lemma SettlingIsEarned(f: Facilitator, trace: seq<Event>, pending: Pending, status: string,
                         settled: bool)
    requires AllEarned(f, trace) && InHand(f, trace, Some(pending)) && IsSuccess(status)
    ensures AllEarned(f, trace + [Responded(status),
                                  SettleCalled(pending.payload, pending.required, settled)])
  {
    var p, r := pending.payload, pending.required;
    var more := [Responded(status), SettleCalled(p, r, settled)];
    var longer := trace + more;
    var j: nat :| ClaimedAndVerified(f, trace, j, p, r) && Unresolved(trace, j, |trace|);
    assert ClaimedAndVerified(f, longer, j, p, r);
    assert Unresolved(longer, j, |trace| + 1);
    assert Earned(f, longer, |trace| + 1);
    forall k | 0 <= k < |longer| && longer[k].SettleCalled? ensures Earned(f, longer, k) {
      if k < |trace| {
        EarnedInLonger(f, trace, more, k);
      }
    }
  }

  lemma CountAppend(trace: seq<Event>, e: Event)
    ensures Verifications(trace + [e]) == Verifications(trace) + if e.Verified? then 1 else 0
    ensures Settlements(trace + [e]) == Settlements(trace) + if e.SettleCalled? then 1 else 0
  {
    assert (trace + [e])[..|trace|] == trace;
  }

  /** An open breaker refuses whoever brings a payment, even with a session in hand. */
  predicate Refused(request: Request) {
    !request.breakerAccepts && !request.payment.Absent?
  }

  /** A payment goes on only under a fresh claim of its id and a successful
      verification; anything that goes wrong with a payment is a denial, never a
      fall back to the free tier. */
  function Decided(f: Facilitator, request: Request): Decision {
    if request.sessionAccepted then Allow(None)
    else if request.payment.Absent? then
      if request.freeTierAllows then Allow(None) else Deny
    else if request.payment.Unreadable? || !ClaimGranted(f, request) then Deny
    else if !f.Verifies(request.payment.payload, request.required, request.chainAccepts) then Deny
    else
      var p := request.payment.payload;
      Allow(Some(Pending(p, request.required, f.PaymentId(p))))
  }

  predicate ClaimGranted(f: Facilitator, request: Request)
    requires request.payment.Carries?
  {
    f.PaymentId(request.payment.payload).Some? ==> request.claim.Fresh?
  }

  /** The claim and the verification a request leads to. */
  function Done(f: Facilitator, request: Request): seq<Event> {
    if request.sessionAccepted || !request.payment.Carries? || !ClaimGranted(f, request) then []
    else
      var p := request.payment.payload;
      (if f.PaymentId(p).Some? then [Claimed(f.PaymentId(p).value)] else [])
      + (if f.Verifies(p, request.required, request.chainAccepts)
         then [Verified(p, request.required)] else [])
  }

  function ClaimOf(f: Facilitator, p: Payload): seq<Event> {
    if f.PaymentId(p).Some? then [Claimed(f.PaymentId(p).value)] else []
  }

  /** A payment that goes on was verified, right after its id, if any, was claimed; and
      against the chain it has one. */
  lemma WhatWasDone(f: Facilitator, request: Request)
    ensures var d, more := Decided(f, request), Done(f, request);
            if d.Allow? && d.pending.Some? then
              var p := d.pending.value;
              && more == ClaimOf(f, p.payload) + [Verified(p.payload, p.required)]
              && p.id == f.PaymentId(p.payload)
              && (f.mode.SuiGrpc? ==> p.id.Some?)
            else NothingButClaims(more)
  {
    if request.payment.Carries? {
      var p := request.payment.payload;
      if f.Verifies(p, request.required, request.chainAccepts) {
        f.VerifiedPaymentHasAnId(p, request.required, request.chainAccepts);
      } else {
        assert ClaimOf(f, p) + [] == ClaimOf(f, p);
      }
    }
  }

  predicate NothingButClaims(events: seq<Event>) {
    forall i :: 0 <= i < |events| ==> events[i].Claimed?
  }

  lemma DoneShape(f: Facilitator, request: Request)
    ensures var d, more := Decided(f, request), Done(f, request);
            && (forall i :: 0 <= i < |more| ==> more[i].Claimed? || more[i].Verified?)
            && Verifications(more) == (if d.Allow? && d.pending.Some? then 1 else 0)
  {
    WhatWasDone(f, request);
    var d := Decided(f, request);
    if d.Allow? && d.pending.Some? {
      ClaimThenVerified(ClaimOf(f, d.pending.value.payload), d.pending.value);
    } else {
      CountNeither(Done(f, request));
    }
  }

  lemma ClaimThenVerified(claimed: seq<Event>, p: Pending)
    requires NothingButClaims(claimed)
    ensures Verifications(claimed + [Verified(p.payload, p.required)]) == 1
  {
    CountNeither(claimed);
    CountAppend(claimed, Verified(p.payload, p.required));
  }

  lemma DoneCounts(f: Facilitator, trace: seq<Event>, request: Request)
    ensures var d, longer := Decided(f, request), trace + Done(f, request);
            && Settlements(longer) == Settlements(trace)
            && Verifications(longer) == Verifications(trace)
                 + if d.Allow? && d.pending.Some? then 1 else 0
  {
    DoneShape(f, request);
    CountConcat(trace, Done(f, request));
  }

  /** What a request leads to leaves earlier settlements earned, and the payment then
      in hand claimed and verified. */
  lemma DoneIsEarned(f: Facilitator, trace: seq<Event>, pending: Option<Pending>, request: Request)
    requires f.mode.SuiGrpc? && AllEarned(f, trace) && InHand(f, trace, pending)
    ensures var d, longer := Decided(f, request), trace + Done(f, request);
            AllEarned(f, longer) && InHand(f, longer, if d.Allow? then d.pending else pending)
  {
    WhatWasDone(f, request);
    DoneShape(f, request);
    var d, more := Decided(f, request), Done(f, request);
    EarnedStays(f, trace, more);
    if d.Deny? {
      InHandStays(f, trace, more, pending);
    } else if d.pending.Some? {
      assert more == [Claimed(d.pending.value.id.value),
                      Verified(d.pending.value.payload, d.pending.value.required)];
      JustVerifiedIsInHand(f, trace, d.pending.value);
    }
  }

  lemma JustVerifiedIsInHand(f: Facilitator, trace: seq<Event>, pending: Pending)
    requires pending.id == f.PaymentId(pending.payload) && pending.id.Some?
    ensures InHand(f, trace + [Claimed(pending.id.value), Verified(pending.payload, pending.required)],
                   Some(pending))
  {
    var longer := trace + [Claimed(pending.id.value), Verified(pending.payload, pending.required)];
    assert ClaimedAndVerified(f, longer, |trace| + 1, pending.payload, pending.required);
    assert Unresolved(longer, |trace| + 1, |longer|);
  }

  /** What a response does to the payment in hand. */
  function Resolution(f: Facilitator, p: Pending, status: string, chainAccepts: bool,
                      executes: bool): seq<Event>
  {
    if IsSuccess(status) then
      [Responded(status),
       SettleCalled(p.payload, p.required, f.Settles(p.payload, p.required, chainAccepts, executes))]
    else if p.id.Some? then [Responded(status), Released(p.id.value)]
    else [Responded(status)]
  }

  /** Whatever code the upstream answers, the payment in hand is settled if it is a 2xx;
      if not, its claim is given back. */
  lemma SettledIff2xx(f: Facilitator, p: Pending, n: nat, chainAccepts: bool, executes: bool)
    requires n <= 0xFFFF
    ensures var more := Resolution(f, p, Decimal(n), chainAccepts, executes);
            && |more| >= 1 && more[0] == Responded(Decimal(n))
            && more[1..] == if 200 <= n <= 299 then
                              [SettleCalled(p.payload, p.required,
                                            f.Settles(p.payload, p.required, chainAccepts, executes))]
                            else if p.id.Some? then [Released(p.id.value)] else []
  {
    CodeIsSuccess(n);
  }

  lemma CodeIsSuccess(n: nat)
    requires n <= 0xFFFF
    ensures IsSuccess(Decimal(n)) <==> 200 <= n <= 299
  {
    ParseDecimal(n, 0xFFFF);
  }

  /** Of three digits the first decides. */
  lemma ThreeDigitStatus(status: string)
    requires |status| == 3 && AllDigits(status)
    ensures IsSuccess(status) <==> status[0] == '2'
  {
    var a, b, c := DigitValue(status[0]), DigitValue(status[1]), DigitValue(status[2]);
    assert status == [status[0]] + [status[1]] + [status[2]];
    ValueStep("", status[0]);
    ValueStep([status[0]], status[1]);
    ValueStep([status[0]] + [status[1]], status[2]);
    assert "" + [status[0]] == [status[0]];
    assert Value(status) == (a * 10 + b) * 10 + c;
  }

  /** A status that is not a number settles nothing. */
  lemma NoNumberNoSettlement(f: Facilitator, p: Pending, status: string, chainAccepts: bool,
                             executes: bool)
    requires status == "" || exists i :: 1 <= i < |status| && !IsDigit(status[i])
    ensures var more := Resolution(f, p, status, chainAccepts, executes);
            && |more| >= 1 && more[0] == Responded(status)
            && more[1..] == if p.id.Some? then [Released(p.id.value)] else []
  {
    if status != "" {
      var i :| 1 <= i < |status| && !IsDigit(status[i]);
      assert status[1..][i - 1] == status[i];
    }
  }

  class StreamState {
    var pending: Option<Pending>
    const facilitator: Facilitator
    /** What this stream has done so far, as the program logs it. */
    var trace: seq<Event>

    ghost predicate Valid()
      reads this
    {
      && OncePerPayment(trace, pending)
      && (facilitator.mode.SuiGrpc? ==>
            AllEarned(facilitator, trace) && InHand(facilitator, trace, pending))
    }

    constructor (facilitator: Facilitator)
      ensures Valid() && pending == None && trace == [] && this.facilitator == facilitator
    {
      this.facilitator := facilitator;
      pending, trace := None, [];
    }

    /** The tier policy: session, then payment, then free tier. `more` is what it did. */
    method Decide(request: Request) returns (decision: Decision, more: seq<Event>)
      ensures decision == Decided(facilitator, request)
      ensures more == Done(facilitator, request)
      ensures decision.Allow? && decision.pending.Some? ==>
                var p := decision.pending.value;
                && !request.sessionAccepted
                && request.payment == Carries(p.payload) && p.required == request.required
                && p.id == facilitator.PaymentId(p.payload)
                && facilitator.Verifies(p.payload, p.required, request.chainAccepts)
                && (p.id.Some? ==>
                      && request.claim.Fresh?
                      && more == [Claimed(p.id.value), Verified(p.payload, p.required)])
                && (p.id.None? ==> more == [Verified(p.payload, p.required)])
      ensures decision.Allow? && decision.pending.None? ==>
                more == [] && (request.sessionAccepted || (request.payment.Absent? && request.freeTierAllows))
      ensures decision.Deny? ==> NothingButClaims(more)
      // Who is served: session holders, payers whose claim and verification hold, and,
      // without a payment, whoever has free tier left.
      ensures request.sessionAccepted ==> decision == Allow(None)
      ensures !request.sessionAccepted && request.payment.Absent? ==>
                decision == if request.freeTierAllows then Allow(None) else Deny
      ensures !request.sessionAccepted && request.payment.Unreadable? ==> decision == Deny
      ensures !request.sessionAccepted && request.payment.Carries? ==>
                var p := request.payment.payload;
                (decision.Allow?
                 <==> && (facilitator.PaymentId(p).Some? ==> request.claim.Fresh?)
                      && facilitator.Verifies(p, request.required, request.chainAccepts))
    {
      more := [];
      if request.sessionAccepted {
        return Allow(None), more;
      }
      match request.payment {
        case Unreadable => return Deny, more;
        case Carries(payload) =>
          var id := facilitator.PaymentId(payload);
          if id.Some? {
            if !request.claim.Fresh? {
              return Deny, more;
            }
            more := [Claimed(id.value)];
          }
          if !facilitator.Verifies(payload, request.required, request.chainAccepts) {
            return Deny, more;
          }
          more := more + [Verified(payload, request.required)];
          return Allow(Some(Pending(payload, request.required, id))), more;
        case Absent =>
      }
      decision := if request.freeTierAllows then Allow(None) else Deny;
    }

    /** Request phase. A denial, or a refusal by the breaker, leaves the payment in hand
        alone. */
    method HandleRequestHeaders(request: Request) returns (decision: Decision)
      requires Valid()
      modifies this
      ensures Valid()
      ensures decision == if Refused(request) then Deny else Decided(facilitator, request)
      // The breaker stands in the way of payments only.
      ensures !request.breakerAccepts && !request.payment.Absent? ==> decision == Deny && trace == old(trace)
      ensures request.payment.Absent? ==>
                decision == if request.sessionAccepted || request.freeTierAllows then Allow(None) else Deny
      ensures request.breakerAccepts && request.sessionAccepted ==> decision == Allow(None)
      ensures pending == if decision.Allow? then decision.pending else old(pending)
      ensures trace == old(trace) + if Refused(request) then [] else Done(facilitator, request)
      ensures Verifications(trace) == Verifications(old(trace))
                + if decision.Allow? && decision.pending.Some? then 1 else 0
    {
      if !request.breakerAccepts && !request.payment.Absent? {
        assert trace + [] == trace;
        return Deny;
      }
      var more;
      decision, more := Decide(request);
      DoneCounts(facilitator, trace, request);
      if facilitator.mode.SuiGrpc? {
        DoneIsEarned(facilitator, trace, pending, request);
      }
      trace := trace + more;
      if decision.Allow? {
        pending := decision.pending;
      }
    }

    /** Response phase: the payment in hand is taken; it is settled if and only if the
        upstream answered 2xx, and its claim released if not. */
    method HandleResponseHeaders(status: string, chainAccepts: bool, executes: bool)
      requires Valid()
      modifies this
      ensures Valid() && pending == None
      ensures Verifications(trace) == Verifications(old(trace))
      ensures trace == old(trace) +
                match old(pending)
                case None => []
                case Some(p) => Resolution(facilitator, p, status, chainAccepts, executes)
    {
      if pending.None? {
        return;
      }
      var taken := pending.value;
      pending := None;
      var more;
      if IsSuccess(status) {
        var settled := facilitator.Settles(taken.payload, taken.required, chainAccepts, executes);
        more := [Responded(status), SettleCalled(taken.payload, taken.required, settled)];
        if facilitator.mode.SuiGrpc? {
          SettlingIsEarned(facilitator, trace, taken, status, settled);
        }
        CountSettlement(trace, status, taken.payload, taken.required, settled);
      } else {
        more := if taken.id.Some? then [Responded(status), Released(taken.id.value)]
                else [Responded(status)];
        if facilitator.mode.SuiGrpc? {
          EarnedStays(facilitator, trace, more);
        }
        CountConcat(trace, more);
        CountNeither(more);
      }
      trace := trace + more;
    }
  }

  lemma CountSettlement(trace: seq<Event>, status: string, p: Payload, required: Terms, settled: bool)
    ensures var more := [Responded(status), SettleCalled(p, required, settled)];
            && Verifications(trace + more) == Verifications(trace)
            && Settlements(trace + more) == Settlements(trace) + 1
  {
    CountAppend(trace, Responded(status));
    CountAppend(trace + [Responded(status)], SettleCalled(p, required, settled));
    assert trace + [Responded(status), SettleCalled(p, required, settled)]
           == (trace + [Responded(status)]) + [SettleCalled(p, required, settled)];
  }

  lemma {:induction false} CountNeither(more: seq<Event>)
    requires forall i :: 0 <= i < |more| ==> !more[i].Verified?
    ensures Verifications(more) == 0
  {
    if more != [] {
      CountNeither(more[..|more| - 1]);
    }
  }

  lemma {:induction false} CountConcat(a: seq<Event>, b: seq<Event>)
    requires forall i :: 0 <= i < |b| ==> !b[i].SettleCalled?
    ensures Verifications(a + b) == Verifications(a) + Verifications(b)
    ensures Settlements(a + b) == Settlements(a)
  {
    if b == [] {
      assert a + b == a;
    } else {
      var n := |b| - 1;
      CountConcat(a, b[..n]);
      assert a + b == (a + b[..n]) + [b[n]];
      CountAppend(a + b[..n], b[n]);
    }
  }

  function Requests(messages: seq<Message>): nat {
    if messages == [] then 0
    else Requests(messages[..|messages| - 1]) + if messages[|messages| - 1].RequestHeaders? then 1 else 0
  }

  /** A stream after some messages: the payment in hand and what was done. */
  datatype Progress = Progress(pending: Option<Pending>, trace: seq<Event>)

  function Handle(f: Facilitator, p: Progress, message: Message): Progress {
    match message
    case RequestHeaders(request) =>
      if Refused(request) then p
      else
        var d := Decided(f, request);
        Progress(if d.Allow? then d.pending else p.pending, p.trace + Done(f, request))
    case ResponseHeaders(status, chainAccepts, executes) =>
      if p.pending.None? then p
      else Progress(None, p.trace + Resolution(f, p.pending.value, status, chainAccepts, executes))
    case OtherPhase => p
  }

  function Run(f: Facilitator, messages: seq<Message>): Progress {
    if messages == [] then Progress(None, [])
    else Handle(f, Run(f, messages[..|messages| - 1]), messages[|messages| - 1])
  }

  lemma RunAppend(f: Facilitator, messages: seq<Message>, message: Message)
    ensures Run(f, messages + [message]) == Handle(f, Run(f, messages), message)
  {
    assert (messages + [message])[..|messages|] == messages;
  }

  /** A payment freshly claimed and verified is settled once the upstream delivers, and
      given back if it does not, whatever came before on the stream. */
  lemma PaidRequestIsResolved(f: Facilitator, before: seq<Message>, request: Request, n: nat,
                              chainAccepts: bool, executes: bool)
    requires request.payment.Carries? && request.breakerAccepts && !request.sessionAccepted
    requires f.PaymentId(request.payment.payload).Some? && request.claim.Fresh?
    requires f.Verifies(request.payment.payload, request.required, request.chainAccepts)
    requires n <= 0xFFFF
    ensures var p, required := request.payment.payload, request.required;
            var run := Run(f, before + [RequestHeaders(request)]
                              + [ResponseHeaders(Decimal(n), chainAccepts, executes)]);
            && run.pending == None && |run.trace| > 0
            && run.trace[|run.trace| - 1]
               == if 200 <= n <= 299 then
                    SettleCalled(p, required, f.Settles(p, required, chainAccepts, executes))
                  else Released(f.PaymentId(p).value)
  {
    var p, required := request.payment.payload, request.required;
    var pending := Pending(p, required, f.PaymentId(p));
    var asked := before + [RequestHeaders(request)];
    RunAppend(f, before, RequestHeaders(request));
    assert Run(f, asked).pending == Some(pending);
    RunAppend(f, asked, ResponseHeaders(Decimal(n), chainAccepts, executes));
    SettledIff2xx(f, pending, n, chainAccepts, executes);
  }

  /** The message loop, until Envoy hangs up after `heard` messages. Whatever arrives in
      whatever order: against the chain every settlement is earned, and a stream never
      settles more often than it is asked to serve; once, in Envoy's protocol. */
  method Process(facilitator: Facilitator, messages: seq<Message>, heard: nat)
    returns (trace: seq<Event>)
    requires heard <= |messages|
    ensures trace == Run(facilitator, messages[..heard]).trace
    ensures facilitator.mode.SuiGrpc? ==> AllEarned(facilitator, trace)
    ensures Settlements(trace) <= Verifications(trace) <= Requests(messages[..heard])
  {
    var stream := new StreamState(facilitator);
    var i := 0;
    while i < heard
      invariant 0 <= i <= heard
      invariant fresh(stream) && stream.Valid() && stream.facilitator == facilitator
      invariant Verifications(stream.trace) <= Requests(messages[..i])
      invariant Progress(stream.pending, stream.trace) == Run(facilitator, messages[..i])
    {
      assert messages[..i + 1][..i] == messages[..i];
      match messages[i] {
        case RequestHeaders(request) =>
          var _ := stream.HandleRequestHeaders(request);
        case ResponseHeaders(status, chainAccepts, executes) =>
          stream.HandleResponseHeaders(status, chainAccepts, executes);
        case OtherPhase =>
      }
      i := i + 1;
    }
    trace := stream.trace;
  }
}
