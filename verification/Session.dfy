/** The two session stores of `src/session.rs`, each proved to answer from a ledger
    of every session ever minted: the in-process maps with their sweep, and Redis
    hashes with key expiry. */
module Session {
  import opened Prelude
  import opened Text
  import opened Token
  import opened Replay

  /** One paid session: what it was sold as, and what is left of it. */
  datatype Entry = Entry(payer: string, policy: Option<string>, expiresAt: nat,
                         quota: nat, remaining: nat)

  datatype Outcome =
    | Accepted(payer: string, remaining: nat, quota: nat, expiresAt: nat)
    | Rejected(reason: Rejection)

  /** Sessions are never forgotten by the ledger. */
  type Ledger = map<string, Entry>

  function Spend(ledger: Ledger, c: Claims, policy: Option<string>): Outcome {
    if c.sessionId !in ledger then Rejected(Unknown)
    else
      var e := ledger[c.sessionId];
      if e.policy != policy then Rejected(WrongPolicy)
      else if e.remaining == 0 then Rejected(QuotaExhausted)
      else Accepted(e.payer, e.remaining - 1, e.quota, e.expiresAt)
  }

  /** The answer to a token: what verification says, then what the ledger says. */
  function Present(ledger: Ledger, mac: Mac, token: string, policy: Option<string>, now: nat): Outcome {
    match Verify(mac, token, now)
    case Err(reason) => Rejected(reason)
    case Ok(c) => Spend(ledger, c, policy)
  }

  /** A token is rejected for what is wrong with it, and if it names no session sold, as
      unknown. */
  lemma StrangersAreRejected(ledger: Ledger, mac: Mac, token: string, policy: Option<string>, now: nat)
    ensures match Verify(mac, token, now)
            case Err(reason) => Present(ledger, mac, token, policy, now) == Rejected(reason)
            case Ok(c) => c.sessionId !in ledger ==>
                            Present(ledger, mac, token, policy, now) == Rejected(Unknown)
  {
  }

  function Charge(ledger: Ledger, id: string): Ledger
    requires id in ledger && ledger[id].remaining > 0
  {
    ledger[id := ledger[id].(remaining := ledger[id].remaining - 1)]
  }

  function AfterPresent(ledger: Ledger, mac: Mac, token: string, policy: Option<string>, now: nat): Ledger {
    if Present(ledger, mac, token, policy, now).Accepted?
    then Charge(ledger, Verify(mac, token, now).value.sessionId)
    else ledger
  }

  /** The token still verifies, but its session's stored deadline has passed. */
  predicate Lapsed(ledger: Ledger, mac: Mac, token: string, now: nat) {
    var v := Verify(mac, token, now);
    v.Ok? && v.value.sessionId in ledger && now >= ledger[v.value.sessionId].expiresAt
  }

  /** If the token verifies, it does so with the deadline of a session once sold. */
  predicate NamesItsDeadline(ledger: Ledger, mac: Mac, token: string, now: nat) {
    match Verify(mac, token, now)
    case Ok(c) => c.sessionId in ledger && c.expiresAt == ledger[c.sessionId].expiresAt
    case Err(_) => true
  }

  /** An answer that reads the deadline back from the token. */
  function AsTheTokenSays(outcome: Outcome, mac: Mac, token: string, now: nat): Outcome {
    match Verify(mac, token, now)
    case Ok(c) => if outcome.Accepted? then outcome.(expiresAt := c.expiresAt) else outcome
    case Err(_) => outcome
  }

  /** An empty name is indistinguishable from no name in Redis. */
  predicate Named(policy: Option<string>) {
    policy != Some("")
  }

  /** The session a token names was not sold under the empty name. */
  predicate SoldNamed(ledger: Ledger, mac: Mac, token: string, now: nat) {
    var v := Verify(mac, token, now);
    v.Ok? && v.value.sessionId in ledger ==> Named(ledger[v.value.sessionId].policy)
  }

  /** What holds of a spend whatever token was shown: an acceptance takes exactly one
      request from the session it names, a rejection takes nothing. */
  ghost predicate Accounted(before: Ledger, after: Ledger, mac: Mac, token: string, now: nat,
                            outcome: Outcome)
  {
    if outcome.Accepted? then
      && Verify(mac, token, now).Ok?
      && var id := Verify(mac, token, now).value.sessionId;
      && id in before && before[id].remaining == outcome.remaining + 1
      && after == Charge(before, id)
    else after == before
  }

  // ------------------------------------------------------------------- in process

  ghost predicate MemoryHolds(sessions: Ledger, ledger: Ledger, clock: nat) {
    && sessions.Keys <= ledger.Keys
    && forall id :: id in ledger ==>
         if id in sessions then sessions[id] == ledger[id] else ledger[id].expiresAt <= clock
  }

  class MemorySessionStore {
    var sessions: Ledger
    var seenPayments: Cache
    const mac: Mac
    const replayRetentionSecs: nat

    ghost var ledger: Ledger
    ghost var clock: nat

    ghost predicate Valid()
      reads this
    {
      MemoryHolds(sessions, ledger, clock)
    }

    constructor (mac: Mac, replayRetentionSecs: nat)
      ensures Valid() && ledger == map[] && seenPayments == map[] && clock == 0
      ensures this.mac == mac && this.replayRetentionSecs == replayRetentionSecs
    {
      sessions, seenPayments, ledger, clock := map[], map[], map[], 0;
      this.mac, this.replayRetentionSecs := mac, replayRetentionSecs;
    }

    /** `sessionId` is the random identifier drawn for this session. */
    method CreateSessionAt(payer: string, policy: Option<string>, quota: nat, ttlSecs: nat,
                           now: nat, sessionId: string)
      returns (token: string)
      requires Valid() && clock <= now && sessionId !in ledger
      modifies this`sessions, this`ledger, this`clock
      ensures Valid() && clock == now
      ensures token == Mint(mac, payer, SatAdd(now, ttlSecs), sessionId)
      ensures ledger == old(ledger)[sessionId :=
                Entry(payer, policy, SatAdd(now, ttlSecs), quota, quota)]
    {
      var expiresAt := SatAdd(now, ttlSecs);
      sessions := sessions[sessionId := Entry(payer, policy, expiresAt, quota, quota)];
      ledger := ledger[sessionId := Entry(payer, policy, expiresAt, quota, quota)];
      clock := now;
      token := Mint(mac, payer, expiresAt, sessionId);
    }

    /** `failures` is how often the weak exchange of the quota loop fails. */
    method ConsumeAt(token: string, policy: Option<string>, now: nat, failures: nat)
      returns (outcome: Outcome)
      requires Valid() && clock <= now
      modifies this`sessions, this`ledger, this`clock
      ensures Valid() && clock == now
      ensures Accounted(old(ledger), ledger, mac, token, now, outcome)
      ensures !Lapsed(old(ledger), mac, token, now) ==>
                outcome == Present(old(ledger), mac, token, policy, now)
      // Swept already, or not yet.
      ensures Lapsed(old(ledger), mac, token, now) ==>
                outcome == Rejected(Expired) || outcome == Rejected(Unknown)
    {
      clock := now;
      var claims;
      match Verify(mac, token, now) {
        case Err(rejection) => return Rejected(rejection);
        case Ok(c) => claims := c;
      }
      if claims.sessionId !in sessions {
        return Rejected(Unknown);
      }
      var session := sessions[claims.sessionId];
      // The stored deadline decides, should it differ from the token's.
      if now >= session.expiresAt {
        return Rejected(Expired);
      }
      if session.policy != policy {
        return Rejected(WrongPolicy);
      }
      var left, spent := SpendOne(session.remaining, failures);
      if spent.None? {
        return Rejected(QuotaExhausted);
      }
      sessions := sessions[claims.sessionId := session.(remaining := left)];
      ledger := ledger[claims.sessionId := session.(remaining := left)];
      outcome := Accepted(session.payer, spent.value, session.quota, session.expiresAt);
    }

    method ClaimPaymentAt(paymentId: string, ttlSecs: nat, now: nat) returns (claim: Claim)
      modifies this`seenPayments
      ensures claim == ClaimIn(old(seenPayments), paymentId, ttlSecs, now)
      ensures seenPayments == AfterClaim(old(seenPayments), paymentId, ttlSecs, now)
    {
      if paymentId in seenPayments {
        var firstSeen := seenPayments[paymentId];
        if SatSub(now, firstSeen) >= ttlSecs {
          seenPayments := seenPayments[paymentId := now];
          claim := Fresh;
        } else {
          claim := Seen(firstSeen);
        }
      } else {
        seenPayments := seenPayments[paymentId := now];
        claim := Fresh;
      }
    }

    method ReleasePayment(paymentId: string)
      modifies this`seenPayments
      ensures seenPayments == old(seenPayments) - {paymentId}
    {
      seenPayments := seenPayments - {paymentId};
    }

    /** The sweep: no session it reaps could have been accepted again. */
    method CleanupExpiredAt(now: nat) returns (reaped: nat)
      requires Valid() && clock <= now
      modifies this
      ensures Valid() && clock == now && ledger == old(ledger)
      ensures forall id :: id in sessions <==> id in old(sessions) && now < old(sessions)[id].expiresAt
      ensures reaped == |old(sessions)| - |sessions|
      ensures seenPayments == Swept(old(seenPayments), replayRetentionSecs, now)
    {
      var before := sessions;
      sessions := map id | id in before && now < before[id].expiresAt :: before[id];
      assert before.Keys == sessions.Keys + (before.Keys - sessions.Keys);
      reaped := |before| - |sessions|;
      seenPayments := map id | id in seenPayments
                        && SatSub(now, seenPayments[id]) < replayRetentionSecs :: seenPayments[id];
      clock := now;
    }
  }

  /** The quota loop with nobody else on the counter: the weak exchange may still
      fail `failures` times. Module QuotaSpend has the concurrent case. */
  method SpendOne(counter: nat, failures: nat) returns (left: nat, r: Option<nat>)
    ensures r == if counter == 0 then None else Some(counter - 1)
    ensures left == SatSub(counter, 1)
  {
    var current, spurious := counter, failures;
    while true
      invariant current == counter
      decreases spurious
    {
      if current == 0 {
        return counter, None;
      }
      if spurious == 0 {
        return current - 1, Some(current - 1);
      }
      current := counter;
      spurious := spurious - 1;
    }
  }

  // ----------------------------------------------------------------------- in Redis

  /** A session hash and the time its key expires. */
  datatype Hash = Hash(payer: string, quota: nat, granted: nat, policy: string, expiresAt: nat)

  /** `EXPIRE` counts milliseconds in a signed 64-bit number, and a script counts the
      quota in doubles. */
  predicate FitsRedis(quota: nat, ttlSecs: nat, now: nat) {
    && (now + ttlSecs) * 1000 < 0x8000_0000_0000_0000
    && quota < 0x20_0000_0000_0000
  }

  ghost predicate RedisHolds(hashes: map<string, Hash>, ledger: Ledger) {
    && hashes.Keys == ledger.Keys
    && forall id :: id in ledger ==>
         var e, h := ledger[id], hashes[id];
         && h.payer == e.payer && h.quota == e.remaining && h.granted == e.quota
         && h.policy == e.policy.GetOr("") && h.expiresAt == e.expiresAt
  }

  class RedisSessionStore {
    var hashes: map<string, Hash>
    const mac: Mac

    ghost var ledger: Ledger

    ghost predicate Valid()
      reads this
    {
      RedisHolds(hashes, ledger)
    }

    constructor (mac: Mac)
      ensures Valid() && ledger == map[] && this.mac == mac
    {
      hashes, ledger := map[], map[];
      this.mac := mac;
    }

    /** One atomic pipeline. */
    method CreateSession(payer: string, policy: Option<string>, quota: nat, ttlSecs: nat,
                         now: nat, sessionId: string)
      returns (token: string)
      requires Valid() && sessionId !in ledger
      requires FitsRedis(quota, ttlSecs, now)
      modifies this
      ensures Valid()
      ensures token == Mint(mac, payer, SatAdd(now, ttlSecs), sessionId)
      ensures ledger == old(ledger)[sessionId :=
                Entry(payer, policy, SatAdd(now, ttlSecs), quota, quota)]
    {
      var expiresAt := SatAdd(now, ttlSecs);
      hashes := hashes[sessionId := Hash(payer, quota, quota, policy.GetOr(""), now + ttlSecs)];
      ledger := ledger[sessionId := Entry(payer, policy, expiresAt, quota, quota)];
      token := Mint(mac, payer, expiresAt, sessionId);
    }

    /** The spend script, run indivisibly. Negative codes are its sentinels. */
    method SpendScript(sessionId: string, policy: string, now: nat)
      returns (code: int, payer: string, granted: nat)
      requires Valid()
      modifies this
      ensures Valid()
      ensures sessionId in old(hashes) && now < old(hashes)[sessionId].expiresAt ==>
                var e := old(ledger)[sessionId];
                && payer == e.payer
                && (code == -3 <==> e.policy.GetOr("") != policy)
                && (code == -1 <==> e.policy.GetOr("") == policy && e.remaining == 0)
                && (code >= 0 <==> e.policy.GetOr("") == policy && e.remaining > 0)
                && (code >= 0 ==> code == e.remaining - 1 && granted == e.quota)
                && -3 <= code && code != -2
      ensures sessionId !in old(hashes) || now >= old(hashes)[sessionId].expiresAt ==> code == -2
      ensures if code >= 0 then sessionId in old(ledger) && old(ledger)[sessionId].remaining > 0
                                && ledger == Charge(old(ledger), sessionId)
              else ledger == old(ledger)
    {
      if sessionId !in hashes || now >= hashes[sessionId].expiresAt {
        return -2, "", 0;
      }
      var h := hashes[sessionId];
      if h.policy != policy {
        return -3, h.payer, 0;
      }
      if h.quota == 0 {
        return -1, h.payer, 0;
      }
      hashes := hashes[sessionId := h.(quota := h.quota - 1)];
      ledger := Charge(ledger, sessionId);
      return h.quota - 1, h.payer, h.granted;
    }

    method Consume(token: string, policy: Option<string>, now: nat, reachable: bool)
      returns (outcome: Outcome)
      requires Valid()
      modifies this
      ensures Valid()
      ensures Accounted(old(ledger), ledger, mac, token, now, outcome)
      ensures reachable && !Lapsed(old(ledger), mac, token, now)
              && Named(policy) && SoldNamed(old(ledger), mac, token, now) ==>
                outcome == AsTheTokenSays(Present(old(ledger), mac, token, policy, now), mac, token, now)
      ensures reachable && Lapsed(old(ledger), mac, token, now) ==> outcome == Rejected(Unknown)
      ensures !reachable ==> outcome.Rejected?
    {
      var claims;
      match Verify(mac, token, now) {
        case Err(rejection) => return Rejected(rejection);
        case Ok(c) => claims := c;
      }
      if !reachable {
        return Rejected(Backend);
      }
      var code, payer, granted := SpendScript(claims.sessionId, policy.GetOr(""), now);
      if code == -2 {
        return Rejected(Unknown);
      } else if code == -3 {
        return Rejected(WrongPolicy);
      } else if code == -1 {
        return Rejected(QuotaExhausted);
      }
      outcome := Accepted(payer, code, granted, claims.expiresAt);
    }
  }

  /** Redis confuses exactly one pair of scopes: no policy and the empty name. */
  lemma ScopesAgree(sold: Option<string>, asked: Option<string>)
    ensures (sold == asked <==> sold.GetOr("") == asked.GetOr(""))
            <==> !(sold.None? && asked == Some("")) && !(sold == Some("") && asked.None?)
  {
  }

  // -------------------------------------------------------------------- whole runs

  datatype Op =
    | Create(payer: string, policy: Option<string>, quota: nat, ttlSecs: nat, now: nat, id: string)
    | Consume(token: string, policy: Option<string>, now: nat)
    | Sweep(now: nat)

  datatype Answer = Minted(token: string) | Told(outcome: Outcome) | Reaped

  datatype Books = Books(ledger: Ledger, answers: seq<Answer>)

  function AnswerTo(ledger: Ledger, op: Op, mac: Mac): Answer {
    match op
    case Sweep(_) => Reaped
    case Create(payer, _, _, ttlSecs, now, id) => Minted(Mint(mac, payer, SatAdd(now, ttlSecs), id))
    case Consume(token, policy, now) => Told(Present(ledger, mac, token, policy, now))
  }

  function LedgerAfter(ledger: Ledger, op: Op, mac: Mac): Ledger {
    match op
    case Sweep(_) => ledger
    case Create(payer, policy, quota, ttlSecs, now, id) =>
      ledger[id := Entry(payer, policy, SatAdd(now, ttlSecs), quota, quota)]
    case Consume(token, policy, now) => AfterPresent(ledger, mac, token, policy, now)
  }

  /** What the ledger answers to a sequence of operations. */
  function LedgerRun(ops: seq<Op>, mac: Mac): (b: Books)
    ensures |b.answers| == |ops|
  {
    if ops == [] then Books(map[], [])
    else
      var before := LedgerRun(ops[..|ops| - 1], mac);
      var op := ops[|ops| - 1];
      Books(LedgerAfter(before.ledger, op, mac), before.answers + [AnswerTo(before.ledger, op, mac)])
  }

  /** The sessions minted by a run, in order. */
  function MintedIds(ops: seq<Op>): seq<string> {
    if ops == [] then []
    else
      MintedIds(ops[..|ops| - 1]) + NewIds(ops[|ops| - 1])
  }

  function NewIds(op: Op): seq<string> {
    if op.Create? then [op.id] else []
  }

  predicate Distinct(ids: seq<string>) {
    forall i, j :: 0 <= i < j < |ids| ==> ids[i] != ids[j]
  }

  /** What the codec signed when it made this session's token. */
  function SignedTextOf(op: Op): string
    requires op.Create?
  {
    SignedPart(op.payer, Decimal(SatAdd(op.now, op.ttlSecs)), op.id)
  }

  /** What a token's MAC is compared against. */
  function PresentedText(token: string): string {
    var parts := Split(Trim(token), ':');
    if |parts| == 4 then SignedPart(parts[0], parts[1], parts[2]) else ""
  }

  /** Without the key nobody can make a MAC: a token that verifies presents a text that
      the gateway signed earlier in the run. */
  ghost predicate Unforged(ops: seq<Op>, mac: Mac, token: string, now: nat) {
    Verify(mac, token, now).Ok? ==>
      exists k :: 0 <= k < |ops| && ops[k].Create? && PresentedText(token) == SignedTextOf(ops[k])
  }

  ghost predicate ProperAt(ops: seq<Op>, i: nat, mac: Mac)
    requires i < |ops|
  {
    match ops[i]
    case Sweep(_) => true
    case Create(_, policy, quota, ttlSecs, now, _) => Named(policy) && FitsRedis(quota, ttlSecs, now)
    case Consume(token, policy, now) => Named(policy) && Unforged(ops[..i], mac, token, now)
  }

  /** Time does not run backwards, session ids are never drawn twice, tokens are not
      forged, and policies and sizes are such that both stores can hold them. */
  ghost predicate ProperRun(ops: seq<Op>, mac: Mac) {
    && (forall i, j :: 0 <= i < j < |ops| ==> ops[i].now <= ops[j].now)
    && Distinct(MintedIds(ops))
    && (forall i :: 0 <= i < |ops| ==> ProperAt(ops, i, mac))
  }

  // ------------------------------------------------- the token names its own deadline

  lemma {:induction false} LedgerHoldsTheMinted(ops: seq<Op>, mac: Mac)
    ensures forall id :: id in MintedIds(ops) <==> id in LedgerRun(ops, mac).ledger
  {
    if ops != [] {
      LedgerHoldsTheMinted(ops[..|ops| - 1], mac);
    }
  }

  lemma {:induction false} MintedIdsPrefix(ops: seq<Op>, n: nat)
    requires n <= |ops|
    ensures MintedIds(ops[..n]) <= MintedIds(ops)
  {
    if n == |ops| {
      assert ops[..n] == ops;
    } else {
      MintedIdsPrefix(ops[..|ops| - 1], n);
      assert ops[..|ops| - 1][..n] == ops[..n];
    }
  }

  lemma NextIdIsNew(ops: seq<Op>, i: nat)
    requires i < |ops| && Distinct(MintedIds(ops))
    ensures MintedIds(ops[..i + 1]) == MintedIds(ops[..i]) + NewIds(ops[i])
    ensures ops[i].Create? ==> ops[i].id !in MintedIds(ops[..i])
  {
    assert ops[..i + 1][..i] == ops[..i];
    MintedIdsPrefix(ops, i + 1);
    if ops[i].Create? {
      LastIsNew(MintedIds(ops), MintedIds(ops[..i]), ops[i].id);
    }
  }

  lemma LastIsNew(ids: seq<string>, before: seq<string>, id: string)
    requires Distinct(ids) && before + [id] <= ids
    ensures id !in before
  {
    forall k | 0 <= k < |before| ensures before[k] != id {
      assert ids[k] == (before + [id])[k] == before[k];
      assert ids[|before|] == (before + [id])[|before|] == id;
    }
  }

  /** An id drawn for the first time is not in the ledger. */
  lemma NewIdIsUnknown(ops: seq<Op>, i: nat, mac: Mac)
    requires i < |ops| && ops[i].Create? && Distinct(MintedIds(ops))
    ensures ops[i].id !in LedgerRun(ops[..i], mac).ledger
  {
    NextIdIsNew(ops, i);
    LedgerHoldsTheMinted(ops[..i], mac);
  }

  /** How many requests a run accepted on one session. */
  function AcceptedOn(ops: seq<Op>, mac: Mac, id: string): nat {
    if ops == [] then 0
    else
      var n := |ops| - 1;
      AcceptedOn(ops[..n], mac, id)
      + if IsFor(ops[n], mac, id) && AcceptedBy(LedgerRun(ops, mac).answers[n]) == 1 then 1 else 0
  }

  /** A request whose token verifies and names this session. */
  predicate IsFor(op: Op, mac: Mac, id: string) {
    op.Consume? && Verify(mac, op.token, op.now).Ok?
    && Verify(mac, op.token, op.now).value.sessionId == id
  }

  function AcceptedBy(a: Answer): nat {
    if a.Told? && a.outcome.Accepted? then 1 else 0
  }

  lemma {:induction false} NothingBeforeTheSale(ops: seq<Op>, mac: Mac, id: string)
    requires id !in MintedIds(ops)
    ensures AcceptedOn(ops, mac, id) == 0
  {
    if ops != [] {
      NothingBeforeTheSale(ops[..|ops| - 1], mac, id);
      LedgerHoldsTheMinted(ops[..|ops| - 1], mac);
    }
  }

  /** The session sold by `op` is still what it was sold as, less what was accepted on it. */
  ghost predicate StandsAsSold(ops: seq<Op>, op: Op, mac: Mac)
    requires op.Create?
  {
    var used, ledger := AcceptedOn(ops, mac, op.id), LedgerRun(ops, mac).ledger;
    && used <= op.quota && op.id in ledger
    && ledger[op.id]
       == Entry(op.payer, op.policy, SatAdd(op.now, op.ttlSecs), op.quota, op.quota - used)
  }

  lemma SaleBegins(rest: seq<Op>, op: Op, mac: Mac)
    requires op.Create? && op.id !in MintedIds(rest)
    ensures StandsAsSold(rest + [op], op, mac)
  {
    assert (rest + [op])[..|rest|] == rest;
    NothingBeforeTheSale(rest, mac, op.id);
  }

  lemma SaleGoesOn(rest: seq<Op>, next: Op, op: Op, mac: Mac)
    requires op.Create? && StandsAsSold(rest, op, mac)
    requires next.Create? ==> next.id != op.id
    ensures StandsAsSold(rest + [next], op, mac)
  {
    assert (rest + [next])[..|rest|] == rest;
  }

  /** From its sale on, a session stays what it was sold as, whatever happens to others. */
  lemma {:induction false} SessionStands(ops: seq<Op>, k: nat, n: nat, mac: Mac)
    requires k < n <= |ops| && ops[k].Create? && Distinct(MintedIds(ops))
    ensures StandsAsSold(ops[..n], ops[k], mac)
  {
    assert ops[..n] == ops[..n - 1] + [ops[n - 1]];
    NextIdIsNew(ops, n - 1);
    if k < n - 1 {
      SessionStands(ops, k, n - 1, mac);
      SaleIsKnown(ops[..n - 1], ops[k], mac);
      SaleGoesOn(ops[..n - 1], ops[n - 1], ops[k], mac);
    } else {
      SaleBegins(ops[..k], ops[k], mac);
    }
  }

  lemma SaleIsKnown(ops: seq<Op>, op: Op, mac: Mac)
    requires op.Create? && StandsAsSold(ops, op, mac)
    ensures op.id in MintedIds(ops)
  {
    LedgerHoldsTheMinted(ops, mac);
  }

  /** No operation moves a deadline once set. */
  lemma DeadlineStands(ops: seq<Op>, k: nat, n: nat, mac: Mac)
    requires k < n <= |ops| && ops[k].Create? && Distinct(MintedIds(ops))
    ensures var ledger := LedgerRun(ops[..n], mac).ledger;
            && ops[k].id in ledger
            && ledger[ops[k].id].expiresAt == SatAdd(ops[k].now, ops[k].ttlSecs)
  {
    SessionStands(ops, k, n, mac);
  }

  lemma {:induction false} AnswersOfPrefix(ops: seq<Op>, n: nat, mac: Mac)
    requires n <= |ops|
    ensures LedgerRun(ops[..n], mac).answers <= LedgerRun(ops, mac).answers
  {
    if n == |ops| {
      assert ops[..n] == ops;
    } else {
      AnswersOfPrefix(ops[..|ops| - 1], n, mac);
      assert ops[..|ops| - 1][..n] == ops[..n];
    }
  }

  lemma AnswerOfRun(ops: seq<Op>, i: nat, mac: Mac)
    requires i < |ops|
    ensures LedgerRun(ops, mac).answers[i] == AnswerTo(LedgerRun(ops[..i], mac).ledger, ops[i], mac)
  {
    RunStep(ops, i, mac);
    AnswersOfPrefix(ops, i + 1, mac);
  }

  /** What a buyer is due at `t`, asking under some policy, with `used` requests spent. */
  function Due(op: Op, asked: Option<string>, used: nat, t: nat): Outcome
    requires op.Create? && used <= op.quota
  {
    if t >= op.now + op.ttlSecs then Rejected(Expired)
    else if asked != op.policy then Rejected(WrongPolicy)
    else if used == op.quota then Rejected(QuotaExhausted)
    else Accepted(op.payer, op.quota - used - 1, op.quota, op.now + op.ttlSecs)
  }

  /** A sale whose token reads back as it was written, with a deadline within `u64`. */
  predicate PlainSale(op: Op) {
    && op.Create? && op.now + op.ttlSecs <= 0xFFFF_FFFF_FFFF_FFFF
    && ':' !in op.payer && ':' !in op.id && (op.payer == "" || !IsSpace(op.payer[0]))
  }

  lemma SpendIsDue(ledger: Ledger, op: Op, used: nat, asked: Option<string>, t: nat)
    requires PlainSale(op) && used <= op.quota && op.id in ledger && t < op.now + op.ttlSecs
    requires ledger[op.id] == Entry(op.payer, op.policy, op.now + op.ttlSecs, op.quota, op.quota - used)
    ensures Spend(ledger, Claims(op.payer, op.now + op.ttlSecs, op.id), asked) == Due(op, asked, used, t)
  {
  }

  lemma TokenIsGood(before: seq<Op>, op: Op, mac: Mac, asked: Option<string>, t: nat)
    requires PlainSale(op) && StandsAsSold(before, op, mac)
    ensures Present(LedgerRun(before, mac).ledger, mac, TokenOf(op, mac), asked, t)
            == Due(op, asked, AcceptedOn(before, mac, op.id), t)
  {
    CleanTokenVerifies(mac, op.payer, op.now + op.ttlSecs, op.id, t);
    if t < op.now + op.ttlSecs {
      SpendIsDue(LedgerRun(before, mac).ledger, op, AcceptedOn(before, mac, op.id), asked, t);
    }
  }

  function TokenOf(op: Op, mac: Mac): string
    requires op.Create?
  {
    Mint(mac, op.payer, op.now + op.ttlSecs, op.id)
  }

  lemma TokenHandedOut(ops: seq<Op>, k: nat, token: string, mac: Mac)
    requires k < |ops| && PlainSale(ops[k]) && LedgerRun(ops, mac).answers[k] == Minted(token)
    ensures token == TokenOf(ops[k], mac)
  {
    AnswerOfRun(ops, k, mac);
  }

  /** The request at `i` is answered with what is due on the session sold by `op`. */
  ghost predicate ServedAsSold(ops: seq<Op>, op: Op, i: nat, mac: Mac)
    requires i < |ops| && op.Create? && ops[i].Consume?
  {
    var used := AcceptedOn(ops[..i], mac, op.id);
    && used <= op.quota
    && LedgerRun(ops, mac).answers[i] == Told(Due(op, ops[i].policy, used, ops[i].now))
  }

  lemma ShownIsDue(ops: seq<Op>, op: Op, i: nat, mac: Mac)
    requires i < |ops| && ops[i].Consume? && PlainSale(op)
    requires ops[i].token == TokenOf(op, mac) && StandsAsSold(ops[..i], op, mac)
    ensures ServedAsSold(ops, op, i, mac)
  {
    AnswerOfRun(ops, i, mac);
    TokenIsGood(ops[..i], op, mac, ops[i].policy, ops[i].now);
  }

  /** The token handed out at `k`, shown at any later time under any policy, is good from
      the sale until the time bought has passed, for the policy it was bought under, for
      as many requests as were bought, and for nothing else. */
  lemma BuyerGetsWhatWasSold(ops: seq<Op>, k: nat, i: nat, mac: Mac)
    requires k < i < |ops| && Distinct(MintedIds(ops))
    requires PlainSale(ops[k]) && ops[i].Consume?
    requires LedgerRun(ops, mac).answers[k] == Minted(ops[i].token)
    ensures ServedAsSold(ops, ops[k], i, mac)
  {
    TokenHandedOut(ops, k, ops[i].token, mac);
    SessionStands(ops, k, i, mac);
    ShownIsDue(ops, ops[k], i, mac);
  }

  /** The stored deadline never decides first: a token nobody forged carries the deadline
      its session was stored with, so it stops verifying when the session lapses. */
  lemma TokenNamesTheDeadline(ops: seq<Op>, i: nat, mac: Mac, token: string, now: nat)
    requires i <= |ops| && Distinct(MintedIds(ops)) && Unforged(ops[..i], mac, token, now)
    ensures var ledger := LedgerRun(ops[..i], mac).ledger;
            NamesItsDeadline(ledger, mac, token, now) && !Lapsed(ledger, mac, token, now)
  {
    if Verify(mac, token, now).Err? {
      return;
    }
    var k :| 0 <= k < |ops[..i]| && ops[..i][k].Create?
             && PresentedText(token) == SignedTextOf(ops[..i][k]);
    var op := ops[k];
    var parts := Split(Trim(token), ':');
    JoinSplit(Trim(token), ':');
    SignedPartInjective(parts[0], parts[1], parts[2],
                        op.payer, Decimal(SatAdd(op.now, op.ttlSecs)), op.id);
    ParseDecimal(SatAdd(op.now, op.ttlSecs), U64_MAX);
    DeadlineStands(ops, k, i, mac);
  }

  lemma RunStep(ops: seq<Op>, i: nat, mac: Mac)
    requires i < |ops|
    ensures var before := LedgerRun(ops[..i], mac);
            LedgerRun(ops[..i + 1], mac)
            == Books(LedgerAfter(before.ledger, ops[i], mac),
                     before.answers + [AnswerTo(before.ledger, ops[i], mac)])
  {
    assert ops[..i + 1][..i] == ops[..i];
  }

  /** What `ServeOne` needs of an operation. */
  ghost predicate Servable(op: Op, ledger: Ledger, mac: Mac) {
    match op
    case Sweep(_) => true
    case Create(_, policy, quota, ttlSecs, now, id) =>
      id !in ledger && Named(policy) && FitsRedis(quota, ttlSecs, now)
    case Consume(token, policy, now) =>
      Named(policy) && NamesItsDeadline(ledger, mac, token, now)
  }

  lemma ProperIsServable(ops: seq<Op>, i: nat, mac: Mac)
    requires i < |ops| && Distinct(MintedIds(ops)) && ProperAt(ops, i, mac)
    ensures Servable(ops[i], LedgerRun(ops[..i], mac).ledger, mac)
  {
    match ops[i] {
      case Sweep(_) =>
      case Create(_, _, _, _, _, _) =>
        NewIdIsUnknown(ops, i, mac);
      case Consume(token, _, now) =>
        TokenNamesTheDeadline(ops, i, mac, token, now);
    }
  }

  method ServeOne(m: MemorySessionStore, r: RedisSessionStore, op: Op)
    returns (a: Answer, b: Answer)
    requires m.Valid() && r.Valid() && m.mac == r.mac && m.ledger == r.ledger
    requires m.clock <= op.now && Servable(op, m.ledger, m.mac)
    requires forall id :: id in r.ledger ==> Named(r.ledger[id].policy)
    modifies m, r
    ensures m.Valid() && r.Valid() && m.clock == op.now
    ensures m.ledger == r.ledger == LedgerAfter(old(m.ledger), op, m.mac)
    ensures forall id :: id in r.ledger ==> Named(r.ledger[id].policy)
    ensures a == b == AnswerTo(old(m.ledger), op, m.mac)
  {
    match op {
      case Sweep(now) =>
        var _ := m.CleanupExpiredAt(now);
        a, b := Reaped, Reaped;
      case Create(payer, policy, quota, ttlSecs, now, id) =>
        var t := m.CreateSessionAt(payer, policy, quota, ttlSecs, now, id);
        var u := r.CreateSession(payer, policy, quota, ttlSecs, now, id);
        a, b := Minted(t), Minted(u);
      case Consume(token, policy, now) =>
        var t := m.ConsumeAt(token, policy, now, 0);
        var u := r.Consume(token, policy, now, true);
        a, b := Told(t), Told(u);
    }
  }

  /** Memory, swept at any times, and Redis give every sequence of operations the
      answers of the ledger, hence each other's. */
  method ServeBoth(ops: seq<Op>, mac: Mac) returns (memory: seq<Answer>, redis: seq<Answer>)
    requires ProperRun(ops, mac)
    ensures memory == redis == LedgerRun(ops, mac).answers
  {
    var m := new MemorySessionStore(mac, 0);
    var r := new RedisSessionStore(mac);
    memory, redis := [], [];
    var i := 0;
    while i < |ops|
      invariant 0 <= i <= |ops|
      invariant m.mac == r.mac == mac
      invariant fresh(m) && fresh(r) && m.Valid() && r.Valid()
      invariant i < |ops| ==> m.clock <= ops[i].now
      invariant m.ledger == r.ledger == LedgerRun(ops[..i], mac).ledger
      invariant forall id :: id in r.ledger ==> Named(r.ledger[id].policy)
      invariant memory == redis == LedgerRun(ops[..i], mac).answers
    {
      RunStep(ops, i, mac);
      ProperIsServable(ops, i, mac);
      var a, b := ServeOne(m, r, ops[i]);
      memory, redis := memory + [a], redis + [b];
      i := i + 1;
    }
    assert ops[..i] == ops;
  }

  // ------------------------------------------------------------------ conservation

  function Acceptances(answers: seq<Answer>): nat {
    if answers == [] then 0
    else Acceptances(answers[..|answers| - 1]) + AcceptedBy(answers[|answers| - 1])
  }

  /** The quota of every session a run mints. */
  function Sold(ops: seq<Op>): nat {
    if ops == [] then 0
    else Sold(ops[..|ops| - 1]) + SoldBy(ops[|ops| - 1])
  }

  function Unspent(ledger: Ledger, ids: seq<string>): nat
    requires forall id :: id in ids ==> id in ledger
  {
    if ids == [] then 0
    else Unspent(ledger, ids[..|ids| - 1]) + ledger[ids[|ids| - 1]].remaining
  }

  lemma {:induction false} UnspentElsewhere(a: Ledger, b: Ledger, ids: seq<string>)
    requires forall id :: id in ids ==> id in a && id in b && a[id] == b[id]
    ensures Unspent(a, ids) == Unspent(b, ids)
  {
    if ids != [] {
      UnspentElsewhere(a, b, ids[..|ids| - 1]);
    }
  }

  lemma {:induction false} UnspentAfterCharge(ledger: Ledger, ids: seq<string>, id: string)
    requires forall x :: x in ids ==> x in ledger
    requires Distinct(ids) && id in ids && ledger[id].remaining > 0
    ensures Unspent(Charge(ledger, id), ids) + 1 == Unspent(ledger, ids)
  {
    var n := |ids| - 1;
    if ids[n] == id {
      UnspentElsewhere(ledger, Charge(ledger, id), ids[..n]);
    } else {
      UnspentAfterCharge(ledger, ids[..n], id);
    }
  }

  /** `ids` are the sessions in the ledger, and what was accepted and what is left of
      them is what was sold. */
  ghost predicate InBalance(ledger: Ledger, ids: seq<string>, accepted: nat, sold: nat) {
    && (forall id :: id in ids <==> id in ledger)
    && Distinct(ids)
    && accepted + Unspent(ledger, ids) == sold
  }

  lemma OneMoreId(ids: seq<string>, id: string)
    requires Distinct(ids) && id !in ids
    ensures Distinct(ids + [id]) && forall x :: x in ids + [id] <==> x in ids || x == id
  {
  }

  lemma MintBalances(ledger: Ledger, ids: seq<string>, accepted: nat, sold: nat, id: string, e: Entry)
    requires InBalance(ledger, ids, accepted, sold) && id !in ids && e.remaining == e.quota
    ensures InBalance(ledger[id := e], ids + [id], accepted, sold + e.quota)
  {
    OneMoreId(ids, id);
    assert forall x :: x in ids + [id] <==> x in ledger[id := e];
    UnspentElsewhere(ledger, ledger[id := e], ids);
    assert (ids + [id])[..|ids|] == ids;
  }

  lemma SpendBalances(before: Ledger, after: Ledger, ids: seq<string>, accepted: nat, sold: nat,
                      mac: Mac, token: string, now: nat, outcome: Outcome)
    requires InBalance(before, ids, accepted, sold)
    requires Accounted(before, after, mac, token, now, outcome)
    ensures InBalance(after, ids, accepted + if outcome.Accepted? then 1 else 0, sold)
  {
    if outcome.Accepted? {
      UnspentAfterCharge(before, ids, Verify(mac, token, now).value.sessionId);
    }
  }

  /** The effect of one operation on the books, whoever keeps them. */
  ghost predicate Booked(before: Ledger, after: Ledger, op: Op, answer: Answer, mac: Mac) {
    match op
    case Sweep(_) => answer.Reaped? && after == before
    case Create(payer, policy, quota, ttlSecs, now, id) =>
      && answer.Minted?
      && after == before[id := Entry(payer, policy, SatAdd(now, ttlSecs), quota, quota)]
    case Consume(token, _, now) =>
      answer.Told? && Accounted(before, after, mac, token, now, answer.outcome)
  }

  lemma OpBalances(before: Ledger, after: Ledger, ids: seq<string>, accepted: nat, sold: nat,
                   op: Op, answer: Answer, mac: Mac)
    requires InBalance(before, ids, accepted, sold)
    requires op.Create? ==> op.id !in ids
    requires Booked(before, after, op, answer, mac)
    ensures InBalance(after, ids + NewIds(op), accepted + AcceptedBy(answer), sold + SoldBy(op))
  {
    match op {
      case Create(payer, policy, quota, ttlSecs, now, id) =>
        MintBalances(before, ids, accepted, sold, id,
                     Entry(payer, policy, SatAdd(now, ttlSecs), quota, quota));
      case Sweep(_) =>
        assert ids + [] == ids;
      case Consume(token, policy, now) =>
        assert ids + [] == ids;
        SpendBalances(before, after, ids, accepted, sold, mac, token, now, answer.outcome);
    }
  }

  function SoldBy(op: Op): nat {
    if op.Create? then op.quota else 0
  }

  lemma NextIsSold(ops: seq<Op>, i: nat)
    requires i < |ops|
    ensures Sold(ops[..i + 1]) == Sold(ops[..i]) + SoldBy(ops[i])
  {
    assert ops[..i + 1][..i] == ops[..i];
  }

  lemma AcceptancesAppend(answers: seq<Answer>, a: Answer)
    ensures Acceptances(answers + [a]) == Acceptances(answers) + AcceptedBy(a)
  {
    assert (answers + [a])[..|answers|] == answers;
  }

  /** Over any run, the ledger's acceptances and unspent quota, of live and of expired
      sessions, add up to the quota sold. All it takes is that no session id is drawn
      twice; the tokens may be anybody's. */
  lemma {:induction false} QuotaIsAccountedFor(ops: seq<Op>, mac: Mac)
    requires Distinct(MintedIds(ops))
    ensures var books := LedgerRun(ops, mac);
            InBalance(books.ledger, MintedIds(ops), Acceptances(books.answers), Sold(ops))
  {
    if ops != [] {
      var n := |ops| - 1;
      MintedIdsPrefix(ops, n);
      QuotaIsAccountedFor(ops[..n], mac);
      var before := LedgerRun(ops[..n], mac);
      BooksGoOn(before.ledger, LedgerAfter(before.ledger, ops[n], mac), ops, n, before.answers,
                AnswerTo(before.ledger, ops[n], mac), mac);
      assert ops[..n + 1] == ops;
    }
  }

  lemma BooksGoOn(before: Ledger, after: Ledger, ops: seq<Op>, i: nat, answers: seq<Answer>,
                  answer: Answer, mac: Mac)
    requires i < |ops| && Distinct(MintedIds(ops))
    requires InBalance(before, MintedIds(ops[..i]), Acceptances(answers), Sold(ops[..i]))
    requires Booked(before, after, ops[i], answer, mac)
    ensures InBalance(after, MintedIds(ops[..i + 1]), Acceptances(answers + [answer]), Sold(ops[..i + 1]))
  {
    NextIdIsNew(ops, i);
    NextIsSold(ops, i);
    AcceptancesAppend(answers, answer);
    OpBalances(before, after, MintedIds(ops[..i]), Acceptances(answers), Sold(ops[..i]), ops[i],
               answer, mac);
  }

  method ServeFromMemory(m: MemorySessionStore, op: Op) returns (answer: Answer)
    requires m.Valid() && m.clock <= op.now
    requires op.Create? ==> op.id !in m.ledger
    modifies m
    ensures m.Valid() && m.clock == op.now
    ensures Booked(old(m.ledger), m.ledger, op, answer, m.mac)
  {
    match op {
      case Sweep(now) =>
        var _ := m.CleanupExpiredAt(now);
        answer := Reaped;
      case Create(payer, policy, quota, ttlSecs, now, id) =>
        var token := m.CreateSessionAt(payer, policy, quota, ttlSecs, now, id);
        answer := Minted(token);
      case Consume(token, policy, now) =>
        var outcome := m.ConsumeAt(token, policy, now, 0);
        answer := Told(outcome);
    }
  }

  /** The in-process store serving whoever comes, with forged tokens or lapsed ones:
      what it accepted and what is left is what it sold. */
  method ServeAnybody(ops: seq<Op>, mac: Mac) returns (answers: seq<Answer>, ghost left: nat)
    requires Distinct(MintedIds(ops))
    requires forall i, j :: 0 <= i < j < |ops| ==> ops[i].now <= ops[j].now
    ensures |answers| == |ops|
    ensures Acceptances(answers) + left == Sold(ops)
  {
    var m := new MemorySessionStore(mac, 0);
    answers := [];
    var i := 0;
    while i < |ops|
      invariant 0 <= i <= |ops|
      invariant fresh(m) && m.Valid() && m.mac == mac && |answers| == i
      invariant i < |ops| ==> m.clock <= ops[i].now
      invariant InBalance(m.ledger, MintedIds(ops[..i]), Acceptances(answers), Sold(ops[..i]))
    {
      ghost var before := m.ledger;
      NextIdIsNew(ops, i);
      var answer := ServeFromMemory(m, ops[i]);
      BooksGoOn(before, m.ledger, ops, i, answers, answer, mac);
      answers := answers + [answer];
      i := i + 1;
    }
    assert ops[..i] == ops;
    left := Unspent(m.ledger, MintedIds(ops));
  }
}
