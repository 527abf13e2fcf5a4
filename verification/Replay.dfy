/** The replay cache of `src/session.rs`: a payment id is claimed once per TTL. The
    in-process map sweeps old records; Redis expires them. */
module Replay {
  import opened Prelude

  /** The answer to a claim; a store that cannot be reached answers neither. */
  datatype Claim = Fresh | Seen(firstSeen: nat)

  const TTL_FLOOR: nat := 300

  /** How long a claim is held, given the advertised timeout. */
  function ReplayTtl(maxTimeoutSecs: nat): nat {
    var scaled := if maxTimeoutSecs * 10 <= U64_MAX then maxTimeoutSecs * 10 else U64_MAX;
    if scaled >= TTL_FLOOR then scaled else TTL_FLOOR
  }

  /** The claim outlives the advertised window, and never falls under the floor. */
  lemma TtlOutlivesWindow(maxTimeoutSecs: nat)
    requires maxTimeoutSecs < U64_MAX
    ensures ReplayTtl(maxTimeoutSecs) > maxTimeoutSecs && ReplayTtl(maxTimeoutSecs) >= TTL_FLOOR
  {
  }

  // ------------------------------------------------------------------- in process

  type Cache = map<string, nat>

  function ClaimIn(seen: Cache, id: string, ttl: nat, now: nat): Claim {
    if id in seen && SatSub(now, seen[id]) < ttl then Seen(seen[id]) else Fresh
  }

  function AfterClaim(seen: Cache, id: string, ttl: nat, now: nat): Cache {
    if ClaimIn(seen, id, ttl, now).Fresh? then seen[id := now] else seen
  }

  function Swept(seen: Cache, retention: nat, now: nat): Cache {
    map id | id in seen && SatSub(now, seen[id]) < retention :: seen[id]
  }

  // ---------------------------------------------------------------------- in Redis

  datatype Record = Record(value: nat, expiresAt: nat)

  type Records = map<string, Record>

  predicate Live(records: Records, id: string, now: nat) {
    id in records && now < records[id].expiresAt
  }

  /** The claim script: `GET`, else `SET ... EX`. */
  function RedisClaimIn(records: Records, id: string, now: nat): Claim {
    if Live(records, id, now) then Seen(records[id].value) else Fresh
  }

  function RedisAfterClaim(records: Records, id: string, ttl: nat, now: nat): Records {
    if Live(records, id, now) then records else records[id := Record(now, now + ttl)]
  }

  // ------------------------------------------------------------- either of the two

  datatype Backend = Memory | Redis

  /** A claim on either store: memory looks at the age of the record and the TTL of the
      newcomer, Redis at the deadline the record was made with. */
  function ClaimOn(backend: Backend, records: Records, id: string, ttl: nat, now: nat): Claim {
    match backend
    case Memory => ClaimIn(Stamps(records), id, ttl, now)
    case Redis => RedisClaimIn(records, id, now)
  }

  function AfterClaimOn(backend: Backend, records: Records, id: string, ttl: nat, now: nat): Records {
    if ClaimOn(backend, records, id, ttl, now).Fresh? then records[id := Record(now, now + ttl)]
    else records
  }

  /** Redis needs no sweep. */
  function SweptOn(backend: Backend, records: Records, retention: nat, now: nat): Records {
    match backend
    case Memory => map id | id in records && SatSub(now, records[id].value) < retention :: records[id]
    case Redis => records
  }

  /** What memory keeps of a record. */
  function Stamps(records: Records): Cache {
    map id | id in records :: records[id].value
  }

  /** That is the memory cache and the Redis store above. */
  lemma EitherStore(records: Records, id: string, ttl: nat, retention: nat, now: nat)
    ensures Stamps(AfterClaimOn(Memory, records, id, ttl, now)) == AfterClaim(Stamps(records), id, ttl, now)
    ensures Stamps(SweptOn(Memory, records, retention, now)) == Swept(Stamps(records), retention, now)
    ensures Stamps(records - {id}) == Stamps(records) - {id}
    ensures AfterClaimOn(Redis, records, id, ttl, now) == RedisAfterClaim(records, id, ttl, now)
  {
  }

  /** On either store, a payment claimed under some timeout is claimable again under that
      timeout exactly when ten times as long, and at least five minutes, have passed. */
  lemma HeldTenTimeouts(backend: Backend, records: Records, id: string, timeout: nat, at: nat, now: nat)
    requires timeout * 10 <= 0xFFFF_FFFF_FFFF_FFFF && at <= now
    requires ClaimOn(backend, records, id, ReplayTtl(timeout), at).Fresh?
    ensures var held := AfterClaimOn(backend, records, id, ReplayTtl(timeout), at);
            ClaimOn(backend, held, id, ReplayTtl(timeout), now)
            == if now >= at + 10 * timeout && now >= at + 300 then Fresh else Seen(at)
  {
  }

  // -------------------------------------------------------------------------- runs

  datatype Op =
    | ClaimOp(id: string, now: nat)
    | Release(id: string, now: nat)
    | Sweep(now: nat)

  datatype Run<S> = Run(state: S, answers: seq<Option<Claim>>)

  function MemoryRun(ops: seq<Op>, ttl: nat, retention: nat): (r: Run<Cache>)
    ensures |r.answers| == |ops|
  {
    if ops == [] then Run(map[], [])
    else
      var Run(seen, answers) := MemoryRun(ops[..|ops| - 1], ttl, retention);
      match ops[|ops| - 1]
      case ClaimOp(id, now) =>
        Run(AfterClaim(seen, id, ttl, now), answers + [Some(ClaimIn(seen, id, ttl, now))])
      case Release(id, _) => Run(seen - {id}, answers + [None])
      case Sweep(now) => Run(Swept(seen, retention, now), answers + [None])
  }

  function RedisRun(ops: seq<Op>, ttl: nat): (r: Run<Records>)
    ensures |r.answers| == |ops|
  {
    if ops == [] then Run(map[], [])
    else
      var Run(records, answers) := RedisRun(ops[..|ops| - 1], ttl);
      match ops[|ops| - 1]
      case ClaimOp(id, now) =>
        Run(RedisAfterClaim(records, id, ttl, now), answers + [Some(RedisClaimIn(records, id, now))])
      case Release(id, _) => Run(records - {id}, answers + [None])
      case Sweep(_) => Run(records, answers + [None])
  }

  predicate Ordered(ops: seq<Op>) {
    forall i, j :: 0 <= i < j < |ops| ==> ops[i].now <= ops[j].now
  }

  /** The two stores hold the same claims, for every question asked from `now` on. */
  ghost predicate SameClaims(seen: Cache, records: Records, ttl: nat, now: nat) {
    && (forall id :: id in seen ==> seen[id] <= now)
    && (forall id :: id in seen && now < seen[id] + ttl ==>
          id in records && records[id] == Record(seen[id], seen[id] + ttl))
    && (forall id :: Live(records, id, now) ==>
          id in seen && records[id] == Record(seen[id], seen[id] + ttl))
  }

  lemma ClaimKeepsSame(seen: Cache, records: Records, ttl: nat, clock: nat, id: string, now: nat)
    requires SameClaims(seen, records, ttl, clock) && clock <= now && ttl > 0
    ensures ClaimIn(seen, id, ttl, now) == RedisClaimIn(records, id, now)
    ensures SameClaims(AfterClaim(seen, id, ttl, now), RedisAfterClaim(records, id, ttl, now), ttl, now)
  {
  }

  lemma ReleaseKeepsSame(seen: Cache, records: Records, ttl: nat, clock: nat, id: string, now: nat)
    requires SameClaims(seen, records, ttl, clock) && clock <= now
    ensures SameClaims(seen - {id}, records - {id}, ttl, now)
  {
  }

  lemma SweepKeepsSame(seen: Cache, records: Records, ttl: nat, clock: nat, retention: nat, now: nat)
    requires SameClaims(seen, records, ttl, clock) && clock <= now && ttl <= retention
    ensures SameClaims(Swept(seen, retention, now), records, ttl, now)
  {
  }

  lemma {:induction false} StoresStayTogether(ops: seq<Op>, ttl: nat, retention: nat)
    requires 0 < ttl <= retention && Ordered(ops)
    ensures SameClaims(MemoryRun(ops, ttl, retention).state, RedisRun(ops, ttl).state, ttl,
                       if ops == [] then 0 else ops[|ops| - 1].now)
    ensures MemoryRun(ops, ttl, retention).answers == RedisRun(ops, ttl).answers
  {
    if ops != [] {
      var rest, op := ops[..|ops| - 1], ops[|ops| - 1];
      StoresStayTogether(rest, ttl, retention);
      var clock := if rest == [] then 0 else rest[|rest| - 1].now;
      var seen, records := MemoryRun(rest, ttl, retention).state, RedisRun(rest, ttl).state;
      match op {
        case ClaimOp(id, now) => ClaimKeepsSame(seen, records, ttl, clock, id, now);
        case Release(id, now) => ReleaseKeepsSame(seen, records, ttl, clock, id, now);
        case Sweep(now) => SweepKeepsSame(seen, records, ttl, clock, retention, now);
      }
    }
  }

  /** Memory and Redis answer every sequence of claims, releases and sweeps alike,
      if one TTL is in force and the sweep retains records at least that long. */
  lemma BackendsAgree(ops: seq<Op>, ttl: nat, retention: nat)
    requires 0 < ttl <= retention && Ordered(ops)
    ensures MemoryRun(ops, ttl, retention).answers == RedisRun(ops, ttl).answers
  {
    StoresStayTogether(ops, ttl, retention);
  }

  /** The sweep is invisible to every later claim exactly when records are retained
      for at least the TTL. Configuration does not enforce this. */
  lemma SweepIsInvisible(ttl: nat, retention: nat)
    ensures (forall id: string, seen: Cache, sweptAt: nat, now: nat ::
               sweptAt <= now && (id in seen ==> seen[id] <= sweptAt) ==>
                 ClaimIn(Swept(seen, retention, sweptAt), id, ttl, now)
                 == ClaimIn(seen, id, ttl, now))
            <==> retention >= ttl
  {
    if retention < ttl {
      var seen := map["payment" := 0];
      assert ClaimIn(Swept(seen, retention, retention), "payment", ttl, retention) == Fresh;
      assert ClaimIn(seen, "payment", ttl, retention) == Seen(0);
    }
  }

  /** A claim made under one TTL and met again under another: memory applies the
      TTL of the newcomer, Redis that of the first claim. They agree at every age
      exactly when the TTLs are the same. */
  lemma OneTtlIsNeeded(first: nat, second: nat)
    ensures (forall at: nat, now: nat :: at <= now ==>
               ClaimIn(map["payment" := at], "payment", second, now)
               == RedisClaimIn(map["payment" := Record(at, at + first)], "payment", now))
            <==> first == second
  {
    if first != second {
      var age := if first < second then first else second;
      assert ClaimIn(map["payment" := 0], "payment", second, age)
             != RedisClaimIn(map["payment" := Record(0, 0 + first)], "payment", age);
    }
  }

  /** Two fresh claims of one id with no release between them are at least the TTL
      apart, whatever else is claimed, released and swept. */
  lemma FreshClaimsAreSpaced(ops: seq<Op>, ttl: nat, retention: nat, i: nat, j: nat)
    requires ttl <= retention && Ordered(ops) && i < j < |ops|
    requires ops[i].ClaimOp? && ops[j].ClaimOp? && ops[i].id == ops[j].id
    requires MemoryRun(ops, ttl, retention).answers[i] == Some(Fresh)
    requires MemoryRun(ops, ttl, retention).answers[j] == Some(Fresh)
    requires forall k :: i < k < j ==> ops[k] != Release(ops[i].id, ops[k].now)
    ensures ops[j].now >= ops[i].now + ttl
  {
    AnswersOfPrefix(ops, ttl, retention, i);
    AnswersOfPrefix(ops, ttl, retention, j);
    ClaimIsHeld(ops, ttl, retention, i, j);
  }

  lemma {:induction false} AnswersOfPrefix(ops: seq<Op>, ttl: nat, retention: nat, i: nat)
    requires i < |ops| && ops[i].ClaimOp?
    ensures MemoryRun(ops, ttl, retention).answers[i]
            == Some(ClaimIn(MemoryRun(ops[..i], ttl, retention).state, ops[i].id, ttl, ops[i].now))
    decreases |ops|
  {
    if i < |ops| - 1 {
      AnswersOfPrefix(ops[..|ops| - 1], ttl, retention, i);
      assert ops[..|ops| - 1][..i] == ops[..i];
    }
  }

  /** From a fresh claim at `i` until `j` with no release, the record stands or its
      TTL has passed. */
  lemma {:induction false} ClaimIsHeld(ops: seq<Op>, ttl: nat, retention: nat, i: nat, j: nat)
    requires ttl <= retention && Ordered(ops) && i < j <= |ops|
    requires ops[i].ClaimOp?
    requires ClaimIn(MemoryRun(ops[..i], ttl, retention).state, ops[i].id, ttl, ops[i].now).Fresh?
    requires forall k :: i < k < j ==> ops[k] != Release(ops[i].id, ops[k].now)
    ensures var seen := MemoryRun(ops[..j], ttl, retention).state;
            || ops[j - 1].now >= ops[i].now + ttl
            || (ops[i].id in seen && ops[i].now <= seen[ops[i].id] <= ops[j - 1].now)
  {
    assert ops[..j][..j - 1] == ops[..j - 1];
    if i + 1 < j {
      ClaimIsHeld(ops, ttl, retention, i, j - 1);
      assert ops[j - 2].now <= ops[j - 1].now;
    }
  }

  /** The claim at `i` holds the payment claimed again at `j`: it was fresh, its TTL has
      not passed, and nobody gave it back. */
  ghost predicate Holding(ops: seq<Op>, answers: seq<Option<Claim>>, ttl: nat, i: nat, j: nat) {
    && i < j < |ops| && |answers| == |ops|
    && ops[i].ClaimOp? && ops[j].ClaimOp? && ops[i].id == ops[j].id
    && answers[i] == Some(Fresh) && ops[j].now < ops[i].now + ttl
    && NotReleased(ops, ops[i].id, i, j)
  }

  ghost predicate NotReleased(ops: seq<Op>, id: string, i: nat, j: nat) {
    forall k :: i < k < j && k < |ops| ==> ops[k] != Release(id, ops[k].now)
  }

  /** Over every run a claim is fresh exactly when no earlier one holds the payment. */
  lemma FreshIff(ops: seq<Op>, ttl: nat, retention: nat, j: nat)
    requires ttl <= retention && Ordered(ops) && j < |ops| && ops[j].ClaimOp?
    ensures MemoryRun(ops, ttl, retention).answers[j] == Some(Fresh)
            <==> !exists i: nat :: Holding(ops, MemoryRun(ops, ttl, retention).answers, ttl, i, j)
  {
    var answers := MemoryRun(ops, ttl, retention).answers;
    AnswersOfPrefix(ops, ttl, retention, j);
    if answers[j] == Some(Fresh) {
      forall i: nat | Holding(ops, answers, ttl, i, j) ensures false {
        assert NotReleased(ops, ops[i].id, i, j);
        FreshClaimsAreSpaced(ops, ttl, retention, i, j);
      }
    } else {
      var i := RecordHasClaim(ops, ttl, retention, j, ops[j].id);
      assert Holding(ops, answers, ttl, i, j);
    }
  }

  /** A record is that of a fresh claim not given back. */
  lemma {:induction false} RecordHasClaim(ops: seq<Op>, ttl: nat, retention: nat, j: nat, id: string)
    returns (i: nat)
    requires Ordered(ops) && j <= |ops| && id in MemoryRun(ops[..j], ttl, retention).state
    ensures i < j && ops[i].ClaimOp? && ops[i].id == id
    ensures MemoryRun(ops, ttl, retention).answers[i] == Some(Fresh)
    ensures MemoryRun(ops[..j], ttl, retention).state[id] == ops[i].now
    ensures NotReleased(ops, id, i, j)
  {
    var n := j - 1;
    assert ops[..j][..n] == ops[..n];
    var before := MemoryRun(ops[..n], ttl, retention).state;
    if ops[n].ClaimOp? && ops[n].id == id && ClaimIn(before, id, ttl, ops[n].now).Fresh? {
      i := n;
      AnswersOfPrefix(ops, ttl, retention, n);
    } else {
      i := RecordHasClaim(ops, ttl, retention, n, id);
    }
  }
}
