/** Resolution of a request to its terms, `policy_for` of `src/config.rs`: a policy the
    gateway names, else the longest matching path prefix, else the defaults. */
module Policy {
  import opened Prelude

  datatype FreeTier = FreeTier(maxRequests: nat, windowSecs: nat)
  datatype PaidTier = PaidTier(quota: nat, durationSecs: nat)

  datatype Terms = Terms(policyLabel: string, payTo: string, amount: string, asset: string,
                         assetDecimals: nat, description: string,
                         freeTier: FreeTier, paidTier: PaidTier)

  datatype Override = Override(payTo: Option<string>, amount: Option<string>,
                               asset: Option<string>, assetDecimals: Option<nat>,
                               description: Option<string>,
                               freeTier: Option<FreeTier>, paidTier: Option<PaidTier>)

  datatype Route = Route(pathPrefix: string, overrides: Override)

  const DEFAULT_POLICY_LABEL: string := "default"

  /** `defaults` is labelled with the default label. */
  datatype Config = Config(defaults: Terms, policies: map<string, Override>, routes: seq<Route>)

  // -------------------------------------------------------------------- the meaning

  function Layer(over: Override, terms: Terms): Terms {
    Terms(terms.policyLabel, over.payTo.GetOr(terms.payTo), over.amount.GetOr(terms.amount),
          over.asset.GetOr(terms.asset), over.assetDecimals.GetOr(terms.assetDecimals),
          over.description.GetOr(terms.description),
          over.freeTier.GetOr(terms.freeTier), over.paidTier.GetOr(terms.paidTier))
  }

  predicate Matches(r: Route, path: string) {
    r.pathPrefix <= path
  }

  /** The longest matching route; of equally long ones the last. */
  function Longest(routes: seq<Route>, path: string): Option<Route> {
    if routes == [] then None
    else
      var best := Longest(routes[..|routes| - 1], path);
      var r := routes[|routes| - 1];
      if Matches(r, path) && (best.None? || |r.pathPrefix| >= |best.value.pathPrefix|)
      then Some(r) else best
  }

  function Resolve(config: Config, path: string, policy: Option<string>): Terms {
    var defaults := config.defaults.(policyLabel := DEFAULT_POLICY_LABEL);
    if policy.Some? && policy.value in config.policies then
      Layer(config.policies[policy.value], defaults).(policyLabel := policy.value)
    else
      match Longest(config.routes, path)
      case Some(r) => Layer(r.overrides, defaults).(policyLabel := r.pathPrefix)
      case None => defaults
  }

  // ------------------------------------------------------------------- the program

  /** The record the resolution overwrites field by field. */
  class ResolvedPolicy {
    var policyLabel: string
    var payTo: string
    var amount: string
    var asset: string
    var assetDecimals: nat
    var description: string
    var freeTier: FreeTier
    var paidTier: PaidTier

    function Get(): Terms
      reads this
    {
      Terms(policyLabel, payTo, amount, asset, assetDecimals, description, freeTier, paidTier)
    }

    constructor (t: Terms)
      ensures Get() == t
    {
      policyLabel, payTo, amount, asset := t.policyLabel, t.payTo, t.amount, t.asset;
      assetDecimals, description := t.assetDecimals, t.description;
      freeTier, paidTier := t.freeTier, t.paidTier;
    }

    /** Lay an override over these terms. */
    method Apply(over: Override)
      modifies this
      ensures Get() == Layer(over, old(Get()))
    {
      ApplyPrice(over);
      if over.description.Some? {
        description := over.description.value;
      }
      if over.freeTier.Some? {
        freeTier := over.freeTier.value;
      }
      if over.paidTier.Some? {
        paidTier := over.paidTier.value;
      }
    }

    /** The payment fields, each independently of the others. */
    method ApplyPrice(over: Override)
      modifies this
      ensures Get() == Layer(over.(description := None, freeTier := None, paidTier := None), old(Get()))
    {
      if over.payTo.Some? {
        payTo := over.payTo.value;
      }
      if over.amount.Some? {
        amount := over.amount.value;
      }
      if over.asset.Some? {
        asset := over.asset.value;
      }
      if over.assetDecimals.Some? {
        assetDecimals := over.assetDecimals.value;
      }
    }
  }

  method PolicyFor(config: Config, path: string, policy: Option<string>)
    returns (resolved: ResolvedPolicy)
    ensures fresh(resolved) && resolved.Get() == Resolve(config, path, policy)
  {
    resolved := new ResolvedPolicy(config.defaults.(policyLabel := DEFAULT_POLICY_LABEL));
    if policy.Some? && policy.value in config.policies {
      resolved.Apply(config.policies[policy.value]);
      resolved.policyLabel := policy.value;
      return;
    }
    var route := Longest(config.routes, path);
    if route.Some? {
      resolved.Apply(route.value.overrides);
      resolved.policyLabel := route.value.pathPrefix;
    }
  }

  // ------------------------------------------------------------------ what is proved

  /** The value a field has after an override: its own if it is set, the default if not. */
  predicate Field<T(==)>(over: Option<T>, default: T, resolved: T) {
    && (over.Some? ==> resolved == over.value)
    && (over.None? ==> resolved == default)
  }

  /** `terms` are the defaults with `over` laid on them, field by field. */
  predicate LaidOver(defaults: Terms, over: Override, terms: Terms) {
    && Field(over.payTo, defaults.payTo, terms.payTo)
    && Field(over.amount, defaults.amount, terms.amount)
    && Field(over.asset, defaults.asset, terms.asset)
    && Field(over.assetDecimals, defaults.assetDecimals, terms.assetDecimals)
    && Field(over.description, defaults.description, terms.description)
    && Field(over.freeTier, defaults.freeTier, terms.freeTier)
    && Field(over.paidTier, defaults.paidTier, terms.paidTier)
  }

  /** Which terms a request gets: those of the policy it names, if there is one; else
      those of a longest route whose prefix its path starts with; else the defaults. */
  lemma TermsOfRequest(config: Config, path: string, policy: Option<string>)
    ensures var terms := Resolve(config, path, policy);
            if policy.Some? && policy.value in config.policies then
              && terms.policyLabel == policy.value
              && LaidOver(config.defaults, config.policies[policy.value], terms)
            else if exists r :: r in config.routes && r.pathPrefix <= path then
              exists r :: r in config.routes && r.pathPrefix <= path
                          && (forall q :: q in config.routes && q.pathPrefix <= path ==>
                                |q.pathPrefix| <= |r.pathPrefix|)
                          && terms.policyLabel == r.pathPrefix
                          && LaidOver(config.defaults, r.overrides, terms)
            else
              terms == config.defaults.(policyLabel := "default")
  {
    LongestIsLongest(config.routes, path);
    var best := Longest(config.routes, path);
    if policy.Some? && policy.value in config.policies {
    } else if best.Some? {
      assert IsLongest(config.routes, path, best.value);
      assert best.value in config.routes && best.value.pathPrefix <= path;
    } else {
      forall r | r in config.routes ensures !(r.pathPrefix <= path) {
        assert !Matches(r, path);
      }
    }
  }

  /** Of routes with one prefix the last is taken. */
  lemma {:induction false} LastOfEqualPrefixes(routes: seq<Route>, path: string, i: nat)
    requires i < |routes| && routes[i].pathPrefix <= path
    requires forall k :: 0 <= k < |routes| && routes[k].pathPrefix <= path ==>
               |routes[k].pathPrefix| <= |routes[i].pathPrefix|
    requires forall k :: i < k < |routes| ==> routes[k].pathPrefix != routes[i].pathPrefix
    ensures Longest(routes, path) == Some(routes[i])
  {
    var n := |routes| - 1;
    if i == n {
      LongestIsLongest(routes[..n], path);
    } else {
      LastOfEqualPrefixes(routes[..n], path, i);
      if routes[n].pathPrefix <= path {
        DifferentPrefixes(routes[n].pathPrefix, routes[i].pathPrefix, path);
      }
    }
  }

  /** `r` matches and nothing that matches is longer. */
  ghost predicate IsLongest(routes: seq<Route>, path: string, r: Route) {
    && r in routes && Matches(r, path)
    && forall q :: q in routes && Matches(q, path) ==> |q.pathPrefix| <= |r.pathPrefix|
  }

  lemma {:induction false} LongestIsLongest(routes: seq<Route>, path: string)
    ensures Longest(routes, path).None? <==> forall r :: r in routes ==> !Matches(r, path)
    ensures Longest(routes, path).Some? ==> IsLongest(routes, path, Longest(routes, path).value)
  {
    if routes != [] {
      var rest, last := routes[..|routes| - 1], routes[|routes| - 1];
      LongestIsLongest(rest, path);
      assert forall q :: q in routes <==> q in rest || q == last;
    }
  }

  /** Prefixes of one path of one length are one prefix. */
  lemma EqualLengthPrefixes(a: string, b: string, path: string)
    requires a <= path && b <= path && |a| == |b|
    ensures a == b
  {
    assert a == path[..|a|] && b == path[..|b|];
  }

  lemma DifferentPrefixes(a: string, b: string, path: string)
    requires a <= path && b <= path && a != b
    ensures |a| != |b|
  {
    assert a == path[..|a|] && b == path[..|b|];
  }

  /** Routes that share a prefix are the same route. */
  predicate Unambiguous(routes: seq<Route>) {
    forall i, j :: 0 <= i < j < |routes| && routes[i].pathPrefix == routes[j].pathPrefix ==>
      routes[i] == routes[j]
  }

  lemma OrderDoesNotMatter(routes: seq<Route>, permuted: seq<Route>, path: string)
    requires multiset(permuted) == multiset(routes) && Unambiguous(routes)
    ensures Longest(permuted, path) == Longest(routes, path)
  {
    LongestIsLongest(routes, path);
    LongestIsLongest(permuted, path);
    assert forall r :: r in routes <==> r in multiset(routes);
    assert forall r :: r in permuted <==> r in multiset(permuted);
    var a, b := Longest(routes, path), Longest(permuted, path);
    if a.Some? && b.Some? {
      EqualLengthPrefixes(a.value.pathPrefix, b.value.pathPrefix, path);
      SameRoute(routes, a.value, b.value);
    }
  }

  lemma SameRoute(routes: seq<Route>, a: Route, b: Route)
    requires Unambiguous(routes) && a in routes && b in routes && a.pathPrefix == b.pathPrefix
    ensures a == b
  {
    var i :| 0 <= i < |routes| && routes[i] == a;
    var j :| 0 <= j < |routes| && routes[j] == b;
  }

  function MoveToEnd(routes: seq<Route>, i: nat): seq<Route>
    requires i < |routes|
  {
    routes[..i] + routes[i + 1..] + [routes[i]]
  }

  lemma MovedIsPermutation(routes: seq<Route>, i: nat)
    requires i < |routes|
    ensures multiset(MoveToEnd(routes, i)) == multiset(routes)
  {
    assert routes == routes[..i] + [routes[i]] + routes[i + 1..];
  }

  lemma LastWins(routes: seq<Route>, i: nat)
    requires i < |routes|
    ensures Longest(MoveToEnd(routes, i), routes[i].pathPrefix) == Some(routes[i])
  {
    var moved, path := MoveToEnd(routes, i), routes[i].pathPrefix;
    assert moved[..|moved| - 1] == routes[..i] + routes[i + 1..];
    LongestIsLongest(moved[..|moved| - 1], path);
  }

  /** File order is irrelevant, for every path and every permutation, exactly when
      no two different routes claim one prefix. Validation does not reject those. */
  lemma OrderIsIrrelevantIff(routes: seq<Route>)
    ensures (forall permuted, path :: multiset(permuted) == multiset(routes) ==>
               Longest(permuted, path) == Longest(routes, path))
            <==> Unambiguous(routes)
  {
    if Unambiguous(routes) {
      forall permuted, path | multiset(permuted) == multiset(routes)
        ensures Longest(permuted, path) == Longest(routes, path)
      {
        OrderDoesNotMatter(routes, permuted, path);
      }
    } else {
      var i, j :| 0 <= i < j < |routes| && routes[i].pathPrefix == routes[j].pathPrefix
                  && routes[i] != routes[j];
      MovedIsPermutation(routes, i);
      MovedIsPermutation(routes, j);
      LastWins(routes, i);
      LastWins(routes, j);
      var path := routes[i].pathPrefix;
      assert Longest(MoveToEnd(routes, i), path) != Longest(MoveToEnd(routes, j), path);
    }
  }

  /** Two configurations that differ in the order of unambiguous routes resolve every
      request to the same terms and label. */
  lemma ResolutionIgnoresOrder(config: Config, permuted: seq<Route>, path: string,
                               policy: Option<string>)
    requires multiset(permuted) == multiset(config.routes) && Unambiguous(config.routes)
    ensures Resolve(config.(routes := permuted), path, policy) == Resolve(config, path, policy)
  {
    OrderDoesNotMatter(config.routes, permuted, path);
  }

  /** A known policy name is authoritative: neither path nor routes can change what it
      resolves to. Every field comes from an override or from the defaults. */
  lemma NamedPolicyIsAuthoritative(config: Config, routes: seq<Route>, path: string, other: string,
                                   name: string)
    requires name in config.policies
    ensures Resolve(config, path, Some(name)) == Resolve(config.(routes := routes), other, Some(name))
    ensures Resolve(config, path, Some(name)).policyLabel == name
  {
  }

  /** The label tells which rule applied, and a route's label is the path's own
      longest claimed prefix. */
  lemma UnnamedRequestsFollowTheLongestPrefix(config: Config, path: string, policy: Option<string>)
    requires policy.Some? ==> policy.value !in config.policies
    ensures var terms := Resolve(config, path, policy);
            if exists r :: r in config.routes && Matches(r, path) then
              exists r :: IsLongest(config.routes, path, r)
                          && terms == Layer(r.overrides, config.defaults).(policyLabel := r.pathPrefix)
            else terms == config.defaults.(policyLabel := DEFAULT_POLICY_LABEL)
  {
    LongestIsLongest(config.routes, path);
    var best := Longest(config.routes, path);
    if best.Some? {
      assert IsLongest(config.routes, path, best.value);
    }
  }
}
