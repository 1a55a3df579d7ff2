/**
 The remote configuration store: routes and policies under ids it hands out once. Every call may
 fail, and a failed write may still have taken effect.
 */
module ApiStore {
  import opened Options

  /** An id as the store and the annotations write it; 0 stands for the empty string. */
  type Id = nat

  const ORIGINATOR := "ingress-controller"

  datatype Route = Route(ns: string, originator: string, name: string, body: string, policyIds: seq<Id>)

  datatype Policy = Policy(ns: string, originator: string, name: string, source: string)

  /** What the controller asks for; without a namespace the store decides. */
  datatype RouteSpec = RouteSpec(ns: Option<string>, name: string, body: string, policyIds: seq<Id>) {
    function In(home: string): Route {
      Route(if ns.Some? then ns.value else home, ORIGINATOR, name, body, policyIds)
    }
  }

  datatype PolicySpec = PolicySpec(ns: Option<string>, name: string, source: string) {
    function In(home: string): Policy {
      Policy(if ns.Some? then ns.value else home, ORIGINATOR, name, source)
    }
  }

  /** The stored route is the wanted one; the namespace counts only when the spec names it. */
  predicate RouteMatches(route: Route, spec: RouteSpec) {
    route == spec.In(route.ns)
  }

  predicate PolicyMatches(policy: Policy, spec: PolicySpec) {
    policy == spec.In(policy.ns)
  }

  datatype Got<T> = Found(id: Id, value: T) | NotFound | GetFailed

  datatype Made = Created(id: Id) | Clash | CreateFailed

  /** A policy deletion, with the routes stored at the time and the ids the caller then tracked. */
  datatype PolicyDelete = PolicyDelete(policy: Id, routes: map<Id, Route>, tracked: set<Id>)

  /** No tracked route still refers to the policy that goes. */
  ghost predicate SafeDelete(d: PolicyDelete) {
    forall id :: id in d.tracked && id in d.routes ==> d.policy !in d.routes[id].policyIds
  }

  ghost predicate AllSafe(ds: seq<PolicyDelete>) {
    ds == [] || (AllSafe(ds[..|ds| - 1]) && SafeDelete(ds[|ds| - 1]))
  }

  lemma {:induction false} EachIsSafe(ds: seq<PolicyDelete>, t: nat)
    requires AllSafe(ds) && t < |ds|
    ensures SafeDelete(ds[t])
  {
    if t < |ds| - 1 {
      EachIsSafe(ds[..|ds| - 1], t);
    }
  }

  lemma OneMoreIsSafe(ds: seq<PolicyDelete>, d: PolicyDelete)
    requires SafeDelete(d)
    ensures AllSafe(ds) ==> AllSafe(ds + [d])
  {
    assert (ds + [d])[..|ds|] == ds;
  }

  /** A route of this name is stored, other than `id`. */
  ghost predicate NameTaken(routes: map<Id, Route>, name: string, id: Id) {
    exists other :: other in routes && other != id && routes[other].name == name
  }

  ghost predicate NamesUnique(routes: map<Id, Route>) {
    forall a, b :: a in routes && b in routes && routes[a].name == routes[b].name ==> a == b
  }

  class Api {
    const home: string
    /** The store refuses a route name that is taken, and no other; else it may refuse any create. */
    const namesUnique: bool
    var routes: map<Id, Route>
    var policies: map<Id, Policy>
    var nextId: Id
    /** Create, update and delete calls issued so far. */
    ghost var writes: nat
    /** Calls that failed so far, for no reason in the store. */
    ghost var faults: nat
    /** Updates of a route refused for a name that is taken so far. */
    ghost var refusals: nat
    /** Creates of a route refused for a clash so far. */
    ghost var clashes: nat
    /** Creates of a policy refused for a clash so far. */
    ghost var policyClashes: nat
    /** Policy deletions issued so far. */
    ghost var policyDeletes: seq<PolicyDelete>

    ghost predicate Valid()
      reads this
    {
      && 0 < nextId
      && (forall id :: id in routes ==> 0 < id < nextId)
      && (forall id :: id in policies ==> 0 < id < nextId)
      && (namesUnique ==> NamesUnique(routes))
    }

    constructor (home: string, namesUnique: bool)
      ensures Valid() && routes == map[] && policies == map[] && policyDeletes == []
    {
      this.home, this.namesUnique, routes, policies, nextId := home, namesUnique, map[], map[], 1;
      writes, faults, refusals, clashes, policyClashes, policyDeletes := 0, 0, 0, 0, 0, [];
    }

    method GetRoute(id: Id) returns (r: Got<Route>)
      modifies this`faults
      ensures r.Found? ==> r.id == id && id in routes && r.value == routes[id]
      ensures r.NotFound? ==> id !in routes
      ensures faults == old(faults) + if r.GetFailed? then 1 else 0
    {
      var failed: bool := *;
      r := if failed then GetFailed else if id in routes then Found(id, routes[id]) else NotFound;
      faults := faults + if failed then 1 else 0;
    }

    /** Any route of ours with that name, as the first page entry may be. */
    method FindRouteByName(name: string) returns (r: Got<Route>)
      modifies this`faults
      ensures r.Found? ==> r.id in routes && r.value == routes[r.id]
      ensures r.Found? ==> r.value.name == name && r.value.originator == ORIGINATOR
      ensures r.NotFound? ==>
                forall id :: id in routes && routes[id].name == name ==> routes[id].originator != ORIGINATOR
      ensures faults == old(faults) + if r.GetFailed? then 1 else 0
    {
      var failed: bool := *;
      var hits := set id | id in routes && routes[id].name == name && routes[id].originator == ORIGINATOR;
      faults := faults + if failed then 1 else 0;
      if failed {
        r := GetFailed;
      } else if hits == {} {
        assert forall id :: id in routes && routes[id].name == name ==>
            (routes[id].originator == ORIGINATOR ==> id in hits);
        r := NotFound;
      } else {
        var id :| id in hits;
        r := Found(id, routes[id]);
      }
    }

    method CreateRoute(spec: RouteSpec) returns (r: Made)
      requires Valid()
      modifies this`routes, this`nextId, this`writes, this`faults, this`clashes
      ensures Valid() && old(nextId) <= nextId
      ensures routes == old(routes) || routes == old(routes)[old(nextId) := spec.In(home)]
      ensures r.Created? ==> r.id == old(nextId) && old(nextId) < nextId && r.id in routes
      ensures r.Clash? ==> routes == old(routes)
      ensures routes != old(routes) ==> old(nextId) < nextId
      ensures namesUnique && r.Clash? ==> old(NameTaken(routes, spec.name, 0))
      ensures namesUnique && r.Created? ==> !old(NameTaken(routes, spec.name, 0))
      ensures writes == old(writes) + 1
      ensures faults == old(faults) + if r.CreateFailed? then 1 else 0
      ensures clashes == old(clashes) + if r.Clash? then 1 else 0
    {
      var failed: bool, effect: bool, clash: bool := *, *, *;
      writes := writes + 1;
      var taken := set id | id in routes && routes[id].name == spec.name;
      assert NameTaken(routes, spec.name, 0) <==> taken != {} by {
        assert forall id :: id in routes && routes[id].name == spec.name ==> id in taken;
      }
      if if namesUnique then taken != {} && !failed else clash {
        clashes := clashes + 1;
        return Clash;
      }
      r := if failed then CreateFailed else Created(nextId);
      if (!failed || effect) && !(namesUnique && taken != {}) {
        routes := routes[nextId := spec.In(home)];
        nextId := nextId + 1;
      }
      faults := faults + if failed then 1 else 0;
    }

    /** A store with unique names refuses a name that another route has; else the call may fail. */
    method UpdateRoute(id: Id, spec: RouteSpec) returns (failed: bool)
      requires Valid() && id in routes
      modifies this`routes, this`writes, this`faults, this`refusals
      ensures Valid()
      ensures routes == old(routes) || routes == old(routes)[id := spec.In(old(routes)[id].ns)]
      ensures !failed ==> routes == old(routes)[id := spec.In(old(routes)[id].ns)]
      ensures writes == old(writes) + 1 && old(faults) <= faults && old(refusals) <= refusals
      ensures failed <==> faults > old(faults) || refusals > old(refusals)
      ensures refusals > old(refusals) ==> routes == old(routes) && namesUnique
      ensures faults == old(faults) ==>
                (refusals > old(refusals) <==> namesUnique && old(NameTaken(routes, spec.name, id)))
    {
      var fault: bool, effect: bool := *, *;
      var taken := set other | other in routes && other != id && routes[other].name == spec.name;
      assert NameTaken(routes, spec.name, id) <==> taken != {} by {
        assert forall other :: other in routes && other != id && routes[other].name == spec.name ==> other in taken;
      }
      var refused := namesUnique && taken != {};
      failed := fault || refused;
      writes := writes + 1;
      if !refused && (!fault || effect) {
        routes := routes[id := spec.In(routes[id].ns)];
      }
      faults := faults + if fault then 1 else 0;
      refusals := refusals + if refused && !fault then 1 else 0;
    }

    /** A missing route counts as deleted. */
    method DeleteRoute(id: Id) returns (failed: bool)
      requires Valid()
      modifies this`routes, this`writes, this`faults
      ensures Valid()
      ensures routes == old(routes) - {id} || (failed && routes == old(routes))
      ensures writes == old(writes) + 1
      ensures faults == old(faults) + if failed then 1 else 0
    {
      failed := *;
      var effect: bool := *;
      writes := writes + 1;
      if !failed || effect {
        routes := routes - {id};
      }
      faults := faults + if failed then 1 else 0;
    }

    method GetPolicy(id: Id) returns (r: Got<Policy>)
      modifies this`faults
      ensures r.Found? ==> r.id == id && id in policies && r.value == policies[id]
      ensures r.NotFound? ==> id !in policies
      ensures faults == old(faults) + if r.GetFailed? then 1 else 0
    {
      var failed: bool := *;
      r := if failed then GetFailed else if id in policies then Found(id, policies[id]) else NotFound;
      faults := faults + if failed then 1 else 0;
    }

    method FindPolicyByName(name: string) returns (r: Got<Policy>)
      modifies this`faults
      ensures r.Found? ==> r.id in policies && r.value == policies[r.id]
      ensures faults == old(faults) + if r.GetFailed? then 1 else 0
    {
      var failed: bool := *;
      var hits := set id | id in policies && policies[id].name == name && policies[id].originator == ORIGINATOR;
      faults := faults + if failed then 1 else 0;
      if failed {
        r := GetFailed;
      } else if hits == {} {
        r := NotFound;
      } else {
        var id :| id in hits;
        r := Found(id, policies[id]);
      }
    }

    method CreatePolicy(spec: PolicySpec) returns (r: Made)
      requires Valid()
      modifies this`policies, this`nextId, this`writes, this`faults, this`policyClashes
      ensures Valid() && old(nextId) <= nextId
      ensures policies == old(policies) || policies == old(policies)[old(nextId) := spec.In(home)]
      ensures r.Created? ==> r.id == old(nextId) < nextId && policies == old(policies)[old(nextId) := spec.In(home)]
      ensures writes == old(writes) + 1
      ensures faults == old(faults) + if r.CreateFailed? then 1 else 0
      ensures policyClashes == old(policyClashes) + if r.Clash? then 1 else 0
    {
      var failed: bool, effect: bool, clash: bool := *, *, *;
      writes := writes + 1;
      if clash {
        policyClashes := policyClashes + 1;
        return Clash;
      }
      r := if failed then CreateFailed else Created(nextId);
      if !failed || effect {
        policies := policies[nextId := spec.In(home)];
        nextId := nextId + 1;
      }
      faults := faults + if failed then 1 else 0;
    }

    method UpdatePolicy(id: Id, spec: PolicySpec) returns (failed: bool)
      requires Valid()
      modifies this`policies, this`writes, this`faults
      ensures Valid()
      ensures !failed ==> id in old(policies) && policies == old(policies)[id := spec.In(old(policies)[id].ns)]
      ensures writes == old(writes) + 1
      ensures faults == old(faults) + if failed then 1 else 0
    {
      failed := *;
      var effect: bool := *;
      failed := failed || id !in policies;
      writes := writes + 1;
      if (!failed || effect) && id in policies {
        policies := policies[id := spec.In(policies[id].ns)];
      }
      faults := faults + if failed then 1 else 0;
    }

    method DeletePolicy(id: Id, ghost tracked: set<Id>) returns (failed: bool)
      requires Valid()
      modifies this`policies, this`writes, this`faults, this`policyDeletes
      ensures Valid()
      ensures policies == old(policies) - {id} || (failed && policies == old(policies))
      ensures policyDeletes == old(policyDeletes) + [PolicyDelete(id, routes, tracked)]
      ensures writes == old(writes) + 1
      ensures faults == old(faults) + if failed then 1 else 0
    {
      failed := *;
      var effect: bool := *;
      writes := writes + 1;
      policyDeletes := policyDeletes + [PolicyDelete(id, routes, tracked)];
      if !failed || effect {
        policies := policies - {id};
      }
      faults := faults + if failed then 1 else 0;
    }

    /** Deletes the key pairs of this many secrets; what they were is not part of this store. */
    method DeleteKeyPairs(secrets: nat) returns (failed: bool)
      modifies this`faults
      ensures faults == old(faults) + if failed then 1 else 0
      ensures secrets == 0 ==> !failed
    {
      failed := *;
      failed := failed && secrets > 0;
      faults := faults + if failed then 1 else 0;
    }
  }
}
