/**
 Keeping the routes and the policy of one ingress in step with the store: the ids live in the
 ingress's annotations, and the persisted object is patched only when something changed.
 */
module IngressSync {
  import opened ApiStore
  import opened RouteSync
  import opened Options

  /** The metadata the controller keeps on an ingress; a policy id of 0 is no annotation. */
  datatype Ingress = Ingress(routeIds: RouteIds, policyId: Id, finalizer: bool)

  datatype RouteBody = RouteBody(name: string, body: string)

  datatype PolicyBody = PolicyBody(name: string, source: string)

  /** What the ingress translates to; each translation may fail. */
  datatype Plan = Plan(
    routes: Option<seq<RouteBody>>, annotationsOk: bool, policy: Option<Option<PolicyBody>>, keyPairsOk: bool)
  {
    predicate Sound() {
      routes.Some? && annotationsOk && policy.Some? && keyPairsOk
    }
  }

  /** The persisted object, behind calls that may fail with or without effect. */
  class Kube {
    var persisted: Ingress
    var present: bool
    ghost var patches: nat
    ghost var faults: nat

    constructor (ingress: Ingress)
      ensures persisted == ingress && present && patches == 0 && faults == 0
    {
      persisted, present, patches, faults := ingress, true, 0, 0;
    }

    method Get() returns (r: Got<Ingress>)
      modifies this`faults
      ensures r.Found? ==> present && r.value == persisted
      ensures r.NotFound? ==> !present
      ensures faults == old(faults) + if r.GetFailed? then 1 else 0
    {
      var failed: bool := *;
      r := if failed then GetFailed else if present then Found(0, persisted) else NotFound;
      faults := faults + if failed then 1 else 0;
    }

    method Patch(next: Ingress) returns (failed: bool)
      modifies this`persisted, this`patches, this`faults
      ensures persisted == next || (failed && persisted == old(persisted))
      ensures patches == old(patches) + 1
      ensures faults == old(faults) + if failed then 1 else 0
    {
      failed := *;
      var effect: bool := *;
      if !failed || effect {
        persisted := next;
      }
      patches := patches + 1;
      faults := faults + if failed then 1 else 0;
    }
  }

  function PolicyIds(policyId: Id): seq<Id> {
    if policyId == 0 then [] else [policyId]
  }

  function Specs(bodies: seq<RouteBody>, ns: Option<string>, policyIds: seq<Id>): (specs: seq<RouteSpec>)
    ensures |specs| == |bodies|
    ensures forall j :: 0 <= j < |bodies| ==> specs[j] == RouteSpec(ns, bodies[j].name, bodies[j].body, policyIds)
  {
    seq(|bodies|, j requires 0 <= j < |bodies| => RouteSpec(ns, bodies[j].name, bodies[j].body, policyIds))
  }

  /** The policy annotation is what the plan asks for. */
  ghost predicate PolicySynced(policies: map<Id, Policy>, policyId: Id, plan: Option<PolicyBody>, ns: Option<string>) {
    match plan
    case None => policyId == 0
    case Some(b) => policyId in policies && PolicyMatches(policies[policyId], PolicySpec(ns, b.name, b.source))
  }

  /** Annotations 0..n-1 and no others, naming n distinct live routes equal to the n wanted ones. */
  ghost predicate RoutesSynced(routes: Routes, ids: RouteIds, specs: seq<RouteSpec>) {
    && (forall k :: k in ids <==> Below(k, |specs|))
    && Mirrors(routes, ids, specs, |specs|)
    && Distinct(ids)
  }

  ghost predicate Synced(routes: Routes, policies: map<Id, Policy>, ing: Ingress, plan: Plan, ns: Option<string>)
    requires plan.Sound()
  {
    && ing.finalizer
    && PolicySynced(policies, ing.policyId, plan.policy.value, ns)
    && RoutesSynced(routes, ing.routeIds, Specs(plan.routes.value, ns, PolicyIds(ing.policyId)))
  }

  /** The store with its policies. */
  datatype World = World(view: View, policies: map<Id, Policy>, policyClashes: nat)

  ghost function WorldOf(api: Api): World
    reads api
  {
    World(ViewOf(api), api.policies, api.policyClashes)
  }

  ghost predicate Clashed(before: World, after: World) {
    after.view.clashes > before.view.clashes
  }

  ghost predicate Wrote(before: World, after: World) {
    after.view.writes > before.view.writes
  }

  predicate PolicyInPlace(policies: map<Id, Policy>, tracked: Id, ns: Option<string>) {
    tracked in policies && (ns.None? || ns.value == policies[tracked].ns)
  }

  /** No policy has to be created. */
  predicate NeedsNoPolicy(policies: map<Id, Policy>, policyId: Id, plan: Option<PolicyBody>, ns: Option<string>) {
    plan.None? || PolicyInPlace(policies, policyId, ns)
  }

  /** The tracked policy, if it can be updated in place; one in another namespace cannot go yet: routes refer to it. */
  method FindPolicy(api: Api, ns: Option<string>, tracked: Id) returns (failed: bool, existing: Option<Policy>)
    requires api.Valid()
    modifies api`faults
    ensures old(api.faults) <= api.faults && (failed <==> api.faults > old(api.faults))
    ensures !failed ==> (existing.Some? <==> PolicyInPlace(api.policies, tracked, ns))
    ensures existing.Some? ==> tracked in api.policies && existing.value == api.policies[tracked]
  {
    if tracked == 0 { return false, None; }
    var got := api.GetPolicy(tracked);
    failed, existing := got.GetFailed?, None;
    if got.Found? && (ns.None? || ns.value == got.value.ns) { existing := Some(got.value); }
  }

  /** Creates the policy, or looks for ours of that name when the store reports a clash. */
  method CreateOrAdoptPolicy(api: Api, spec: PolicySpec)
    returns (failed: bool, id: Id, adopted: Option<Policy>)
    requires api.Valid()
    modifies api`policies, api`nextId, api`writes, api`faults, api`policyClashes
    ensures api.Valid() && old(api.nextId) <= api.nextId && old(api.policyClashes) <= api.policyClashes
    ensures api.writes > old(api.writes) && old(api.faults) <= api.faults
    ensures !failed ==> 0 < id < api.nextId && id in api.policies
    ensures !failed ==>
              if adopted.Some? then api.policies[id] == adopted.value else PolicyMatches(api.policies[id], spec)
    ensures failed && api.faults == old(api.faults) ==> api.policyClashes > old(api.policyClashes)
  {
    failed, id, adopted := true, 0, None;
    var made := api.CreatePolicy(spec);
    if made.Created? { return false, made.id, None; }
    if made.CreateFailed? { return; }
    var found := api.FindPolicyByName(spec.name);
    if found.Found? { failed, id, adopted := false, found.id, Some(found.value); }
  }

  method UpsertPolicy(api: Api, spec: PolicySpec, tracked: Id) returns (failed: bool, changed: bool, id: Id)
    requires api.Valid() && tracked < api.nextId
    modifies api`policies, api`nextId, api`writes, api`faults, api`policyClashes
    ensures api.Valid() && Later(old(ViewOf(api)), ViewOf(api)) && old(api.policyClashes) <= api.policyClashes
    ensures !failed ==> 0 < id < api.nextId && id in api.policies && PolicyMatches(api.policies[id], spec)
    ensures !failed ==> (changed <==> api.writes > old(api.writes)) && (!changed ==> id == tracked)
    ensures api.writes == old(api.writes) ==> api.policies == old(api.policies)
    ensures tracked in old(api.policies) && PolicyMatches(old(api.policies)[tracked], spec) ==>
              api.writes == old(api.writes) && api.policyClashes == old(api.policyClashes) && !changed
    ensures failed && api.faults == old(api.faults) ==> api.policyClashes > old(api.policyClashes)
    ensures PolicyInPlace(old(api.policies), tracked, spec.ns) ==> api.policyClashes == old(api.policyClashes)
  {
    changed, id := false, tracked;
    var existing;
    failed, existing := FindPolicy(api, spec.ns, tracked);
    if failed { return; }
    if existing.None? {
      failed, id, existing := CreateOrAdoptPolicy(api, spec);
      changed := !failed;
      if failed || existing.None? { return; }
    }
    if PolicyMatches(existing.value, spec) { return; }
    failed := api.UpdatePolicy(id, spec);
    if !failed { changed := true; }
  }

  /** What a successful sync of the policy makes of the store. */
  ghost predicate PolicyOutcome(
    before: World, after: World, plan: Option<PolicyBody>, ns: Option<string>, policyId: Id, updated: Id, changed: bool)
  {
    && after.view.routes == before.view.routes && after.view.clashes == before.view.clashes
    && PolicySynced(after.policies, updated, plan, ns) && (updated == 0 <==> plan.None?)
    && (changed <==> Wrote(before, after)) && (changed ==> plan.Some?)
    && (!changed ==> after.policies == before.policies && (plan.Some? ==> updated == policyId))
  }

  method SyncIngressPolicy(api: Api, plan: Option<Option<PolicyBody>>, ns: Option<string>, policyId: Id)
    returns (failed: bool, changed: bool, updated: Id)
    requires api.Valid() && policyId < api.nextId
    modifies api`policies, api`nextId, api`writes, api`faults, api`policyClashes
    ensures api.Valid() && Later(old(ViewOf(api)), ViewOf(api)) && updated < api.nextId
    ensures old(api.policyClashes) <= api.policyClashes
    ensures !failed ==> plan.Some?
    ensures !failed ==> PolicyOutcome(old(WorldOf(api)), WorldOf(api), plan.value, ns, policyId, updated, changed)
    ensures plan.Some? && PolicySynced(old(api.policies), policyId, plan.value, ns) ==>
              && api.writes == old(api.writes) && api.policies == old(api.policies)
              && api.policyClashes == old(api.policyClashes) && !changed
    ensures failed && plan.Some? && api.faults == old(api.faults) ==> api.policyClashes > old(api.policyClashes)
    ensures plan.Some? && NeedsNoPolicy(old(api.policies), policyId, plan.value, ns) ==>
              api.policyClashes == old(api.policyClashes)
  {
    failed, changed, updated := true, false, 0;
    if plan.None? { return; }
    if plan.value.None? { return false, false, 0; }
    var spec := PolicySpec(ns, plan.value.value.name, plan.value.value.source);
    failed, changed, updated := UpsertPolicy(api, spec, policyId);
    if failed { changed, updated := false, 0; }
  }

  // ----- routes: set the first n annotations, then drop the rest -----

  /** Whatever annotations name, before or after, carries exactly these policies if it is live. */
  ghost predicate AllTagged(routes: Routes, ids: RouteIds, policyIds: seq<Id>) {
    forall k :: k in ids ==> Tagged(routes, ids[k], policyIds)
  }

  /** A route the old annotations named is named by the new ones, or it is gone. */
  ghost predicate Swept(routes: Routes, before: RouteIds, after: RouteIds) {
    forall id :: id in before.Values && id in routes ==> id in after.Values
  }

  /** The annotations beyond the first `n`. */
  ghost predicate Surplus(ids: RouteIds, n: nat, surplus: set<RouteKey>) {
    forall k :: k in surplus <==> k in ids && !Below(k, n)
  }

  lemma DropKeepsTagged(
    mid: Routes, after: Routes, ids: RouteIds, given: RouteIds, n: nat, surplus: set<RouteKey>, policyIds: seq<Id>)
    requires SetBelow(ids, given, n) && Surplus(ids, n, surplus)
    requires TaggedBelow(mid, ids, n, policyIds) && TaggedBelow(mid, given, n, policyIds)
    requires OnlyDeletes(mid, after, given, surplus) && AllGone(after, given, surplus)
    ensures AllTagged(after, ids, policyIds) && AllTagged(after, given - surplus, policyIds)
  {
  }

  lemma DropLeavesSynced(
    mid: Routes, after: Routes, ids: RouteIds, given: RouteIds, specs: seq<RouteSpec>, surplus: set<RouteKey>)
    requires SetBelow(ids, given, |specs|) && Surplus(ids, |specs|, surplus)
    requires Distinct(given) && Mirrors(mid, given, specs, |specs|) && (forall i :: i in mid ==> 0 < i)
    requires OnlyDeletes(mid, after, given, surplus)
    ensures RoutesSynced(after, given - surplus, specs)
  {
  }

  lemma DropSweeps(
    mid: Routes, after: Routes, ids: RouteIds, given: RouteIds, n: nat, surplus: set<RouteKey>)
    requires SetBelow(ids, given, n) && Surplus(ids, n, surplus)
    requires KeptOrGone(mid, ids, given, n)
    requires OnlyDeletes(mid, after, given, surplus) && AllGone(after, given, surplus)
    ensures Swept(after, ids, given - surplus)
  {
    forall id | id in ids.Values && id in after ensures id in (given - surplus).Values {
      var k :| k in ids && ids[k] == id;
      assert Below(k, n) && IdAt(ids, Index(k.i)) == IdAt(given, Index(k.i));
      assert k in given - surplus && (given - surplus)[k] == id;
    }
  }

  lemma SubsetDistinct(ids: RouteIds, done: set<RouteKey>, limit: Id)
    requires Known(ids, limit)
    ensures Known(ids - done, limit) && (Distinct(ids) ==> Distinct(ids - done))
  {
  }

  ghost predicate AllBelow(ids: RouteIds, n: nat) {
    forall k :: k in ids ==> Below(k, n)
  }

  /** Without a change the annotations name routes as wanted, and are others than before exactly after a clash. */
  ghost predicate Unchanged(job: Job, start: View, now: View, out: RouteIds) {
    && AllBelow(job.ids, |job.specs|) && AllUnwritten(start.routes, job.ids, job.specs, |job.specs|)
    && Mirrors(now.routes, out, job.specs, |job.specs|)
    && (out != job.ids <==> now.clashes > start.clashes)
    && (out == job.ids <==> Mirrors(start.routes, job.ids, job.specs, |job.specs|))
    && (Mirrors(now.routes, job.ids, job.specs, |job.specs|) ==>
          Mirrors(start.routes, job.ids, job.specs, |job.specs|))
  }

  lemma AllMoved(ids: RouteIds, out: RouteIds, n: nat)
    requires AllBelow(ids, n) && SetBelow(ids, out, n)
    ensures Moved(ids, out, n) ==> out != ids
  {
  }

  /** What is as wanted at the end was so at the start: routes were only lost. */
  lemma MirroredBefore(before: Routes, after: Routes, ns: Option<string>, ids: RouteIds, specs: seq<RouteSpec>)
    requires RouteSync.Trimmed(before, after, ns)
    ensures Mirrors(after, ids, specs, |specs|) ==> Mirrors(before, ids, specs, |specs|)
  {
  }

  lemma TurnsAreUnchanged(t: Turns, job: Job)
    requires job.Sound() && t.Succeed(job) && t.Count() == |job.specs| && !t.Changed()
    requires AllBelow(job.ids, |job.specs|)
    ensures Unchanged(job, t.First(), t.view, t.Ids(job.ids))
  {
    assert SetBelow(job.ids, t.Ids(job.ids), t.Count()) by { TurnsStayTidy(t, job); }
    AllMoved(job.ids, t.Ids(job.ids), t.Count());
    TurnsAreLater(t, job);
    TurnsStayUntouched(t, job);
    MirroredBefore(t.First().routes, t.view.routes, job.ns, job.ids, job.specs);
    TurnsMove(t, job);
    TurnsStayIdle(t, job);
  }

  /** The annotations beyond the first `n` named routes that are gone now. */
  ghost predicate SurplusGone(routes: Routes, ids: RouteIds, n: nat) {
    forall k :: k in ids && !Below(k, n) ==> ids[k] !in routes
  }

  /** The annotations of the first `n` indexes are set, and no others. */
  ghost predicate Numbered(ids: RouteIds, n: nat) {
    forall k :: k in ids <==> Below(k, n)
  }

  /** In a store with unique names and from distinct ids, routes end in sync exactly if they were untangled. */
  ghost predicate SyncedIfUntangled(job: Job, start: View, after: View, out: RouteIds) {
    start.unique && Distinct(job.ids) ==>
      && (RoutesSynced(after.routes, out, job.specs) <==> job.Clear(start, job.ids, 0))
      && (AllBelow(job.ids, |job.specs|) ==> (Distinct(out) <==> job.Clear(start, job.ids, 0)))
  }

  /** What a successful sync of the routes and the deletion of the surplus make of the store. */
  ghost predicate Applied(job: Job, start: View, after: View, out: RouteIds, changed: bool) {
    && AllTagged(after.routes, job.ids, job.policyIds) && AllTagged(after.routes, out, job.policyIds)
    && Swept(after.routes, job.ids, out) && SurplusGone(after.routes, job.ids, |job.specs|)
    && Numbered(out, |job.specs|)
    && (Orderly(start.routes, job.ids, job.names, job.ns, after.clashes > start.clashes) ==>
          RoutesSynced(after.routes, out, job.specs))
    && SyncedIfUntangled(job, start, after, out)
    && (start.unique && AllUnwritten(start.routes, job.ids, job.specs, |job.specs|) ==>
          Mirrors(start.routes, out, job.specs, |job.specs|))
    && (after.clashes == start.clashes ==> (changed <==> after.writes > start.writes))
    && (!changed ==> Unchanged(job, start, after, out))
  }

  /** What a successful deletion of the surplus makes of the store. */
  ghost predicate Dropped(mid: View, after: View, given: RouteIds, surplus: set<RouteKey>) {
    && Later(mid, after) && after.clashes == mid.clashes && Positive(mid.routes)
    && OnlyDeletes(mid.routes, after.routes, given, surplus) && AllGone(after.routes, given, surplus)
    && (surplus != {} <==> after.writes > mid.writes) && (surplus == {} ==> after.routes == mid.routes)
  }

  lemma DroppedTidy(job: Job, mid: View, after: View, given: RouteIds, surplus: set<RouteKey>)
    requires Tidy(job, mid, given, |job.specs|) && Surplus(job.ids, |job.specs|, surplus)
    requires Dropped(mid, after, given, surplus)
    ensures AllTagged(after.routes, job.ids, job.policyIds) && AllTagged(after.routes, given - surplus, job.policyIds)
    ensures Swept(after.routes, job.ids, given - surplus) && SurplusGone(after.routes, job.ids, |job.specs|)
    ensures Numbered(given - surplus, |job.specs|)
  {
    DropKeepsTagged(mid.routes, after.routes, job.ids, given, |job.specs|, surplus, job.policyIds);
    DropSweeps(mid.routes, after.routes, job.ids, given, |job.specs|, surplus);
  }

  lemma DroppedSynced(job: Job, start: View, mid: View, after: View, given: RouteIds, surplus: set<RouteKey>)
    requires InOrder(job, start, mid, given, |job.specs|) && SetBelow(job.ids, given, |job.specs|)
    requires Surplus(job.ids, |job.specs|, surplus) && Dropped(mid, after, given, surplus) && Later(start, mid)
    ensures Orderly(start.routes, job.ids, job.names, job.ns, after.clashes > start.clashes) ==>
              RoutesSynced(after.routes, given - surplus, job.specs)
  {
    if Orderly(start.routes, job.ids, job.names, job.ns, after.clashes > start.clashes) {
      DropLeavesSynced(mid.routes, after.routes, job.ids, given, job.specs, surplus);
    }
  }

  /** A route that an index shares is shared still, or it went with the surplus. */
  lemma SharedIsNotSynced(job: Job, mid: View, after: View, given: RouteIds, surplus: set<RouteKey>)
    requires SetBelow(job.ids, given, |job.specs|) && Surplus(job.ids, |job.specs|, surplus)
    requires Dropped(mid, after, given, surplus) && Shared(mid.routes, given, job.ns, |job.specs|)
    ensures !RoutesSynced(after.routes, given - surplus, job.specs)
    ensures AllBelow(job.ids, |job.specs|) ==> !Distinct(given - surplus)
  {
    var out := given - surplus;
    var a: nat, k :| a < |job.specs| && SharesWith(mid.routes, given, job.ns, a, k);
    assert Index(a) in out && out[Index(a)] == given[k] != 0;
    if k in out {
      assert out[k] == out[Index(a)];
    } else {
      assert out[Index(a)] !in after.routes;
    }
  }

  lemma DroppedIfUntangled(job: Job, start: View, mid: View, after: View, given: RouteIds, surplus: set<RouteKey>)
    requires job.Sound() && InOrder(job, start, mid, given, |job.specs|) && SetBelow(job.ids, given, |job.specs|)
    requires Surplus(job.ids, |job.specs|, surplus) && Dropped(mid, after, given, surplus)
    requires start.unique ==> NamesUnique(mid.routes)
    ensures SyncedIfUntangled(job, start, after, given - surplus)
  {
    if start.unique && Distinct(job.ids) {
      if job.Clear(start, job.ids, 0) {
        DropLeavesSynced(mid.routes, after.routes, job.ids, given, job.specs, surplus);
      } else {
        if Good(mid.routes, given, job.specs, |job.specs|) {
          GoodIsUntangled(job, mid, given);
        }
        SharedIsNotSynced(job, mid, after, given, surplus);
      }
    }
  }

  /** What was as wanted under its name at the start is what the annotations name. */
  lemma TurnsFind(t: Turns, job: Job, surplus: set<RouteKey>)
    requires job.Sound() && t.Succeed(job) && t.Count() == |job.specs| && Surplus(job.ids, |job.specs|, surplus)
    requires t.First().unique && AllUnwritten(t.First().routes, job.ids, job.specs, |job.specs|)
    ensures Mirrors(t.First().routes, t.Ids(job.ids) - surplus, job.specs, |job.specs|)
  {
    TurnsLeaveUnwritten(t, job);
    TurnsStayUntouched(t, job);
  }

  lemma DroppedRoutes(t: Turns, job: Job, after: View, surplus: set<RouteKey>)
    requires job.Sound() && t.Succeed(job) && t.Count() == |job.specs| && Surplus(job.ids, |job.specs|, surplus)
    requires Dropped(t.view, after, t.Ids(job.ids), surplus) && (t.First().unique ==> NamesUnique(t.view.routes))
    ensures Orderly(t.First().routes, job.ids, job.names, job.ns, after.clashes > t.First().clashes) ==>
              RoutesSynced(after.routes, t.Ids(job.ids) - surplus, job.specs)
    ensures SyncedIfUntangled(job, t.First(), after, t.Ids(job.ids) - surplus)
  {
    TurnsAreLater(t, job);
    TurnsStayTidy(t, job);
    TurnsKeepOrder(t, job);
    DroppedSynced(job, t.First(), t.view, after, t.Ids(job.ids), surplus);
    DroppedIfUntangled(job, t.First(), t.view, after, t.Ids(job.ids), surplus);
  }

  lemma DroppedReport(t: Turns, job: Job, after: View, surplus: set<RouteKey>)
    requires job.Sound() && t.Succeed(job) && t.Count() == |job.specs| && Surplus(job.ids, |job.specs|, surplus)
    requires Dropped(t.view, after, t.Ids(job.ids), surplus)
    ensures after.clashes == t.First().clashes ==> (t.Changed() || surplus != {} <==> after.writes > t.First().writes)
    ensures !t.Changed() && surplus == {} ==> Unchanged(job, t.First(), after, t.Ids(job.ids) - surplus)
  {
    TurnsAreLater(t, job);
    if after.clashes == t.First().clashes { TurnsCountWrites(t, job); }
    if !t.Changed() && surplus == {} {
      assert t.Ids(job.ids) - surplus == t.Ids(job.ids);
      TurnsAreUnchanged(t, job);
    }
  }

  lemma DroppedIsApplied(t: Turns, job: Job, after: View, surplus: set<RouteKey>)
    requires job.Sound() && t.Succeed(job) && t.Count() == |job.specs| && Surplus(job.ids, |job.specs|, surplus)
    requires Dropped(t.view, after, t.Ids(job.ids), surplus) && (t.First().unique ==> NamesUnique(t.view.routes))
    ensures Applied(job, t.First(), after, t.Ids(job.ids) - surplus, t.Changed() || surplus != {})
  {
    var start := t.First();
    TurnsStayTidy(t, job);
    DroppedTidy(job, t.view, after, t.Ids(job.ids), surplus);
    DroppedRoutes(t, job, after, surplus);
    DroppedReport(t, job, after, surplus);
    if start.unique && AllUnwritten(start.routes, job.ids, job.specs, |job.specs|) { TurnsFind(t, job, surplus); }
  }

  /** What the start decides, in a store with unique names and unless a call fails. */
  ghost predicate Foretold(job: Job, start: View, now: View, out: RouteIds, changed: bool, failed: bool) {
    start.unique && now.faults == start.faults ==>
      && (AllUnwritten(start.routes, job.ids, job.specs, |job.specs|) ==>
            !failed && (AllBelow(job.ids, |job.specs|) ==> !changed))
      && (Tame(job, start) ==> (failed <==> AnyBlocked(start.routes, job.ids, job.names, job.ns)))
      && (Stuck(start.routes, job.ids, job.names, job.ns) ==>
            failed && !changed && out == job.ids && now.routes == start.routes)
      && (failed ==> Derails(job, start.routes))
  }

  /** All that is known of routes being applied, whether it fails or not. */
  ghost predicate Attempted(job: Job, start: View, now: View, out: RouteIds, changed: bool, failed: bool) {
    && Later(start, now) && Known(out, now.nextId) && Explained(start, now, failed)
    && (Orderly(start.routes, job.ids, job.names, job.ns, now.clashes > start.clashes) ==> Distinct(out))
    && Foretold(job, start, now, out, changed, failed)
    && (RoutesSynced(start.routes, job.ids, job.specs) ==>
          now.writes == start.writes && now.routes == start.routes && !changed)
  }

  /** The loop failed. */
  lemma LoopFails(t: Turns, job: Job, start: View, now: View, out: RouteIds, changed: bool)
    requires job.Sound() && Took(t, job, start, now, out, changed, true)
    ensures Attempted(job, start, now, out, changed, true)
  {
    LoopIsLater(t, job, start, now, out, changed, true);
    LoopIsIdle(t, job, start, now, out, changed, true);
    LoopIsDecided(t, job, start, now, out, changed, true);
    if Orderly(start.routes, job.ids, job.names, job.ns, now.clashes > start.clashes) {
      LoopKeepsDistinct(t, job, start, now, out, changed, true);
    }
  }

  /** The loop succeeded, and the surplus was dropped as far as calls did not fail. */
  lemma LoopSucceeds(
    t: Turns, job: Job, now: View, given: RouteIds, out: RouteIds, soFar: bool, changed: bool, failed: bool)
    requires job.Sound() && Took(t, job, t.First(), t.view, given, soFar, false) && Later(t.view, now)
    requires Known(out, now.nextId) && (Distinct(given) ==> Distinct(out))
    requires now.clashes == t.view.clashes && now.refusals == t.view.refusals
    requires (failed <==> now.faults > t.view.faults) && (AllBelow(job.ids, |job.specs|) ==> now == t.view)
    requires changed <==> soFar || (!failed && !AllBelow(job.ids, |job.specs|))
    ensures Attempted(job, t.First(), now, out, changed, failed)
  {
    LoopIsLater(t, job, t.First(), t.view, given, soFar, false);
    LoopIsIdle(t, job, t.First(), t.view, given, soFar, false);
    LoopIsDecided(t, job, t.First(), t.view, given, soFar, false);
    if Orderly(t.First().routes, job.ids, job.names, job.ns, now.clashes > t.First().clashes) {
      LoopKeepsDistinct(t, job, t.First(), t.view, given, soFar, false);
    }
  }

  /** Deletes the routes of the annotations beyond the wanted ones. */
  method DropSurplus(
    api: Api, given: RouteIds, surplus: set<RouteKey>, changed: bool, ghost turns: Turns, ghost job: Job)
    returns (failed: bool, anyChange: bool, out: RouteIds)
    requires api.Valid() && job.Sound()
    requires Took(turns, job, turns.First(), ViewOf(api), given, changed, false)
    requires Surplus(job.ids, |job.specs|, surplus)
    modifies api`routes, api`writes, api`faults
    ensures api.Valid() && Attempted(job, turns.First(), ViewOf(api), out, anyChange, failed)
    ensures !failed ==> Applied(job, turns.First(), ViewOf(api), out, anyChange)
  {
    assert surplus <= given.Keys && Known(given, api.nextId) by { TurnsStayTidy(turns, job); }
    var anyDeletes;
    failed, anyDeletes, out := DeleteRoutes(api, given, surplus);
    ghost var done :| done <= surplus && out == given - done;
    SubsetDistinct(given, done, api.nextId);
    anyChange := changed || (!failed && anyDeletes);
    assert surplus == {} <==> AllBelow(job.ids, |job.specs|);
    LoopSucceeds(turns, job, ViewOf(api), given, out, changed, anyChange, failed);
    if !failed { DroppedIsApplied(turns, job, ViewOf(api), surplus); }
  }

  method ApplyRoutes(api: Api, specs: seq<RouteSpec>, ids: RouteIds, ghost job: Job)
    returns (failed: bool, changed: bool, out: RouteIds)
    requires api.Valid() && Known(ids, api.nextId) && job.Sound() && job.specs == specs && job.ids == ids
    modifies api`routes, api`nextId, api`writes, api`faults, api`refusals, api`clashes
    ensures api.Valid() && Attempted(job, old(ViewOf(api)), ViewOf(api), out, changed, failed)
    ensures !failed ==> Applied(job, old(ViewOf(api)), ViewOf(api), out, changed)
  {
    var surplus := set k | k in ids && !Below(k, |specs|);
    ghost var turns;
    failed, changed, out, turns := SyncRoutes(api, specs, ids, job);
    if failed {
      LoopFails(turns, job, old(ViewOf(api)), ViewOf(api), out, changed);
      return;
    }
    failed, changed, out := DropSurplus(api, out, surplus, changed, turns, job);
  }

  // ----- one ingress -----

  function BodyNames(bodies: seq<RouteBody>): (names: seq<string>)
    ensures |names| == |bodies| && forall j :: 0 <= j < |bodies| ==> names[j] == bodies[j].name
  {
    seq(|bodies|, j requires 0 <= j < |bodies| => bodies[j].name)
  }

  ghost function JobOf(bodies: seq<RouteBody>, ns: Option<string>, policyId: Id, ids: RouteIds): (job: Job)
    ensures job.Sound()
  {
    Job(Specs(bodies, ns, PolicyIds(policyId)), ids, PolicyIds(policyId), ns, BodyNames(bodies))
  }

  /** What success makes of the routes, and of the policy `existing` that `updated` replaced. */
  ghost predicate RoutesOutcome(
    before: World, after: World, job: Job, existing: Id, updated: Id, out: RouteIds, changed: bool, cleared: bool)
  {
    && after.policyClashes == before.policyClashes && Swept(after.view.routes, job.ids, out)
    && SurplusGone(after.view.routes, job.ids, |job.specs|) && Numbered(out, |job.specs|)
    && (Orderly(before.view.routes, job.ids, job.names, job.ns, Clashed(before, after)) ==>
          RoutesSynced(after.view.routes, out, job.specs))
    && SyncedIfUntangled(job, before.view, after.view, out)
    && (before.view.unique && AllUnwritten(before.view.routes, job.ids, job.specs, |job.specs|) ==>
          Mirrors(before.view.routes, out, job.specs, |job.specs|))
    && (cleared <==> existing != 0 && updated == 0)
    && (updated in before.policies ==> updated in after.policies && after.policies[updated] == before.policies[updated])
    && (!Clashed(before, after) ==> (changed || (existing != 0 && existing != updated) <==> Wrote(before, after)))
    && (!changed ==> Unchanged(job, before.view, after.view, out))
  }

  /** All that is known of routes and policy being applied, whether it fails or not. */
  ghost predicate AttemptedBoth(
    job: Job, before: World, after: World, existing: Id, updated: Id, out: RouteIds, changed: bool, failed: bool)
  {
    && Later(before.view, after.view) && Known(out, after.view.nextId) && after.policyClashes == before.policyClashes
    && (Orderly(before.view.routes, job.ids, job.names, job.ns, Clashed(before, after)) ==> Distinct(out))
    && Foretold(job, before.view, after.view, out, changed, failed)
    && (failed && after.view.faults == before.view.faults ==>
          && after.policies == before.policies
          && (Clashed(before, after) || after.view.refusals > before.view.refusals))
    && (RoutesSynced(before.view.routes, job.ids, job.specs) && (existing == 0 || existing == updated) ==>
          && !Wrote(before, after) && after.view.routes == before.view.routes && after.policies == before.policies
          && !changed)
  }

  lemma AttemptStands(
    job: Job, before: World, mid: World, after: World, existing: Id, updated: Id, out: RouteIds, changed: bool,
    failed: bool)
    requires Attempted(job, before.view, mid.view, out, changed, false) && mid.policies == before.policies
    requires before.policyClashes == mid.policyClashes == after.policyClashes
    requires after.view == mid.view.(writes := after.view.writes, faults := after.view.faults)
    requires Later(mid.view, after.view) && (failed ==> after.view.faults > mid.view.faults)
    requires Wrote(mid, after) <==> existing != 0 && existing != updated
    requires !Wrote(mid, after) ==> after.policies == mid.policies
    ensures AttemptedBoth(job, before, after, existing, updated, out, changed, failed)
  {
  }

  /** Syncs the routes so that they refer to the policy `updated`, and then drops the policy before it. */
  method ApplyRoutesAndPolicy(
    api: Api, specs: seq<RouteSpec>, existing: Id, updated: Id, ids: RouteIds, ghost job: Job)
    returns (failed: bool, changed: bool, out: RouteIds, cleared: bool)
    requires api.Valid() && Known(ids, api.nextId) && job.Sound() && job.specs == specs && job.ids == ids
    requires job.policyIds == PolicyIds(updated)
    modifies api
    ensures api.Valid() && AttemptedBoth(job, old(WorldOf(api)), WorldOf(api), existing, updated, out, changed, failed)
    ensures AllSafe(old(api.policyDeletes)) ==> AllSafe(api.policyDeletes)
    ensures !failed ==> RoutesOutcome(old(WorldOf(api)), WorldOf(api), job, existing, updated, out, changed, cleared)
    ensures failed ==> !cleared
  {
    cleared := false;
    ghost var before := WorldOf(api);
    failed, changed, out := ApplyRoutes(api, specs, ids, job);
    if failed { return; }
    ghost var mid := WorldOf(api);
    failed, cleared := DropPolicyBefore(api, existing, updated, out, job, before, changed);
    AttemptStands(job, before, mid, WorldOf(api), existing, updated, out, changed, failed);
  }

  lemma ValuesTagged(routes: Routes, ids: RouteIds, out: RouteIds, policyIds: seq<Id>)
    requires AllTagged(routes, ids, policyIds) && AllTagged(routes, out, policyIds)
    ensures forall id :: id in ids.Values + out.Values ==> Tagged(routes, id, policyIds)
  {
  }

  /** Drops the policy that `updated` replaced, once no route of the annotations refers to it. */
  method DropPolicyBefore(
    api: Api, existing: Id, updated: Id, ghost out: RouteIds, ghost job: Job, ghost before: World, ghost changed: bool)
    returns (failed: bool, cleared: bool)
    requires api.Valid() && job.policyIds == PolicyIds(updated) && Later(before.view, ViewOf(api))
    requires api.policies == before.policies && api.policyClashes == before.policyClashes
    requires Applied(job, before.view, ViewOf(api), out, changed)
    modifies api`policies, api`writes, api`faults, api`policyDeletes
    ensures api.Valid() && old(api.faults) <= api.faults && old(api.writes) <= api.writes
    ensures AllSafe(old(api.policyDeletes)) ==> AllSafe(api.policyDeletes)
    ensures !failed ==> RoutesOutcome(before, WorldOf(api), job, existing, updated, out, changed, cleared)
    ensures cleared <==> !failed && existing != 0 && updated == 0
    ensures failed ==> api.faults > old(api.faults)
    ensures api.writes > old(api.writes) <==> existing != 0 && existing != updated
    ensures api.writes == old(api.writes) ==> api.policies == old(api.policies)
  {
    ghost var mid := WorldOf(api);
    ValuesTagged(api.routes, job.ids, out, PolicyIds(updated));
    var annotated := if updated != 0 then updated else existing;
    failed, cleared := DropOldPolicy(api, existing, annotated, updated, job.ids.Values + out.Values);
    if !failed { PolicyDropped(before, mid, WorldOf(api), job, existing, updated, out, changed, cleared); }
  }

  lemma PolicyDropped(
    before: World, mid: World, after: World, job: Job, existing: Id, updated: Id, out: RouteIds, changed: bool,
    cleared: bool)
    requires Applied(job, before.view, mid.view, out, changed) && Later(before.view, mid.view)
    requires mid.policies == before.policies && mid.policyClashes == before.policyClashes == after.policyClashes
    requires after.view.routes == mid.view.routes && after.view.clashes == mid.view.clashes
    requires after.view.writes >= mid.view.writes
    requires Wrote(mid, after) <==> existing != 0 && existing != updated
    requires updated in mid.policies ==>
               updated in after.policies && after.policies[updated] == mid.policies[updated]
    requires cleared <==> existing != 0 && updated == 0
    ensures RoutesOutcome(before, after, job, existing, updated, out, changed, cleared)
  {
  }

  /** Nothing has to be written for the ingress: its policy is as wanted, and so is a route for every wanted one. */
  ghost predicate NothingToWrite(
    routes: Routes, policies: map<Id, Policy>, ing: Ingress, plan: Plan, ns: Option<string>)
    requires plan.Sound()
  {
    var specs := JobOf(plan.routes.value, ns, ing.policyId, ing.routeIds).specs;
    && ing.finalizer && PolicySynced(policies, ing.policyId, plan.policy.value, ns)
    && AllBelow(ing.routeIds, |specs|) && AllUnwritten(routes, ing.routeIds, specs, |specs|)
  }

  /** The annotations name the wanted routes. */
  ghost predicate NamesRoutes(routes: Routes, ing: Ingress, plan: Plan, ns: Option<string>)
    requires plan.Sound()
  {
    var specs := JobOf(plan.routes.value, ns, ing.policyId, ing.routeIds).specs;
    Mirrors(routes, ing.routeIds, specs, |specs|)
  }

  /** No index would adopt the route of another annotation. */
  ghost predicate Clear(routes: Routes, ing: Ingress, plan: Plan, ns: Option<string>)
    requires plan.routes.Some?
  {
    Untangled(routes, ing.routeIds, BodyNames(plan.routes.value), ns, 0)
  }

  /** Annotated ids were distinct, and there was no clash or no index would adopt the route of another. */
  ghost predicate WellAnnotated(routes: Routes, ing: Ingress, plan: Plan, ns: Option<string>, clashed: bool) {
    Distinct(ing.routeIds) && (clashed && plan.routes.Some? ==> Clear(routes, ing, plan, ns))
  }

  /** The annotations of the wanted routes are set, and no others; what the others named is gone. */
  ghost predicate Numbers(routes: Routes, ing: Ingress, out: Ingress, plan: Plan)
    requires plan.routes.Some?
  {
    && Swept(routes, ing.routeIds, out.routeIds) && SurplusGone(routes, ing.routeIds, |plan.routes.value|)
    && Numbered(out.routeIds, |plan.routes.value|)
  }

  /** When the ingress in memory is in sync with the store. */
  ghost predicate SyncOutcome(before: World, after: World, plan: Plan, ns: Option<string>, ing: Ingress, out: Ingress)
    requires plan.Sound()
  {
    && out.finalizer && PolicySynced(after.policies, out.policyId, plan.policy.value, ns)
    && (WellAnnotated(before.view.routes, ing, plan, ns, Clashed(before, after)) ==>
          Synced(after.view.routes, after.policies, out, plan, ns))
    && (before.view.unique && Distinct(ing.routeIds) ==>
          && (Synced(after.view.routes, after.policies, out, plan, ns) <==> Clear(before.view.routes, ing, plan, ns))
          && (AllBelow(ing.routeIds, |plan.routes.value|) ==>
                (Distinct(out.routeIds) <==> Clear(before.view.routes, ing, plan, ns))))
  }

  /** A live route is as wanted for every wanted one. */
  ghost predicate AllLive(routes: Routes, ing: Ingress, plan: Plan, ns: Option<string>)
    requires plan.Sound()
  {
    var specs := JobOf(plan.routes.value, ns, ing.policyId, ing.routeIds).specs;
    AllUnwritten(routes, ing.routeIds, specs, |specs|)
  }

  /** What a successful upsert makes of the store and of the ingress in memory. */
  ghost predicate MemoryOutcome(
    before: World, after: World, plan: Plan, ns: Option<string>, ing: Ingress, out: Ingress, changed: bool)
    requires plan.Sound()
  {
    && Numbers(after.view.routes, ing, out, plan) && SyncOutcome(before, after, plan, ns, ing, out)
    && (before.view.unique && out.policyId == ing.policyId && AllLive(before.view.routes, ing, plan, ns) ==>
          NamesRoutes(before.view.routes, out, plan, ns))
    && (!Clashed(before, after) ==> (changed <==> Wrote(before, after) || !ing.finalizer))
    && (!changed ==>
          && NothingToWrite(before.view.routes, before.policies, ing, plan, ns)
          && NamesRoutes(after.view.routes, out, plan, ns)
          && (out != ing <==> Clashed(before, after))
          && (out == ing <==> NamesRoutes(before.view.routes, ing, plan, ns))
          && (NamesRoutes(after.view.routes, ing, plan, ns) ==> NamesRoutes(before.view.routes, ing, plan, ns)))
  }

  lemma MemorySynced(
    before: World, mid: World, after: World, plan: Plan, ns: Option<string>, ing: Ingress, updated: Id, ids: RouteIds)
    requires plan.Sound() && mid.view.routes == before.view.routes && mid.view.clashes == before.view.clashes
    requires mid.view.unique == before.view.unique
    requires PolicySynced(mid.policies, updated, plan.policy.value, ns) && (updated == 0 <==> plan.policy.value.None?)
    requires var job := JobOf(plan.routes.value, ns, updated, ing.routeIds);
             && (Orderly(mid.view.routes, job.ids, job.names, job.ns, Clashed(mid, after)) ==>
                   RoutesSynced(after.view.routes, ids, job.specs))
             && SyncedIfUntangled(job, mid.view, after.view, ids)
    requires updated in mid.policies ==>
               updated in after.policies && after.policies[updated] == mid.policies[updated]
    ensures SyncOutcome(before, after, plan, ns, ing, Ingress(ids, updated, true))
  {
  }

  lemma MemoryUnchanged(
    before: World, mid: World, after: World, plan: Plan, ns: Option<string>, ing: Ingress, ids: RouteIds)
    requires plan.Sound() && ing.finalizer && Later(before.view, mid.view) && Later(mid.view, after.view)
    requires PolicyOutcome(before, mid, plan.policy.value, ns, ing.policyId, ing.policyId, false)
    requires Unchanged(JobOf(plan.routes.value, ns, ing.policyId, ing.routeIds), mid.view, after.view, ids)
    ensures NothingToWrite(before.view.routes, before.policies, ing, plan, ns)
    ensures NamesRoutes(after.view.routes, Ingress(ids, ing.policyId, true), plan, ns)
    ensures Ingress(ids, ing.policyId, true) != ing <==> Clashed(before, after)
    ensures Ingress(ids, ing.policyId, true) == ing <==> NamesRoutes(before.view.routes, ing, plan, ns)
    ensures NamesRoutes(after.view.routes, ing, plan, ns) ==> NamesRoutes(before.view.routes, ing, plan, ns)
  {
  }

  lemma MemoryUpdated(
    before: World, mid: World, after: World, plan: Plan, ns: Option<string>, ing: Ingress, updated: Id, ids: RouteIds,
    policyChanged: bool, routesChanged: bool, cleared: bool)
    requires plan.Sound() && Later(before.view, mid.view) && Later(mid.view, after.view)
    requires PolicyOutcome(before, mid, plan.policy.value, ns, ing.policyId, updated, policyChanged)
    requires RoutesOutcome(mid, after, JobOf(plan.routes.value, ns, updated, ing.routeIds),
                           ing.policyId, updated, ids, routesChanged, cleared)
    ensures MemoryOutcome(before, after, plan, ns, ing, Ingress(ids, updated, true),
                          !ing.finalizer || policyChanged || routesChanged || cleared)
  {
    MemorySynced(before, mid, after, plan, ns, ing, updated, ids);
    if ing.finalizer && !policyChanged && !routesChanged && !cleared {
      assert updated == ing.policyId;
      MemoryUnchanged(before, mid, after, plan, ns, ing, ids);
    }
  }

  /** The policy is as wanted, but the first wanted route can only be updated in place and cannot have its name. */
  ghost predicate Wedged(routes: Routes, policies: map<Id, Policy>, ing: Ingress, plan: Plan, ns: Option<string>)
    requires plan.Sound()
  {
    && ing.finalizer && PolicySynced(policies, ing.policyId, plan.policy.value, ns)
    && Stuck(routes, ing.routeIds, BodyNames(plan.routes.value), ns)
  }

  /** A wanted name cannot be had when its turn comes. */
  ghost predicate NameBlocked(routes: Routes, ing: Ingress, plan: Plan, ns: Option<string>)
    requires plan.routes.Some?
  {
    AnyBlocked(routes, ing.routeIds, BodyNames(plan.routes.value), ns)
  }

  /** Turns taken from here, with some policy for the routes, lead to a name that cannot be had. */
  ghost predicate NameRunsOut(routes: Routes, ing: Ingress, plan: Plan, ns: Option<string>)
    requires plan.routes.Some?
  {
    exists policyId :: Derails(JobOf(plan.routes.value, ns, policyId, ing.routeIds), routes)
  }

  /**
   When an upsert fails without a failed call, in a store with unique names: from distinct ids that
   are untangled exactly if a wanted name cannot be had; never if a live route is as wanted for
   every wanted one; and in general only if the turns lead to a name that cannot be had.
   */
  ghost predicate FailsIfBlocked(
    before: World, after: World, plan: Plan, ns: Option<string>, ing: Ingress, failed: bool)
    requires plan.Sound()
  {
    before.view.unique && after.view.faults == before.view.faults && after.policyClashes == before.policyClashes ==>
      && (Distinct(ing.routeIds) && Clear(before.view.routes, ing, plan, ns) ==>
            (failed <==> NameBlocked(before.view.routes, ing, plan, ns)))
      && (PolicySynced(before.policies, ing.policyId, plan.policy.value, ns) ==>
            (AllLive(before.view.routes, ing, plan, ns) ==> !failed))
      && (failed ==> NameRunsOut(before.view.routes, ing, plan, ns))
  }

  /** What else is decided before an upsert, in a store with unique names and unless a call fails. */
  ghost predicate Foreseen(
    before: World, after: World, plan: Plan, ns: Option<string>, ing: Ingress, out: Ingress, changed: bool,
    failed: bool)
    requires plan.Sound()
  {
    before.view.unique && after.view.faults == before.view.faults ==>
      && (NothingToWrite(before.view.routes, before.policies, ing, plan, ns) ==> !failed && !changed)
      && (Wedged(before.view.routes, before.policies, ing, plan, ns) ==>
            && failed && !changed && out == ing
            && after.view.routes == before.view.routes && after.policies == before.policies)
  }

  lemma RoutesForesee(
    before: World, mid: World, after: World, plan: Plan, ns: Option<string>, ing: Ingress, updated: Id, ids: RouteIds,
    policyChanged: bool, changed: bool, failed: bool)
    requires plan.Sound() && Later(before.view, mid.view) && Later(mid.view, after.view)
    requires PolicyOutcome(before, mid, plan.policy.value, ns, ing.policyId, updated, policyChanged)
    requires PolicySynced(before.policies, ing.policyId, plan.policy.value, ns) ==> !policyChanged
    requires var job := JobOf(plan.routes.value, ns, updated, ing.routeIds);
             Foretold(job, mid.view, after.view, ids, changed, failed)
    requires failed && after.view.faults == mid.view.faults ==> after.policies == mid.policies
    ensures var out := Ingress(ids, if updated != 0 then updated else ing.policyId, true);
            var any := !ing.finalizer || policyChanged || changed || (!failed && ing.policyId != 0 && updated == 0);
            && Foreseen(before, after, plan, ns, ing, out, any, failed)
            && FailsIfBlocked(before, after, plan, ns, ing, failed)
  {
  }

  method UpdateInMemory(api: Api, plan: Plan, ns: Option<string>, ing: Ingress)
    returns (failed: bool, changed: bool, out: Ingress)
    requires api.Valid() && Known(ing.routeIds, api.nextId) && ing.policyId < api.nextId
    requires plan.routes.Some?
    modifies api
    ensures api.Valid() && Known(out.routeIds, api.nextId) && out.policyId < api.nextId
    ensures Later(old(ViewOf(api)), ViewOf(api)) && old(api.policyClashes) <= api.policyClashes
    ensures AllSafe(old(api.policyDeletes)) ==> AllSafe(api.policyDeletes)
    ensures WellAnnotated(old(api.routes), ing, plan, ns, api.clashes > old(api.clashes)) ==> Distinct(out.routeIds)
    ensures !failed ==> plan.Sound()
    ensures !failed ==> MemoryOutcome(old(WorldOf(api)), WorldOf(api), plan, ns, ing, out, changed)
    ensures plan.Sound() ==> Foreseen(old(WorldOf(api)), WorldOf(api), plan, ns, ing, out, changed, failed)
    ensures plan.Sound() ==> FailsIfBlocked(old(WorldOf(api)), WorldOf(api), plan, ns, ing, failed)
    ensures plan.Sound() && Synced(old(api.routes), old(api.policies), ing, plan, ns) ==>
              && api.writes == old(api.writes) && api.routes == old(api.routes)
              && api.policies == old(api.policies) && !changed
    ensures plan.Sound() && failed && api.faults == old(api.faults) ==>
              || api.clashes > old(api.clashes) || api.refusals > old(api.refusals)
              || api.policyClashes > old(api.policyClashes)
    ensures plan.Sound() && NeedsNoPolicy(old(api.policies), ing.policyId, plan.policy.value, ns) ==>
              api.policyClashes == old(api.policyClashes)
  {
    ghost var before := WorldOf(api);
    var policyChanged, updated, annotated;
    failed, policyChanged, updated, annotated := UpdatePolicy(api, plan, ns, ing.policyId);
    if failed { return true, !ing.finalizer || policyChanged, Ingress(ing.routeIds, annotated, true); }
    failed, changed, out := UpdateRoutes(api, plan, ns, ing, updated, policyChanged, before);
  }

  /** The first half of an upsert: the policy, between the checks of annotations and key pairs. */
  method UpdatePolicy(api: Api, plan: Plan, ns: Option<string>, policyId: Id)
    returns (failed: bool, changed: bool, updated: Id, annotated: Id)
    requires api.Valid() && policyId < api.nextId && plan.routes.Some?
    modifies api`policies, api`nextId, api`writes, api`faults, api`policyClashes
    ensures api.Valid() && Later(old(ViewOf(api)), ViewOf(api)) && updated < api.nextId && annotated < api.nextId
    ensures old(api.policyClashes) <= api.policyClashes
    ensures !failed ==> plan.Sound() && annotated == if updated != 0 then updated else policyId
    ensures !failed ==>
              PolicyOutcome(old(WorldOf(api)), WorldOf(api), plan.policy.value, ns, policyId, updated, changed)
    ensures plan.Sound() && PolicySynced(old(api.policies), policyId, plan.policy.value, ns) ==>
              && api.writes == old(api.writes) && api.policies == old(api.policies)
              && api.policyClashes == old(api.policyClashes) && !changed
    ensures plan.Sound() && failed && api.faults == old(api.faults) ==> api.policyClashes > old(api.policyClashes)
    ensures plan.Sound() && NeedsNoPolicy(old(api.policies), policyId, plan.policy.value, ns) ==>
              api.policyClashes == old(api.policyClashes)
  {
    failed, changed, updated, annotated := true, false, 0, policyId;
    if !plan.annotationsOk { return; }
    failed, changed, updated := SyncIngressPolicy(api, plan.policy, ns, policyId);
    if failed { return; }
    if updated != 0 { annotated := updated; }
    failed := !plan.keyPairsOk;
  }

  /** The second half of an upsert: the routes, and the policy they referred to before. */
  method UpdateRoutes(
    api: Api, plan: Plan, ns: Option<string>, ing: Ingress, updated: Id, policyChanged: bool, ghost before: World)
    returns (failed: bool, changed: bool, out: Ingress)
    requires api.Valid() && Known(ing.routeIds, api.nextId) && ing.policyId < api.nextId && updated < api.nextId
    requires plan.Sound() && Later(before.view, ViewOf(api))
    requires PolicyOutcome(before, WorldOf(api), plan.policy.value, ns, ing.policyId, updated, policyChanged)
    requires PolicySynced(before.policies, ing.policyId, plan.policy.value, ns) ==> !policyChanged
    modifies api
    ensures api.Valid() && Known(out.routeIds, api.nextId) && out.policyId < api.nextId
    ensures Later(old(ViewOf(api)), ViewOf(api)) && api.policyClashes == old(api.policyClashes)
    ensures AllSafe(old(api.policyDeletes)) ==> AllSafe(api.policyDeletes)
    ensures WellAnnotated(before.view.routes, ing, plan, ns, Clashed(before, WorldOf(api))) ==> Distinct(out.routeIds)
    ensures !failed ==> MemoryOutcome(before, WorldOf(api), plan, ns, ing, out, changed)
    ensures Foreseen(before, WorldOf(api), plan, ns, ing, out, changed, failed)
    ensures FailsIfBlocked(before, WorldOf(api), plan, ns, ing, failed)
    ensures Synced(before.view.routes, before.policies, ing, plan, ns) ==>
              && api.writes == old(api.writes) && api.routes == old(api.routes)
              && api.policies == old(api.policies) && !changed
    ensures failed && api.faults == old(api.faults) ==>
              api.clashes > old(api.clashes) || api.refusals > old(api.refusals)
  {
    ghost var mid := WorldOf(api);
    ghost var job := JobOf(plan.routes.value, ns, updated, ing.routeIds);
    out := Ingress(ing.routeIds, if updated != 0 then updated else ing.policyId, true);
    var routesChanged, ids, cleared;
    var specs := Specs(plan.routes.value, ns, PolicyIds(updated));
    failed, routesChanged, ids, cleared := ApplyRoutesAndPolicy(api, specs, ing.policyId, updated, ing.routeIds, job);
    out := out.(routeIds := ids);
    changed := !ing.finalizer || policyChanged || routesChanged || cleared;
    RoutesForesee(before, mid, WorldOf(api), plan, ns, ing, updated, ids, policyChanged, routesChanged, failed);
    if failed { return; }
    if cleared { out := out.(policyId := 0); }
    MemoryUpdated(before, mid, WorldOf(api), plan, ns, ing, updated, ids, policyChanged, routesChanged, cleared);
  }

  /**
   Deletes the policy a new one replaced, or the one that is no longer wanted; `existing` was
   annotated at the start, `annotated` is annotated now, and `updated` is what the routes refer to.
   */
  method DropOldPolicy(api: Api, existing: Id, annotated: Id, updated: Id, ghost tracked: set<Id>)
    returns (failed: bool, cleared: bool)
    requires api.Valid() && forall id :: id in tracked ==> Tagged(api.routes, id, PolicyIds(updated))
    modifies api`policies, api`writes, api`faults, api`policyDeletes
    ensures api.Valid() && old(api.faults) <= api.faults
    ensures AllSafe(old(api.policyDeletes)) ==> AllSafe(api.policyDeletes)
    ensures updated in old(api.policies) ==>
              updated in api.policies && api.policies[updated] == old(api.policies)[updated]
    ensures cleared <==> !failed && annotated != 0 && updated == 0
    ensures failed ==> api.faults > old(api.faults)
    ensures old(api.writes) <= api.writes
    ensures api.writes > old(api.writes) <==>
            (existing != 0 && updated != 0 && existing != updated) || (annotated != 0 && updated == 0)
    ensures api.writes == old(api.writes) ==> api.policies == old(api.policies)
  {
    failed, cleared := false, false;
    if existing != 0 && updated != 0 && existing != updated {
      OneMoreIsSafe(api.policyDeletes, PolicyDelete(existing, api.routes, tracked));
      var _ := api.DeletePolicy(existing, tracked);
    }
    if annotated != 0 && updated == 0 {
      OneMoreIsSafe(api.policyDeletes, PolicyDelete(annotated, api.routes, tracked));
      failed := api.DeletePolicy(annotated, tracked);
      cleared := !failed;
    }
  }

  /** One reconciler: a store, the persisted ingress, and the namespace it was given, if any. */
  class Reconciler {
    const api: Api
    const kube: Kube
    const ns: Option<string>

    constructor (api: Api, kube: Kube, ns: Option<string>)
      ensures this.api == api && this.kube == kube && this.ns == ns
    {
      this.api, this.kube, this.ns := api, kube, ns;
    }

    /** The store is sound, and every annotated id was handed out by it. */
    ghost predicate Valid()
      reads this, api, kube
    {
      api.Valid() && Known(kube.persisted.routeIds, api.nextId) && kube.persisted.policyId < api.nextId
    }

    ghost predicate InSync(plan: Plan)
      requires plan.Sound()
      reads this, api, kube
    {
      Synced(api.routes, api.policies, kube.persisted, plan, ns)
    }

    /** After an upsert of this ingress the persisted annotations would not name its routes. */
    ghost predicate LosesIds(plan: Plan)
      requires plan.Sound()
      reads this, api, kube
    {
      && NothingToWrite(api.routes, api.policies, kube.persisted, plan, ns)
      && !NamesRoutes(api.routes, kube.persisted, plan, ns)
    }

    /**
     What is in memory is persisted on success, unless after a clash no change is reported. In a
     store with unique names, and unless a call fails: that is so exactly if nothing had to be
     written although the annotations did not name the routes; from distinct ids, success ends in
     sync exactly if no index would adopt the route of another annotation; and then it fails
     exactly if a wanted name cannot be had.
     */
    method UpsertOneIngress(plan: Plan) returns (changed: bool, failed: bool, memory: Ingress)
      requires Valid()
      modifies api, kube
      ensures Valid() && Later(old(ViewOf(api)), ViewOf(api)) && old(kube.faults) <= kube.faults
      ensures AllSafe(old(api.policyDeletes)) ==> AllSafe(api.policyDeletes)
      ensures kube.persisted == old(kube.persisted) || kube.persisted == memory
      ensures WellAnnotated(old(api.routes), old(kube.persisted), plan, ns, api.clashes > old(api.clashes)) ==>
                Distinct(kube.persisted.routeIds) && Distinct(memory.routeIds)
      ensures !failed ==> plan.Sound() && Numbers(api.routes, old(kube.persisted), memory, plan)
      ensures !failed ==> SyncOutcome(old(WorldOf(api)), WorldOf(api), plan, ns, old(kube.persisted), memory)
      ensures !failed && api.namesUnique && memory.policyId == old(kube.persisted.policyId) ==>
                (AllLive(old(api.routes), old(kube.persisted), plan, ns) ==>
                   NamesRoutes(old(api.routes), memory, plan, ns))
      ensures !failed && !changed ==> NamesRoutes(api.routes, memory, plan, ns)
      ensures !failed ==> (kube.persisted == memory <==> changed || api.clashes == old(api.clashes))
      ensures !failed && api.namesUnique && api.faults == old(api.faults) ==>
                (kube.persisted != memory <==> old(LosesIds(plan)))
      ensures !failed && api.namesUnique && api.faults == old(api.faults) && old(Distinct(kube.persisted.routeIds)) ==>
                (InSync(plan) <==> Clear(old(api.routes), old(kube.persisted), plan, ns) && !old(LosesIds(plan)))
      ensures plan.Sound() ==>
                Foreseen(old(WorldOf(api)), WorldOf(api), plan, ns, old(kube.persisted), memory, changed, failed)
      ensures plan.Sound() && kube.faults == old(kube.faults) ==>
                FailsIfBlocked(old(WorldOf(api)), WorldOf(api), plan, ns, old(kube.persisted), failed)
      ensures plan.Sound() && api.namesUnique && api.faults == old(api.faults) && kube.faults == old(kube.faults) ==>
                (old(Distinct(kube.persisted.routeIds)) && api.policyClashes == old(api.policyClashes) ==>
                   (!failed && Synced(api.routes, api.policies, memory, plan, ns) <==>
                    && Clear(old(api.routes), old(kube.persisted), plan, ns)
                    && !NameBlocked(old(api.routes), old(kube.persisted), plan, ns)))
      ensures plan.Sound() && old(NeedsNoPolicy(api.policies, kube.persisted.policyId, plan.policy.value, ns)) ==>
                api.policyClashes == old(api.policyClashes)
      ensures plan.Sound() && old(InSync(plan)) ==>
                api.writes == old(api.writes) && kube.patches == old(kube.patches) && InSync(plan) && !changed
      ensures !failed && api.clashes == old(api.clashes) ==>
                (changed <==> api.writes > old(api.writes) || !old(kube.persisted.finalizer))
      ensures kube.patches == old(kube.patches) + if changed then 1 else 0
      ensures plan.Sound() && failed && api.faults == old(api.faults) && kube.faults == old(kube.faults) ==>
                || api.clashes > old(api.clashes) || api.refusals > old(api.refusals)
                || api.policyClashes > old(api.policyClashes)
    {
      memory := kube.persisted;
      if plan.routes.None? { return false, true, memory; }
      failed, changed, memory := UpdateInMemory(api, plan, ns, memory);
      if changed {
        var notPatched := kube.Patch(memory);
        failed := failed || notPatched;
      }
    }

    /** Deletes what the annotations track; `keyPairs` secrets lost their last reference. */
    method Delete(keyPairs: nat) returns (changed: bool, failed: bool)
      requires Valid()
      modifies api, kube
      ensures Valid()
      ensures AllSafe(old(api.policyDeletes)) ==> AllSafe(api.policyDeletes)
      ensures old(Distinct(kube.persisted.routeIds)) ==> Distinct(kube.persisted.routeIds)
      ensures api.clashes == old(api.clashes) && kube.present == old(kube.present)
      ensures old(api.faults) <= api.faults && old(kube.faults) <= kube.faults
      ensures !failed && kube.present ==>
                && kube.persisted.routeIds == map[] && kube.persisted.policyId == 0
                && AllGone(api.routes, old(kube.persisted.routeIds), old(kube.persisted.routeIds).Keys)
                && (kube.persisted.finalizer <==>
                      old(kube.persisted.finalizer) && HasWork(old(kube.persisted), keyPairs))
                && (changed <==> old(kube.persisted.finalizer) || HasWork(old(kube.persisted), keyPairs))
      ensures kube.patches == old(kube.patches) + if changed then 1 else 0
      ensures failed ==> api.faults > old(api.faults) || kube.faults > old(kube.faults)
    {
      var got := kube.Get();
      if !got.Found? { return false, got.GetFailed?; }
      var ing;
      failed, changed, ing := DeleteInMemory(api, got.value, keyPairs);
      if changed {
        var notPatched := kube.Patch(ing);
        failed := failed || notPatched;
      }
    }
  }

  /** There is something to delete besides the finalizer. */
  predicate HasWork(ing: Ingress, keyPairs: nat) {
    ing.routeIds != map[] || ing.policyId != 0 || keyPairs > 0
  }

  /** Deletes the routes the annotations name, and then the policy those referred to. */
  method DeleteTracked(api: Api, ing: Ingress) returns (failed: bool, changed: bool, out: Ingress)
    requires api.Valid() && Known(ing.routeIds, api.nextId) && ing.policyId < api.nextId
    modifies api
    ensures api.Valid() && Known(out.routeIds, api.nextId) && out.policyId < api.nextId
    ensures api.nextId == old(api.nextId) && api.clashes == old(api.clashes)
    ensures AllSafe(old(api.policyDeletes)) ==> AllSafe(api.policyDeletes)
    ensures Distinct(ing.routeIds) ==> Distinct(out.routeIds)
    ensures !failed ==> AllGone(api.routes, ing.routeIds, ing.routeIds.Keys) && out == Ingress(map[], 0, ing.finalizer)
    ensures !failed ==> (changed <==> ing.routeIds != map[] || ing.policyId != 0)
    ensures old(api.faults) <= api.faults && (failed <==> api.faults > old(api.faults))
  {
    var ids;
    failed, changed, ids := DeleteRoutes(api, ing.routeIds, ing.routeIds.Keys);
    out := ing.(routeIds := ids);
    ghost var done :| done <= ing.routeIds.Keys && ids == ing.routeIds - done;
    SubsetDistinct(ing.routeIds, done, api.nextId);
    if failed { return; }
    assert ids == map[];

    if out.policyId != 0 {
      OneMoreIsSafe(api.policyDeletes, PolicyDelete(out.policyId, api.routes, ing.routeIds.Values + ids.Values));
      failed := api.DeletePolicy(out.policyId, ing.routeIds.Values + ids.Values);
      if failed { return; }
      out, changed := out.(policyId := 0), true;
    }
  }

  method DeleteInMemory(api: Api, ing: Ingress, keyPairs: nat)
    returns (failed: bool, changed: bool, out: Ingress)
    requires api.Valid() && Known(ing.routeIds, api.nextId) && ing.policyId < api.nextId
    modifies api
    ensures api.Valid() && Known(out.routeIds, api.nextId) && out.policyId < api.nextId
    ensures old(api.nextId) <= api.nextId && api.clashes == old(api.clashes) && old(api.faults) <= api.faults
    ensures AllSafe(old(api.policyDeletes)) ==> AllSafe(api.policyDeletes)
    ensures Distinct(ing.routeIds) ==> Distinct(out.routeIds)
    ensures !failed ==>
              && out == Ingress(map[], 0, ing.finalizer && HasWork(ing, keyPairs))
              && AllGone(api.routes, ing.routeIds, ing.routeIds.Keys)
              && (changed <==> ing.finalizer || HasWork(ing, keyPairs)) && (!changed ==> out == ing)
    ensures failed ==> api.faults > old(api.faults)
  {
    failed, changed, out := DeleteTracked(api, ing);
    if failed { return; }
    failed := api.DeleteKeyPairs(keyPairs);
    if failed { return; }
    changed := changed || keyPairs > 0;

    // a finalizer is looked at only when nothing else changed
    if !changed && out.finalizer {
      out, changed := out.(finalizer := false), true;
    }
  }

  // ----- whole runs -----

  datatype Step = Upsert(plan: Plan) | Remove(keyPairs: nat)

  /**
   Over any run of upserts and deletes with failures at any call, no policy is deleted while a
   tracked route refers to it, and ids stay distinct as long as the store reports no clash.
   */
  method Run(r: Reconciler, steps: seq<Step>)
    requires r.Valid() && AllSafe(r.api.policyDeletes) && Distinct(r.kube.persisted.routeIds)
    modifies r.api, r.kube
    ensures r.Valid() && AllSafe(r.api.policyDeletes)
    ensures r.api.clashes == old(r.api.clashes) ==> Distinct(r.kube.persisted.routeIds)
  {
    for i := 0 to |steps|
      invariant r.Valid() && AllSafe(r.api.policyDeletes) && old(r.api.clashes) <= r.api.clashes
      invariant r.api.clashes == old(r.api.clashes) ==> Distinct(r.kube.persisted.routeIds)
    {
      match steps[i]
      case Upsert(plan) =>
        var _, _, _ := r.UpsertOneIngress(plan);
      case Remove(keyPairs) =>
        var _, _ := r.Delete(keyPairs);
    }
  }

  /**
   A second upsert with the same plan issues no write and no patch, even if its reads fail, once the
   first one succeeded from annotations in good order and persisted what it had in memory; in a store
   with unique names, unless a call fails, those are conditions on what was there before it. `mid` and
   `patches` are what is there between the two.
   */
  method UpsertTwice(r: Reconciler, plan: Plan)
    returns (changed: bool, failed: bool, ghost mid: View, ghost patches: nat)
    requires r.Valid()
    modifies r.api, r.kube
    ensures r.Valid()
    ensures !failed ==> plan.Sound()
    ensures var clashed := mid.clashes > old(r.api.clashes);
            var orderly := WellAnnotated(old(r.api.routes), old(r.kube.persisted), plan, r.ns, clashed);
            !failed && orderly && (changed || !clashed) ==>
              r.InSync(plan) && r.api.writes == mid.writes && r.kube.patches == patches
    ensures !failed && r.api.namesUnique && mid.faults == old(r.api.faults) ==>
              (old(Distinct(r.kube.persisted.routeIds) && Clear(r.api.routes, r.kube.persisted, plan, r.ns)) ==>
                 (!old(r.LosesIds(plan)) ==>
                    r.InSync(plan) && r.api.writes == mid.writes && r.kube.patches == patches))
  {
    var memory;
    changed, failed, memory := r.UpsertOneIngress(plan);
    mid, patches := ViewOf(r.api), r.kube.patches;
    if !failed {
      var _, _, _ := r.UpsertOneIngress(plan);
    }
  }

  function OneRoute(route: RouteBody): Plan {
    Plan(Some([route]), true, Some(None), true)
  }

  /**
   The input at which an id is lost: the finalizer is on, the annotation of the one wanted route is
   missing, as after a patch that failed, and the route itself is live and as wanted. The upsert
   succeeds, reports no change and finds the route, and its id is not persisted.
   */
  method UpsertLosesId(r: Reconciler, route: RouteBody, id: Id) returns (failed: bool, memory: Ingress)
    requires r.Valid() && r.api.namesUnique && r.kube.persisted == Ingress(map[], 0, true)
    requires id in r.api.routes && RouteMatches(r.api.routes[id], RouteSpec(r.ns, route.name, route.body, []))
    modifies r.api, r.kube
    ensures r.api.faults == old(r.api.faults) ==>
              && !failed && r.kube.persisted == Ingress(map[], 0, true) && r.kube.patches == old(r.kube.patches)
              && memory != r.kube.persisted && NamesRoutes(r.api.routes, memory, OneRoute(route), r.ns)
  {
    OneIsLive(r.api.routes, r.kube.persisted, route, r.ns, id);
    var changed;
    changed, failed, memory := r.UpsertOneIngress(OneRoute(route));
  }

  /**
   A wanted route is adopted and then deleted: the finalizer is on, and the one annotation, beyond the
   wanted routes, names a live route that is as wanted. The upsert succeeds and persists an annotation
   for a route that is gone.
   */
  method UpsertDropsAdopted(r: Reconciler, route: RouteBody, id: Id) returns (failed: bool)
    requires r.Valid() && r.api.namesUnique && r.kube.persisted == Ingress(map[Index(1) := id], 0, true)
    requires id in r.api.routes && RouteMatches(r.api.routes[id], RouteSpec(r.ns, route.name, route.body, []))
    modifies r.api, r.kube
    ensures r.api.faults == old(r.api.faults) && r.kube.faults == old(r.kube.faults) ==>
              && !failed && r.kube.persisted == Ingress(map[Index(0) := id], 0, true)
              && id !in r.api.routes && !r.InSync(OneRoute(route))
  {
    ghost var before, ing := r.api.routes, r.kube.persisted;
    OneIsLive(before, ing, route, r.ns, id);
    LentBySurplus(before, ing, route, r.ns, id);
    assert Index(1) in ing.routeIds && !Below(Index(1), 1);
    var changed, memory;
    changed, failed, memory := r.UpsertOneIngress(OneRoute(route));
    if !failed && r.api.faults == old(r.api.faults) {
      OneIsNamed(before, memory, route, r.ns, id);
    }
  }

  /**
   Two annotations end on one route: wanted were A and B, wanted are B and A, and A's route is gone.
   Index 0 adopts the route of index 1, which index 1 then turns into A.
   */
  method UpsertSharesRoute(r: Reconciler, first: RouteBody, second: RouteBody, gone: Id, id: Id)
    returns (failed: bool, memory: Ingress)
    requires r.Valid() && r.api.namesUnique && 0 < gone < r.api.nextId && first.name != second.name
    requires r.kube.persisted == Ingress(map[Index(0) := gone, Index(1) := id], 0, true)
    requires gone !in r.api.routes && !NameTaken(r.api.routes, second.name, 0)
    requires id in r.api.routes && RouteMatches(r.api.routes[id], RouteSpec(r.ns, first.name, first.body, []))
    modifies r.api, r.kube
    ensures r.api.faults == old(r.api.faults) && r.kube.faults == old(r.kube.faults) ==>
              && !failed && Index(0) in memory.routeIds && Index(1) in memory.routeIds
              && memory.routeIds[Index(0)] == memory.routeIds[Index(1)] != 0
  {
    var plan := Plan(Some([first, second]), true, Some(None), true);
    LentByNext(r.api.routes, r.kube.persisted, first, second, r.ns, gone, id);
    SwapNeverRunsOut(r.api.routes, r.kube.persisted, first, second, r.ns, gone, id);
    var changed;
    changed, failed, memory := r.UpsertOneIngress(plan);
    if !failed { OneIdForTwo(memory.routeIds); }
  }

  /** What cannot be had is not had by trying again. */
  method RetryWedged(r: Reconciler, plan: Plan, attempts: nat) returns (failures: nat)
    requires r.Valid() && r.api.namesUnique && plan.Sound()
    requires Wedged(r.api.routes, r.api.policies, r.kube.persisted, plan, r.ns)
    modifies r.api, r.kube
    ensures r.Valid() && old(r.api.faults) <= r.api.faults && failures <= attempts
    ensures r.api.faults == old(r.api.faults) ==>
              && failures == attempts && r.kube.persisted == old(r.kube.persisted)
              && r.api.routes == old(r.api.routes) && r.kube.patches == old(r.kube.patches)
  {
    failures := 0;
    for i := 0 to attempts
      invariant r.Valid() && old(r.api.faults) <= r.api.faults && failures <= i
      invariant r.api.faults == old(r.api.faults) ==>
                  && failures == i && r.kube.persisted == old(r.kube.persisted) && r.api.routes == old(r.api.routes)
                  && r.api.policies == old(r.api.policies) && r.kube.patches == old(r.kube.patches)
    {
      var _, failed, _ := r.UpsertOneIngress(plan);
      if failed { failures := failures + 1; }
    }
  }

  /**
   The input at which every upsert fails: two paths were synced and the first one is removed from the
   ingress, so that index 0 is to be updated to the name that the route of index 1 still has.
   */
  method RemoveFirstPath(r: Reconciler, second: RouteBody, a: Id, b: Id, attempts: nat) returns (failures: nat)
    requires r.Valid() && r.api.namesUnique && a != b
    requires r.kube.persisted == Ingress(map[Index(0) := a, Index(1) := b], 0, true)
    requires InNamespace(r.api.routes, r.ns, a) && b in r.api.routes && r.api.routes[b].name == second.name
    modifies r.api, r.kube
    ensures r.api.faults == old(r.api.faults) ==>
              && failures == attempts && r.kube.persisted == old(r.kube.persisted) && r.api.routes == old(r.api.routes)
  {
    failures := RetryWedged(r, OneRoute(second), attempts);
  }

  lemma OneIsLive(routes: Routes, ing: Ingress, route: RouteBody, ns: Option<string>, id: Id)
    requires 0 !in routes && Index(0) !in ing.routeIds && ing.policyId == 0
    requires id in routes && RouteMatches(routes[id], RouteSpec(ns, route.name, route.body, []))
    ensures AllLive(routes, ing, OneRoute(route), ns) && !NamesRoutes(routes, ing, OneRoute(route), ns)
  {
    var specs := Specs([route], ns, []);
    assert specs[0] == RouteSpec(ns, route.name, route.body, []);
    assert id in routes - {0};
    assert Unwritten(routes, specs[0], 0);
  }

  lemma OneIsNamed(routes: Routes, memory: Ingress, route: RouteBody, ns: Option<string>, id: Id)
    requires NamesUnique(routes) && memory.policyId == 0 && Numbered(memory.routeIds, 1)
    requires NamesRoutes(routes, memory, OneRoute(route), ns) && id in routes && routes[id].name == route.name
    ensures memory.routeIds == map[Index(0) := id]
  {
    var specs := Specs([route], ns, []);
    assert specs[0] == RouteSpec(ns, route.name, route.body, []);
    assert Mirrors(routes, memory.routeIds, specs, 1);
    assert memory.routeIds[Index(0)] in routes && routes[memory.routeIds[Index(0)]].name == route.name;
  }

  lemma LentBySurplus(routes: Routes, ing: Ingress, route: RouteBody, ns: Option<string>, id: Id)
    requires 0 !in routes && ing.routeIds == map[Index(1) := id] && id in routes && routes[id].name == route.name
    ensures !Clear(routes, ing, OneRoute(route), ns)
  {
    assert Lends(routes, ing.routeIds, BodyNames([route]), ns, 0, Index(1));
  }

  lemma LentByNext(
    routes: Routes, ing: Ingress, first: RouteBody, second: RouteBody, ns: Option<string>, gone: Id, id: Id)
    requires ing.routeIds == map[Index(0) := gone, Index(1) := id] && gone !in routes
    requires id in routes && routes[id].name == first.name
    ensures !Clear(routes, ing, Plan(Some([first, second]), true, Some(None), true), ns)
    ensures Distinct(ing.routeIds) && AllBelow(ing.routeIds, 2)
  {
    assert Lends(routes, ing.routeIds, BodyNames([first, second]), ns, 0, Index(1));
  }

  lemma OneIdForTwo(ids: RouteIds)
    requires Numbered(ids, 2) && !Distinct(ids)
    ensures Index(0) in ids && Index(1) in ids && ids[Index(0)] == ids[Index(1)] != 0
  {
    assert forall k :: k in ids ==> k == Index(0) || k == Index(1);
  }

  /** The first of two names is that of the route the second index tracks, and nothing has the second name. */
  ghost predicate Swap(job: Job, routes: Routes, gone: Id, id: Id) {
    && job.Sound() && |job.specs| == 2 && job.ids == map[Index(0) := gone, Index(1) := id] && gone !in routes
    && InNamespace(routes, job.ns, id) && routes[id].name == job.names[0] && routes[id].originator == ORIGINATOR
    && NamesUnique(routes) && 0 !in routes && !NameTaken(routes, job.names[1], 0)
  }

  /** The first index takes the route of the second, and the second name is still to be had. */
  lemma SwapAdopts(job: Job, before: View, after: View, gone: Id, id: Id, taken: Id, changed: bool)
    requires Swap(job, before.routes, gone, id) && before.unique
    requires Outcome(before, after, job.specs[0], gone, taken, changed)
    ensures taken == id && InNamespace(after.routes, job.ns, id) && !NameTaken(after.routes, job.names[1], id)
  {
    assert id in before.routes - {gone} && id != 0;
    assert NameTaken(before.routes - {gone}, job.specs[0].name, 0);
  }

  lemma SwapIsNotBlocked(t: Turns, job: Job, routes: Routes, gone: Id, id: Id)
    requires Swap(job, routes, gone, id)
    ensures !LeadToBlocked(t, job, routes)
  {
    if t.Succeed(job) && t.First().routes == routes && t.First().unique && t.Turn? {
      if t.earlier.Start? {
        assert t.earlier.First() == t.earlier.view && t.earlier.Count() == 0 && t.earlier.Ids(job.ids) == job.ids;
        SwapAdopts(job, t.earlier.view, t.view, gone, id, t.id, t.changed);
      } else {
        assert t.Count() == t.earlier.earlier.Count() + 2;
      }
    }
  }

  lemma SwapNeverRunsOut(
    routes: Routes, ing: Ingress, first: RouteBody, second: RouteBody, ns: Option<string>, gone: Id, id: Id)
    requires ing.routeIds == map[Index(0) := gone, Index(1) := id] && gone !in routes && 0 !in routes
    requires NamesUnique(routes) && !NameTaken(routes, second.name, 0)
    requires id in routes && RouteMatches(routes[id], RouteSpec(ns, first.name, first.body, []))
    ensures !NameRunsOut(routes, ing, Plan(Some([first, second]), true, Some(None), true), ns)
  {
    forall policyId, t ensures !LeadToBlocked(t, JobOf([first, second], ns, policyId, ing.routeIds), routes) {
      SwapIsNotBlocked(t, JobOf([first, second], ns, policyId, ing.routeIds), routes, gone, id);
    }
  }

  /** One delete may leave the finalizer on; a second one takes it off. */
  method DeleteTwice(r: Reconciler, keyPairs: nat) returns (failed: bool)
    requires r.Valid() && r.kube.present
    modifies r.api, r.kube
    ensures failed ==> r.api.faults > old(r.api.faults) || r.kube.faults > old(r.kube.faults)
    ensures !failed ==> r.kube.persisted == Ingress(map[], 0, false)
  {
    var _, first := r.Delete(keyPairs);
    if first { return true; }
    var _, second := r.Delete(0);
    failed := second;
  }
}
