/**
 Creating, updating, adopting and deleting the routes one object tracks by id.
 */
module RouteSync {
  import opened ApiStore
  import opened Options

  type Routes = map<Id, Route>

  /** Below `limit`, only the route `id` may differ. */
  ghost predicate OnlyChanges(before: Routes, after: Routes, limit: Id, id: Id) {
    forall i :: i < limit && i != id ==> (i in before <==> i in after) && (i in before ==> after[i] == before[i])
  }

  /** Every route that is new or different carries exactly these policies. */
  ghost predicate Retagged(before: Routes, after: Routes, policyIds: seq<Id>) {
    forall i :: i in after ==> (i in before && after[i] == before[i]) || after[i].policyIds == policyIds
  }

  /** An id that was handed out and is not in use stays out of use. */
  ghost predicate NoneRevived(before: Routes, after: Routes, limit: Id) {
    forall i :: i < limit && i in after ==> i in before
  }

  /** The route is live and in the wanted namespace, if one is wanted. */
  predicate InNamespace(routes: Routes, ns: Option<string>, id: Id) {
    id in routes && (ns.None? || ns.value == routes[id].ns)
  }

  /** The tracked route is live and in the wanted namespace, so it will be updated in place. */
  predicate InPlace(routes: Routes, spec: RouteSpec, tracked: Id) {
    InNamespace(routes, spec.ns, tracked)
  }

  /** A route of this name is stored that is not ours. */
  ghost predicate Foreign(routes: Routes, name: string) {
    exists id :: id in routes && routes[id].name == name && routes[id].originator != ORIGINATOR
  }

  /**
   The name cannot be had: another route has it and the tracked one would have to be renamed, or a
   route that is not ours has it and a new one would have to be created.
   */
  ghost predicate Blocked(routes: Routes, ns: Option<string>, name: string, tracked: Id) {
    if InNamespace(routes, ns, tracked) then NameTaken(routes, name, tracked) else Foreign(routes - {tracked}, name)
  }

  /** The tracked route, if it can be updated in place; one in another namespace is deleted. */
  method FindTracked(api: Api, spec: RouteSpec, tracked: Id) returns (failed: bool, existing: Option<Route>)
    requires api.Valid()
    modifies api`routes, api`writes, api`faults
    ensures api.Valid() && old(api.writes) <= api.writes && old(api.faults) <= api.faults
    ensures failed <==> api.faults > old(api.faults)
    ensures !failed ==> (existing.Some? <==> InPlace(old(api.routes), spec, tracked))
    ensures existing.Some? ==> tracked in old(api.routes) && existing.value == old(api.routes)[tracked]
    ensures old(InPlace(api.routes, spec, tracked)) ==> api.writes == old(api.writes) && api.routes == old(api.routes)
    ensures api.routes == old(api.routes) || api.routes == old(api.routes) - {tracked}
    ensures !failed && existing.None? ==> api.routes == old(api.routes) - {tracked}
  {
    failed, existing := true, None;
    if tracked == 0 { return false, None; }
    var got := api.GetRoute(tracked);
    if got.GetFailed? { return; }
    if got.NotFound? { return false, None; }
    if spec.ns.Some? && spec.ns.value != got.value.ns {
      var notDeleted := api.DeleteRoute(tracked);
      return notDeleted, None;
    }
    return false, Some(got.value);
  }

  ghost predicate HasMatch(routes: Routes, spec: RouteSpec) {
    exists m :: m in routes && RouteMatches(routes[m], spec)
  }

  /** In a store with unique names, the route a lookup by name finds is the one that matches, if any does. */
  lemma MatchIsFound(routes: Routes, spec: RouteSpec, found: Id)
    requires NamesUnique(routes) && HasMatch(routes, spec) && found in routes && routes[found].name == spec.name
    ensures RouteMatches(routes[found], spec)
  {
    var m :| m in routes && RouteMatches(routes[m], spec);
    assert m == found;
  }

  lemma MatchTakesName(routes: Routes, spec: RouteSpec)
    requires HasMatch(routes, spec) && 0 !in routes
    ensures NameTaken(routes, spec.name, 0)
    ensures exists m :: m in routes && routes[m].name == spec.name && routes[m].originator == ORIGINATOR
  {
    var m :| m in routes && RouteMatches(routes[m], spec);
    assert m != 0 && routes[m].name == spec.name;
  }

  lemma ForeignTakesName(routes: Routes, name: string)
    requires Foreign(routes, name) && Positive(routes)
    ensures NameTaken(routes, name, 0)
    ensures NamesUnique(routes) ==>
              forall id :: id in routes && routes[id].name == name ==> routes[id].originator != ORIGINATOR
  {
    var x :| x in routes && routes[x].name == name && routes[x].originator != ORIGINATOR;
    assert x != 0;
  }

  /** Creates the route, or looks for ours of that name when the store reports a clash. */
  method CreateOrAdopt(api: Api, spec: RouteSpec) returns (failed: bool, created: bool, id: Id)
    requires api.Valid()
    modifies api`routes, api`nextId, api`writes, api`faults, api`clashes
    ensures api.Valid() && old(api.nextId) <= api.nextId
    ensures old(api.clashes) <= api.clashes && api.writes == old(api.writes) + 1 && old(api.faults) <= api.faults
    ensures api.routes == old(api.routes) || api.routes == old(api.routes)[old(api.nextId) := spec.In(api.home)]
    ensures !failed ==> id in api.routes && (created <==> api.clashes == old(api.clashes))
    ensures !failed ==> api.faults == old(api.faults)
    ensures !failed && created ==> id == old(api.nextId) && RouteMatches(api.routes[id], spec)
    ensures !failed && !created ==> api.routes == old(api.routes) && api.routes[id].name == spec.name
    ensures failed && api.faults == old(api.faults) ==> api.clashes > old(api.clashes)
    ensures api.namesUnique && api.faults == old(api.faults) && HasMatch(old(api.routes), spec) ==>
              !failed && !created && RouteMatches(api.routes[id], spec)
    ensures api.namesUnique && api.faults == old(api.faults) ==> (failed <==> old(Foreign(api.routes, spec.name)))
    ensures api.namesUnique && !failed ==> (created <==> !old(NameTaken(api.routes, spec.name, 0)))
    ensures failed ==> !created
    ensures failed && api.faults == old(api.faults) ==> api.routes == old(api.routes)
  {
    failed, created, id := true, false, 0;
    ghost var foreign := Foreign(api.routes, spec.name);
    if foreign { ForeignTakesName(api.routes, spec.name); }
    ghost var matched := HasMatch(api.routes, spec);
    if matched { MatchTakesName(api.routes, spec); }
    var made := api.CreateRoute(spec);
    if made.Created? { return false, true, made.id; }
    if made.CreateFailed? { return; }
    var found := api.FindRouteByName(spec.name);
    if !found.Found? { return; }
    if matched && api.namesUnique { MatchIsFound(api.routes, spec, found.id); }
    return false, false, found.id;
  }

  /** Nothing has to be written for the route: the tracked one is as wanted, or another is and the tracked one goes. */
  ghost predicate Unwritten(routes: Routes, spec: RouteSpec, tracked: Id) {
    || (tracked in routes && RouteMatches(routes[tracked], spec))
    || (!InPlace(routes, spec, tracked) && HasMatch(routes - {tracked}, spec))
  }

  /** Below `limit`, only these two routes may differ. */
  ghost predicate OnlyTwoChange(before: Routes, after: Routes, limit: Id, a: Id, b: Id) {
    forall i :: i < limit && i != a && i != b ==>
      (i in before <==> i in after) && (i in before ==> after[i] == before[i])
  }

  /** The route was live under the wanted name before. */
  ghost predicate Adopted(before: Routes, spec: RouteSpec, id: Id) {
    id in before && before[id].name == spec.name
  }

  /** The routes once the tracked one is kept in place or gone. */
  ghost function Settled(routes: Routes, spec: RouteSpec, tracked: Id): Routes {
    if InPlace(routes, spec, tracked) then routes else routes - {tracked}
  }

  /** What the store holds and has counted. */
  datatype View = View(
    routes: Routes, nextId: Id, writes: nat, faults: nat, refusals: nat, clashes: nat, unique: bool)

  ghost function ViewOf(api: Api): View
    reads api
  {
    View(api.routes, api.nextId, api.writes, api.faults, api.refusals, api.clashes, api.namesUnique)
  }

  ghost predicate Later(before: View, after: View) {
    && before.nextId <= after.nextId && before.writes <= after.writes
    && before.faults <= after.faults && before.refusals <= after.refusals && before.clashes <= after.clashes
    && before.unique == after.unique
  }

  ghost predicate Positive(routes: Routes) {
    forall id :: id in routes ==> 0 < id
  }

  /** What one successful upsert of a route makes of the store. */
  ghost predicate Outcome(before: View, after: View, spec: RouteSpec, tracked: Id, id: Id, changed: bool) {
    && Later(before, after) && after.faults == before.faults && after.refusals == before.refusals
    && Positive(before.routes) && Positive(after.routes)
    && Retagged(before.routes, after.routes, spec.policyIds)
    && NoneRevived(before.routes, after.routes, before.nextId)
    && OnlyTwoChange(before.routes, after.routes, before.nextId, tracked, id)
    && id < after.nextId && id in after.routes && RouteMatches(after.routes[id], spec)
    && (id == tracked <==> InPlace(before.routes, spec, tracked)) && (id == tracked || tracked !in after.routes)
    && (forall x :: x in after.routes && before.nextId <= x ==> x == id)
    && (before.unique ==> NamesUnique(before.routes))
    && (before.unique && id != tracked && NameTaken(before.routes - {tracked}, spec.name, 0) ==>
          after.clashes > before.clashes)
    && (id != tracked ==>
          if before.clashes == after.clashes then before.nextId <= id else Adopted(before.routes, spec, id))
    && (before.clashes == after.clashes ==> (changed <==> after.writes > before.writes))
    && (!changed ==> (id != tracked <==> after.clashes > before.clashes))
    && (!changed ==> Unwritten(before.routes, spec, tracked))
    && (!changed ==> after.routes == Settled(before.routes, spec, tracked))
    && (tracked in before.routes && RouteMatches(before.routes[tracked], spec) ==>
          after.writes == before.writes && after.routes == before.routes && after.clashes == before.clashes && !changed)
  }

  /** The route to be compared with the wanted one: the tracked one in place, or after a clash one of that name. */
  ghost predicate Candidate(before: View, mid: View, spec: RouteSpec, tracked: Id, id: Id) {
    && Later(before, mid) && mid.faults == before.faults && mid.refusals == before.refusals
    && Positive(before.routes) && (before.unique ==> NamesUnique(before.routes))
    && (forall x :: x in before.routes ==> x < before.nextId) && mid.routes == Settled(before.routes, spec, tracked)
    && id in mid.routes && id < before.nextId
    && if InPlace(before.routes, spec, tracked)
       then id == tracked && mid.writes == before.writes && mid.clashes == before.clashes
       else mid.routes[id].name == spec.name && mid.writes > before.writes && mid.clashes > before.clashes
  }

  lemma CreatedOutcome(before: View, after: View, spec: RouteSpec, tracked: Id, route: Route)
    requires Later(before, after) && Positive(before.routes) && tracked < before.nextId < after.nextId
    requires after.routes == (before.routes - {tracked})[before.nextId := route] && RouteMatches(route, spec)
    requires !InPlace(before.routes, spec, tracked) && after.clashes == before.clashes && after.writes > before.writes
    requires after.faults == before.faults && after.refusals == before.refusals
    requires before.unique ==>
               NamesUnique(before.routes) && !NameTaken(before.routes - {tracked}, spec.name, 0)
    requires forall x :: x in before.routes ==> x < before.nextId
    ensures Outcome(before, after, spec, tracked, before.nextId, true)
  {
  }

  lemma KeptOutcome(before: View, mid: View, spec: RouteSpec, tracked: Id, id: Id)
    requires Candidate(before, mid, spec, tracked, id) && RouteMatches(mid.routes[id], spec)
    ensures Outcome(before, mid, spec, tracked, id, false)
  {
  }

  lemma UpdatedOutcome(before: View, mid: View, after: View, spec: RouteSpec, tracked: Id, id: Id)
    requires Candidate(before, mid, spec, tracked, id) && !RouteMatches(mid.routes[id], spec)
    requires after.routes == mid.routes[id := spec.In(mid.routes[id].ns)] && Later(mid, after)
    requires after.writes > mid.writes && after.clashes == mid.clashes
    requires after.faults == mid.faults && after.refusals == mid.refusals
    ensures Outcome(before, after, spec, tracked, id, true)
  {
  }

  /** At most a fault was counted. */
  ghost predicate OnlyFaults(before: View, after: View) {
    after == before.(faults := after.faults)
  }

  /** The tracked route in place, or a created one, or after a clash the one of that name. */
  method Locate(api: Api, spec: RouteSpec, tracked: Id)
    returns (failed: bool, created: bool, id: Id, existing: Option<Route>)
    requires api.Valid() && tracked < api.nextId
    modifies api`routes, api`nextId, api`writes, api`faults, api`clashes
    ensures api.Valid() && Later(old(ViewOf(api)), ViewOf(api)) && api.refusals == old(api.refusals)
    ensures Retagged(old(api.routes), api.routes, spec.policyIds)
    ensures NoneRevived(old(api.routes), api.routes, old(api.nextId))
    ensures OnlyChanges(old(api.routes), api.routes, old(api.nextId), tracked)
    ensures !failed && created ==> Outcome(old(ViewOf(api)), ViewOf(api), spec, tracked, id, true)
    ensures !failed && !created ==>
              Candidate(old(ViewOf(api)), ViewOf(api), spec, tracked, id) && existing == Some(api.routes[id])
    ensures api.namesUnique && api.faults == old(api.faults) && old(Unwritten(api.routes, spec, tracked)) ==>
              !failed && !created && RouteMatches(api.routes[id], spec)
    ensures !failed && created ==> api.clashes == old(api.clashes)
    ensures old(InPlace(api.routes, spec, tracked)) ==> OnlyFaults(old(ViewOf(api)), ViewOf(api)) && !created
    ensures api.namesUnique && api.faults == old(api.faults) ==>
              (failed <==> !old(InPlace(api.routes, spec, tracked)) && Foreign(old(api.routes) - {tracked}, spec.name))
    ensures failed && api.faults == old(api.faults) ==>
              api.clashes > old(api.clashes) && api.routes == Settled(old(api.routes), spec, tracked)
    ensures failed ==> !created
  {
    created, id := false, tracked;
    ghost var before := ViewOf(api);
    failed, existing := FindTracked(api, spec, tracked);
    if failed || existing.Some? { return; }
    failed, created, id := CreateOrAdopt(api, spec);
    if failed { return; }
    existing := Some(api.routes[id]);
    if created { CreatedOutcome(before, ViewOf(api), spec, tracked, existing.value); }
  }

  /** A failure without a fault has its reason in the store. */
  ghost predicate Explained(start: View, now: View, failed: bool) {
    && (failed && now.faults == start.faults ==> now.clashes > start.clashes || now.refusals > start.refusals)
    && (!start.unique ==> now.refusals == start.refusals) && (!failed ==> now.faults == start.faults)
  }

  /** One turn that succeeded: its name could be had, and a route that needs no write got none. */
  ghost predicate Succeeds(before: View, after: View, spec: RouteSpec, tracked: Id, id: Id, changed: bool) {
    && Outcome(before, after, spec, tracked, id, changed)
    && (before.unique ==> !Blocked(before.routes, spec.ns, spec.name, tracked))
    && (before.unique && Unwritten(before.routes, spec, tracked) ==> !changed)
  }

  /** One turn that failed. */
  ghost predicate Fails(before: View, after: View, spec: RouteSpec, tracked: Id) {
    && Later(before, after) && Explained(before, after, true)
    && (tracked in before.routes && RouteMatches(before.routes[tracked], spec) ==> OnlyFaults(before, after))
    && (after.faults == before.faults ==> after.routes == Settled(before.routes, spec, tracked))
    && (before.unique && after.faults == before.faults ==>
          Blocked(before.routes, spec.ns, spec.name, tracked) && !Unwritten(before.routes, spec, tracked))
  }

  /**
   Besides the outcome on success: in a store with unique names, and unless a call fails, a route
   is refused exactly when its name cannot be had, and then at most the tracked route in another
   namespace is gone; and it is reported unchanged exactly when nothing has to be written for it.
   */
  method UpsertOneRoute(api: Api, spec: RouteSpec, tracked: Id)
    returns (failed: bool, changed: bool, id: Id)
    requires api.Valid() && tracked < api.nextId
    modifies api`routes, api`nextId, api`writes, api`faults, api`refusals, api`clashes
    ensures api.Valid() && Later(old(ViewOf(api)), ViewOf(api))
    ensures Retagged(old(api.routes), api.routes, spec.policyIds)
    ensures NoneRevived(old(api.routes), api.routes, old(api.nextId))
    ensures api.clashes == old(api.clashes) ==> OnlyChanges(old(api.routes), api.routes, old(api.nextId), tracked)
    ensures api.namesUnique && api.faults == old(api.faults) ==>
              (failed <==> old(Blocked(api.routes, spec.ns, spec.name, tracked)))
    ensures if failed then Fails(old(ViewOf(api)), ViewOf(api), spec, tracked) && !changed
            else Succeeds(old(ViewOf(api)), ViewOf(api), spec, tracked, id, changed)
  {
    ghost var before := ViewOf(api);
    var existing;
    failed, changed, id, existing := Locate(api, spec, tracked);
    if failed || changed { return; }
    ghost var mid := ViewOf(api);
    if api.namesUnique { CandidateName(before, mid, spec, tracked, id); }

    // an adopted route that needs no update is reported as unchanged
    if RouteMatches(existing.value, spec) {
      KeptOutcome(before, mid, spec, tracked, id);
      return;
    }
    failed := api.UpdateRoute(id, spec);
    changed := !failed;
    if !failed { UpdatedOutcome(before, mid, ViewOf(api), spec, tracked, id); }
  }

  /** An adopted route has the name already; one in place has it only if no other route does. */
  lemma CandidateName(before: View, mid: View, spec: RouteSpec, tracked: Id, id: Id)
    requires Candidate(before, mid, spec, tracked, id) && before.unique
    ensures NameTaken(mid.routes, spec.name, id) <==>
            InPlace(before.routes, spec, tracked) && NameTaken(before.routes, spec.name, tracked)
    ensures NameTaken(mid.routes, spec.name, id) ==> !RouteMatches(mid.routes[id], spec)
  {
  }

  // ----- the routes of one object -----

  /** A route-id annotation, by what follows its prefix: a decimal index, or anything else. */
  datatype RouteKey = Index(i: nat) | Other(suffix: string)

  type RouteIds = map<RouteKey, Id>

  function IdAt(ids: RouteIds, k: RouteKey): Id {
    if k in ids then ids[k] else 0
  }

  ghost predicate Known(ids: RouteIds, limit: Id) {
    forall k :: k in ids ==> ids[k] < limit
  }

  /** No two annotations name the same route. */
  ghost predicate Distinct(ids: RouteIds) {
    forall a, b :: a in ids && b in ids && a != b && ids[a] == ids[b] ==> ids[a] == 0
  }

  predicate Below(k: RouteKey, n: nat) {
    k.Index? && k.i < n
  }

  /** Exactly the annotations of the first `n` indexes may have been set. */
  ghost predicate SetBelow(before: RouteIds, after: RouteIds, n: nat) {
    && (forall k :: k in after <==> k in before || Below(k, n))
    && (forall k :: k in before && !Below(k, n) ==> after[k] == before[k])
  }

  /** The first `n` annotations name live routes that are the wanted ones. */
  ghost predicate Mirrors(routes: Routes, ids: RouteIds, specs: seq<RouteSpec>, n: nat)
    requires n <= |specs|
  {
    forall j :: 0 <= j < n ==>
      Index(j) in ids && ids[Index(j)] in routes && RouteMatches(routes[ids[Index(j)]], specs[j])
  }

  /** Each of the first `n` annotations kept its route, or the route it named is gone. */
  ghost predicate KeptOrGone(routes: Routes, before: RouteIds, after: RouteIds, n: nat) {
    forall j :: 0 <= j < n ==>
      IdAt(before, Index(j)) == IdAt(after, Index(j)) || IdAt(before, Index(j)) !in routes
  }

  /** If it is live at all, the route carries exactly these policies. */
  ghost predicate Tagged(routes: Routes, id: Id, policyIds: seq<Id>) {
    id in routes ==> routes[id].policyIds == policyIds
  }

  ghost predicate TaggedBelow(routes: Routes, ids: RouteIds, n: nat, policyIds: seq<Id>) {
    forall j :: 0 <= j < n ==> Tagged(routes, IdAt(ids, Index(j)), policyIds)
  }

  // ----- distinct ids, with or without adoption -----

  ghost predicate NamesDiffer(names: seq<string>) {
    forall j, k :: 0 <= j < k < |names| ==> names[j] != names[k]
  }

  /**
   The annotation `k`, which has its turn after index `j` or is surplus, tracks a live route that has
   the name wanted at `j`, while the route tracked at `j` cannot be updated in place: index `j` would
   adopt the route of `k`.
   */
  ghost predicate Lends(routes: Routes, ids: RouteIds, names: seq<string>, ns: Option<string>, j: nat, k: RouteKey)
    requires j < |names|
  {
    && k in ids && !Below(k, j + 1) && ids[k] in routes && routes[ids[k]].name == names[j]
    && !InNamespace(routes, ns, IdAt(ids, Index(j)))
  }

  /** Wanted names differ, and no index from `from` on would adopt the route of another annotation. */
  ghost predicate Untangled(routes: Routes, ids: RouteIds, names: seq<string>, ns: Option<string>, from: nat) {
    NamesDiffer(names) && forall j, k :: from <= j < |names| ==> !Lends(routes, ids, names, ns, j, k)
  }

  /** Index `a` and the annotation `k` name one route, and it is live in the wanted namespace. */
  ghost predicate SharesWith(routes: Routes, ids: RouteIds, ns: Option<string>, a: nat, k: RouteKey) {
    Index(a) in ids && k in ids && k != Index(a) && ids[k] == ids[Index(a)] && InNamespace(routes, ns, ids[k])
  }

  /** One of the first `n` annotations shares its route with another annotation. */
  ghost predicate Shared(routes: Routes, ids: RouteIds, ns: Option<string>, n: nat) {
    exists a, k :: 0 <= a < n && SharesWith(routes, ids, ns, a, k)
  }

  ghost predicate Name(specs: seq<RouteSpec>, names: seq<string>) {
    |names| == |specs| && forall j :: 0 <= j < |specs| ==> names[j] == specs[j].name
  }

  /** The id is the annotation's own, newly handed out, or named by no other annotation. */
  ghost predicate Unshared(ids: RouteIds, k: RouteKey, id: Id, limit: Id) {
    id == IdAt(ids, k) || limit <= id || forall key :: key in ids && key != k ==> ids[key] != id
  }

  /** The annotations name different routes, and the first `n` of them the wanted ones. */
  ghost predicate Good(routes: Routes, ids: RouteIds, specs: seq<RouteSpec>, n: nat)
    requires n <= |specs|
  {
    Distinct(ids) && Mirrors(routes, ids, specs, n)
  }

  /** When nothing lends its route, what is adopted is nobody's. */
  lemma AdoptedIsUnshared(
    routes: Routes, ids: RouteIds, specs: seq<RouteSpec>, names: seq<string>, ns: Option<string>, i: nat, id: Id,
    limit: Id)
    requires i < |specs| && Name(specs, names) && Untangled(routes, ids, names, ns, i) && Good(routes, ids, specs, i)
    requires Adopted(routes, specs[i], id) && !InNamespace(routes, ns, IdAt(ids, Index(i)))
    ensures Unshared(ids, Index(i), id, limit)
  {
    forall key | key in ids && key != Index(i) ensures ids[key] != id {
      if Below(key, i) {
        assert routes[ids[Index(key.i)]].name == specs[key.i].name;
      } else {
        assert !Lends(routes, ids, names, ns, i, key);
      }
    }
  }

  lemma StepKeepsDistinct(ids: RouteIds, k: RouteKey, id: Id, limit: Id)
    requires Distinct(ids) && Known(ids, limit) && Unshared(ids, k, id, limit)
    ensures Distinct(ids[k := id])
  {
  }

  lemma StepKeepsMirrors(
    before: Routes, after: Routes, limit: Id, ids: RouteIds, id: Id, specs: seq<RouteSpec>, i: nat)
    requires i < |specs| && Good(before, ids, specs, i)
    requires Known(ids, limit) && (forall j :: j in before ==> 0 < j) && Unshared(ids, Index(i), id, limit)
    requires OnlyTwoChange(before, after, limit, IdAt(ids, Index(i)), id)
    requires id in after && RouteMatches(after[id], specs[i])
    ensures Mirrors(after, ids[Index(i) := id], specs, i + 1)
  {
    forall j | 0 <= j < i
      ensures ids[Index(j)] in after && RouteMatches(after[ids[Index(j)]], specs[j])
    {
      assert Index(j) in ids && Index(j) != Index(i);
      assert ids[Index(j)] != IdAt(ids, Index(i)) && ids[Index(j)] != id;
    }
  }

  // ----- when nothing is written -----

  /** Only routes outside the wanted namespace were lost. */
  ghost predicate Trimmed(before: Routes, after: Routes, ns: Option<string>) {
    && (forall x :: x in after ==> x in before && after[x] == before[x])
    && (forall x :: x in before && x !in after ==> ns.Some? && before[x].ns != ns.value)
  }

  ghost predicate AllUnwritten(routes: Routes, ids: RouteIds, specs: seq<RouteSpec>, n: nat)
    requires n <= |specs|
  {
    forall j :: 0 <= j < n ==> Unwritten(routes, specs[j], IdAt(ids, Index(j)))
  }

  /** So far every route was as wanted, where its annotation or its name says. */
  ghost predicate Untouched(
    start: Routes, now: Routes, ids: RouteIds, out: RouteIds, specs: seq<RouteSpec>, n: nat, ns: Option<string>)
    requires n <= |specs|
  {
    Trimmed(start, now, ns) && AllUnwritten(start, ids, specs, n) && Mirrors(now, out, specs, n)
  }

  /** One of the first `n` annotations names another route now. */
  ghost predicate Moved(ids: RouteIds, out: RouteIds, n: nat) {
    exists j :: 0 <= j < n && IdAt(ids, Index(j)) != IdAt(out, Index(j))
  }

  lemma UnwrittenTrimmed(before: Routes, after: Routes, spec: RouteSpec, tracked: Id)
    requires Trimmed(before, after, spec.ns)
    ensures Unwritten(after, spec, tracked) <==> Unwritten(before, spec, tracked)
  {
    assert InPlace(after, spec, tracked) <==> InPlace(before, spec, tracked);
    forall m | m in before && RouteMatches(before[m], spec) ensures m in after && after[m] == before[m] {
    }
    if HasMatch(before - {tracked}, spec) {
      var m :| m in before - {tracked} && RouteMatches(before[m], spec);
      assert m in after - {tracked};
    }
    if HasMatch(after - {tracked}, spec) {
      var m :| m in after - {tracked} && RouteMatches(after[m], spec);
      assert m in before - {tracked};
    }
  }

  lemma TrimmedFurther(start: Routes, before: Routes, spec: RouteSpec, tracked: Id)
    requires Trimmed(start, before, spec.ns)
    ensures Trimmed(start, Settled(before, spec, tracked), spec.ns)
  {
  }

  /** A route that is as wanted is in the wanted namespace, and so never trimmed. */
  lemma MatchesStay(before: Routes, spec: RouteSpec, tracked: Id, other: RouteSpec, x: Id)
    requires x in before && RouteMatches(before[x], other) && other.ns == spec.ns
    ensures x in Settled(before, spec, tracked)
  {
  }

  lemma StepUntouched(
    start: Routes, before: Routes, ids: RouteIds, out: RouteIds, specs: seq<RouteSpec>, i: nat, ns: Option<string>,
    id: Id)
    requires i < |specs| && (forall j :: 0 <= j <= i ==> specs[j].ns == ns)
    requires SetBelow(ids, out, i) && Untouched(start, before, ids, out, specs, i, ns)
    requires Unwritten(before, specs[i], IdAt(out, Index(i)))
    requires var after := Settled(before, specs[i], IdAt(out, Index(i)));
             id in after && RouteMatches(after[id], specs[i])
    ensures Untouched(start, Settled(before, specs[i], IdAt(out, Index(i))), ids, out[Index(i) := id], specs, i + 1, ns)
  {
    var tracked := IdAt(out, Index(i));
    assert tracked == IdAt(ids, Index(i));
    UnwrittenTrimmed(start, before, specs[i], tracked);
    TrimmedFurther(start, before, specs[i], tracked);
    forall j | 0 <= j < i ensures Index(j) in out && out[Index(j)] in Settled(before, specs[i], tracked) {
      MatchesStay(before, specs[i], tracked, specs[j], out[Index(j)]);
    }
  }

  lemma StepMoves(ids: RouteIds, out: RouteIds, i: nat, id: Id)
    requires SetBelow(ids, out, i)
    ensures Moved(ids, out[Index(i) := id], i + 1) <==> Moved(ids, out, i) || id != IdAt(out, Index(i))
  {
    var next := out[Index(i) := id];
    assert IdAt(out, Index(i)) == IdAt(ids, Index(i));
    if Moved(ids, out, i) {
      var j :| 0 <= j < i && IdAt(ids, Index(j)) != IdAt(out, Index(j));
      assert IdAt(next, Index(j)) == IdAt(out, Index(j));
    }
    if id != IdAt(out, Index(i)) {
      assert IdAt(next, Index(i)) == id;
    }
    if Moved(ids, next, i + 1) && id == IdAt(out, Index(i)) {
      var j :| 0 <= j < i + 1 && IdAt(ids, Index(j)) != IdAt(next, Index(j));
      assert j < i && IdAt(out, Index(j)) == IdAt(next, Index(j));
    }
  }

  // ----- the loop over the wanted routes -----

  lemma StepSetsBelow(ids: RouteIds, out: RouteIds, i: nat, id: Id)
    requires SetBelow(ids, out, i)
    ensures SetBelow(ids, out[Index(i) := id], i + 1)
  {
  }

  lemma StepKeepsTagged(
    before: Routes, after: Routes, ids: RouteIds, out: RouteIds, i: nat, id: Id, policyIds: seq<Id>)
    requires SetBelow(ids, out, i)
    requires TaggedBelow(before, ids, i, policyIds) && TaggedBelow(before, out, i, policyIds)
    requires Retagged(before, after, policyIds)
    requires id in after && after[id].policyIds == policyIds
    requires id == IdAt(out, Index(i)) || IdAt(out, Index(i)) !in after
    ensures TaggedBelow(after, ids, i + 1, policyIds) && TaggedBelow(after, out[Index(i) := id], i + 1, policyIds)
  {
  }

  lemma StepKeepsOrLoses(
    before: Routes, after: Routes, limit: Id, ids: RouteIds, out: RouteIds, i: nat, id: Id)
    requires SetBelow(ids, out, i) && Known(ids, limit) && 0 < limit && KeptOrGone(before, ids, out, i)
    requires NoneRevived(before, after, limit)
    requires id == IdAt(out, Index(i)) || IdAt(out, Index(i)) !in after
    ensures KeptOrGone(after, ids, out[Index(i) := id], i + 1)
  {
  }

  /** The wanted routes of one object, with what they have in common, and the annotations it begins with. */
  datatype Job = Job(
    specs: seq<RouteSpec>, ids: RouteIds, policyIds: seq<Id>, ns: Option<string>, names: seq<string>)
  {
    ghost predicate Sound() {
      Name(specs, names) && forall j :: 0 <= j < |specs| ==> specs[j].policyIds == policyIds && specs[j].ns == ns
    }

    ghost predicate Clear(view: View, ids: RouteIds, from: nat) {
      Untangled(view.routes, ids, names, ns, from)
    }
  }

  // ----- invariants of the loop, each with its step -----

  /** Annotations are set below `n`; what they named is named still or gone; what they name has its policies. */
  ghost predicate Tidy(job: Job, now: View, out: RouteIds, n: nat) {
    && SetBelow(job.ids, out, n) && Known(out, now.nextId) && KeptOrGone(now.routes, job.ids, out, n)
    && TaggedBelow(now.routes, job.ids, n, job.policyIds) && TaggedBelow(now.routes, out, n, job.policyIds)
  }

  /** Ids were distinct, and there was no clash or no index adopts the route of another annotation. */
  ghost predicate Orderly(routes: Routes, ids: RouteIds, names: seq<string>, ns: Option<string>, clashed: bool) {
    Distinct(ids) && (!clashed || Untangled(routes, ids, names, ns, 0))
  }

  /** From distinct ids: good so far and untangled ahead, or tangled ahead, or two annotations share a route. */
  ghost predicate InOrder(job: Job, start: View, now: View, out: RouteIds, n: nat)
    requires n <= |job.specs|
  {
    Distinct(job.ids) ==>
      && (now.clashes == start.clashes ==> Good(now.routes, out, job.specs, n))
      && (job.Clear(start, job.ids, 0) ==>
            Good(now.routes, out, job.specs, n) && job.Clear(now, out, n))
      && (start.unique && !job.Clear(start, job.ids, 0) ==>
            || Shared(now.routes, out, job.ns, n)
            || (Good(now.routes, out, job.specs, n) && !job.Clear(now, out, n)))
  }

  /** If all was as wanted, nothing happened. */
  ghost predicate Idle(job: Job, start: View, now: View, out: RouteIds, changed: bool) {
    Mirrors(start.routes, job.ids, job.specs, |job.specs|) ==>
      && now.writes == start.writes && now.routes == start.routes && now.clashes == start.clashes
      && !changed && out == job.ids
  }

  /** Adopting keeps annotations good unless the adopted route is another's; then the two share it. */
  lemma StepGoodOrShared(before: View, after: View, job: Job, out: RouteIds, id: Id, i: nat, changed: bool)
    requires job.Sound() && i < |job.specs| && Known(out, before.nextId) && Good(before.routes, out, job.specs, i)
    requires Outcome(before, after, job.specs[i], IdAt(out, Index(i)), id, changed)
    ensures if Unshared(out, Index(i), id, before.nextId) then Good(after.routes, out[Index(i) := id], job.specs, i + 1)
            else Shared(after.routes, out[Index(i) := id], job.ns, i + 1)
  {
    if Unshared(out, Index(i), id, before.nextId) {
      StepKeepsDistinct(out, Index(i), id, before.nextId);
      StepKeepsMirrors(before.routes, after.routes, before.nextId, out, id, job.specs, i);
    } else {
      var k :| k in out && k != Index(i) && out[k] == id;
      assert SharesWith(after.routes, out[Index(i) := id], job.ns, i, k);
    }
  }

  /** A shared route stays shared. */
  lemma StepStaysShared(before: View, after: View, job: Job, out: RouteIds, id: Id, i: nat, changed: bool)
    requires job.Sound() && i < |job.specs| && Known(out, before.nextId) && Shared(before.routes, out, job.ns, i)
    requires Outcome(before, after, job.specs[i], IdAt(out, Index(i)), id, changed)
    ensures Shared(after.routes, out[Index(i) := id], job.ns, i + 1)
  {
    var a: nat, k :| a < i && SharesWith(before.routes, out, job.ns, a, k);
    assert SharesWith(after.routes, out[Index(i) := id], job.ns, a, k);
  }

  /** A route that neither the turn's annotation tracks nor the turn returns is as before. */
  lemma OthersStay(before: View, after: View, job: Job, out: RouteIds, id: Id, i: nat, changed: bool, k: RouteKey)
    requires job.Sound() && i < |job.specs| && Known(out, before.nextId)
    requires Distinct(out) && Distinct(out[Index(i) := id]) && k != Index(i)
    requires Outcome(before, after, job.specs[i], IdAt(out, Index(i)), id, changed)
    ensures IdAt(out, k) in before.routes <==> IdAt(out, k) in after.routes
    ensures IdAt(out, k) in before.routes ==> after.routes[IdAt(out, k)] == before.routes[IdAt(out, k)]
  {
    var next := out[Index(i) := id];
    assert k in out ==> next[k] == out[k] && next[Index(i)] == id;
  }

  /** As long as ids stay distinct, a turn does not change what lies ahead. */
  lemma StepLends(
    before: View, after: View, job: Job, out: RouteIds, id: Id, i: nat, changed: bool, j: nat, k: RouteKey)
    requires job.Sound() && i < j < |job.specs| && Known(out, before.nextId)
    requires Distinct(out) && Distinct(out[Index(i) := id])
    requires Outcome(before, after, job.specs[i], IdAt(out, Index(i)), id, changed)
    ensures Lends(before.routes, out, job.names, job.ns, j, k) <==>
            Lends(after.routes, out[Index(i) := id], job.names, job.ns, j, k)
  {
    if !Below(k, j + 1) {
      OthersStay(before, after, job, out, id, i, changed, k);
      OthersStay(before, after, job, out, id, i, changed, Index(j));
    }
  }

  lemma StepUntangled(before: View, after: View, job: Job, out: RouteIds, id: Id, i: nat, changed: bool)
    requires job.Sound() && i < |job.specs| && Known(out, before.nextId) && Good(before.routes, out, job.specs, i)
    requires Outcome(before, after, job.specs[i], IdAt(out, Index(i)), id, changed)
    requires job.Clear(before, out, i)
    ensures Good(after.routes, out[Index(i) := id], job.specs, i + 1)
    ensures job.Clear(after, out[Index(i) := id], i + 1)
  {
    if id != IdAt(out, Index(i)) && after.clashes > before.clashes {
      AdoptedIsUnshared(before.routes, out, job.specs, job.names, job.ns, i, id, before.nextId);
    }
    StepGoodOrShared(before, after, job, out, id, i, changed);
    var next := out[Index(i) := id];
    forall j: nat, k | i < j < |job.names| ensures !Lends(after.routes, next, job.names, job.ns, j, k) {
      StepLends(before, after, job, out, id, i, changed, j, k);
      assert !Lends(before.routes, out, job.names, job.ns, j, k);
    }
  }

  /** In a store with unique names, the route lent to this index is adopted by it. */
  lemma LentIsAdopted(before: View, after: View, job: Job, out: RouteIds, id: Id, i: nat, changed: bool, k: RouteKey)
    requires job.Sound() && i < |job.specs| && Known(out, before.nextId) && Distinct(out) && before.unique
    requires Outcome(before, after, job.specs[i], IdAt(out, Index(i)), id, changed)
    requires Lends(before.routes, out, job.names, job.ns, i, k)
    ensures id == out[k] && !Unshared(out, Index(i), id, before.nextId)
  {
    var tracked := IdAt(out, Index(i));
    assert out[k] in before.routes - {tracked} && out[k] != 0;
    assert NameTaken(before.routes - {tracked}, job.specs[i].name, 0);
  }

  lemma StepTangled(before: View, after: View, job: Job, out: RouteIds, id: Id, i: nat, changed: bool)
    requires job.Sound() && i < |job.specs| && Known(out, before.nextId) && Good(before.routes, out, job.specs, i)
    requires Outcome(before, after, job.specs[i], IdAt(out, Index(i)), id, changed)
    requires before.unique && !job.Clear(before, out, i)
    ensures || Shared(after.routes, out[Index(i) := id], job.ns, i + 1)
            || (Good(after.routes, out[Index(i) := id], job.specs, i + 1)
                && !job.Clear(after, out[Index(i) := id], i + 1))
  {
    StepGoodOrShared(before, after, job, out, id, i, changed);
    if Unshared(out, Index(i), id, before.nextId) && NamesDiffer(job.names) {
      var j: nat, k :| i <= j < |job.names| && Lends(before.routes, out, job.names, job.ns, j, k);
      if j == i {
        LentIsAdopted(before, after, job, out, id, i, changed, k);
        assert false;
      } else {
        StepLends(before, after, job, out, id, i, changed, j, k);
      }
    }
  }

  lemma StepKeepsOrder(
    job: Job, start: View, before: View, after: View, out: RouteIds, i: nat, id: Id, changed: bool)
    requires job.Sound() && i < |job.specs| && Known(out, before.nextId) && Later(start, before)
    requires InOrder(job, start, before, out, i)
    requires Outcome(before, after, job.specs[i], IdAt(out, Index(i)), id, changed)
    ensures InOrder(job, start, after, out[Index(i) := id], i + 1)
  {
    if Distinct(job.ids) {
      if after.clashes == start.clashes {
        StepGoodOrShared(before, after, job, out, id, i, changed);
      }
      if job.Clear(start, job.ids, 0) {
        StepUntangled(before, after, job, out, id, i, changed);
      } else if start.unique && Shared(before.routes, out, job.ns, i) {
        StepStaysShared(before, after, job, out, id, i, changed);
      } else if start.unique {
        StepTangled(before, after, job, out, id, i, changed);
      }
    }
  }

  /** Once every index had its turn, good annotations in a store with unique names are untangled. */
  lemma GoodIsUntangled(job: Job, now: View, out: RouteIds)
    requires job.Sound() && Good(now.routes, out, job.specs, |job.specs|) && NamesUnique(now.routes)
    requires Positive(now.routes)
    ensures job.Clear(now, out, |job.specs|)
  {
    forall j, k | 0 <= j < k < |job.names| ensures job.names[j] != job.names[k] {
      assert out[Index(j)] in now.routes && out[Index(k)] in now.routes && Index(j) != Index(k);
    }
  }

  // ----- names that cannot be had -----

  ghost predicate TrackedBelow(ids: RouteIds, x: Id, n: nat) {
    exists a :: 0 <= a < n && IdAt(ids, Index(a)) == x
  }

  /** The routes that none of the first `n` annotations tracks. */
  ghost function Unhandled(routes: Routes, ids: RouteIds, n: nat): Routes {
    map x | x in routes && !TrackedBelow(ids, x, n) :: routes[x]
  }

  /** When index `j` has its turn, its name cannot be had. */
  ghost predicate BlockedAt(routes: Routes, ids: RouteIds, names: seq<string>, ns: Option<string>, j: nat)
    requires j < |names|
  {
    Blocked(Unhandled(routes, ids, j), ns, names[j], IdAt(ids, Index(j)))
  }

  ghost predicate AnyBlocked(routes: Routes, ids: RouteIds, names: seq<string>, ns: Option<string>) {
    exists j :: 0 <= j < |names| && BlockedAt(routes, ids, names, ns, j)
  }

  /** None of the first `n` names is blocked. */
  ghost predicate NoneBlocked(routes: Routes, ids: RouteIds, names: seq<string>, ns: Option<string>, n: nat)
    requires n <= |names|
  {
    n == 0 || (NoneBlocked(routes, ids, names, ns, n - 1) && !BlockedAt(routes, ids, names, ns, n - 1))
  }

  lemma {:induction false} NoneIsBlocked(
    routes: Routes, ids: RouteIds, names: seq<string>, ns: Option<string>, n: nat, j: nat)
    requires j < n <= |names| && NoneBlocked(routes, ids, names, ns, n)
    ensures !BlockedAt(routes, ids, names, ns, j)
  {
    if j < n - 1 {
      NoneIsBlocked(routes, ids, names, ns, n - 1, j);
    }
  }

  lemma NoneBlockedAtAll(routes: Routes, ids: RouteIds, names: seq<string>, ns: Option<string>)
    requires NoneBlocked(routes, ids, names, ns, |names|)
    ensures !AnyBlocked(routes, ids, names, ns)
  {
    forall j: nat | j < |names| ensures !BlockedAt(routes, ids, names, ns, j) {
      NoneIsBlocked(routes, ids, names, ns, |names|, j);
    }
  }

  /** The first annotations tracked the route, or do so now. */
  ghost predicate Handled(ids: RouteIds, out: RouteIds, x: Id, n: nat) {
    TrackedBelow(ids, x, n) || TrackedBelow(out, x, n)
  }

  /** Routes not handled are as at the start, and what is handled comes from there under its name, or is new. */
  ghost predicate Traced(job: Job, start: View, now: View, out: RouteIds, n: nat)
    requires n <= |job.names|
  {
    && (forall x: Id :: x < start.nextId && !Handled(job.ids, out, x, n) ==>
          (x in start.routes <==> x in now.routes) && (x in start.routes ==> now.routes[x] == start.routes[x]))
    && (forall x :: x in now.routes && start.nextId <= x ==> TrackedBelow(out, x, n))
    && (forall a :: 0 <= a < n ==> ComesFrom(job, start, a, IdAt(out, Index(a))))
  }

  ghost predicate ComesFrom(job: Job, start: View, a: nat, x: Id)
    requires a < |job.names|
  {
    || x == IdAt(job.ids, Index(a)) || start.nextId <= x
    || (x in start.routes && start.routes[x].name == job.names[a])
  }

  lemma TrackedNext(ids: RouteIds, out: RouteIds, i: nat, id: Id, x: Id)
    requires SetBelow(ids, out, i)
    ensures TrackedBelow(ids, x, i + 1) <==> TrackedBelow(ids, x, i) || x == IdAt(ids, Index(i))
    ensures TrackedBelow(out[Index(i) := id], x, i + 1) <==> TrackedBelow(out, x, i) || x == id
  {
    var next := out[Index(i) := id];
    assert IdAt(next, Index(i)) == id && forall a :: 0 <= a < i ==> IdAt(next, Index(a)) == IdAt(out, Index(a));
  }

  /** A route that has the name wanted next was not handled. */
  lemma WantedIsUnhandled(job: Job, now: View, out: RouteIds, i: nat, x: Id)
    requires job.Sound() && i < |job.specs| && NamesDiffer(job.names) && Mirrors(now.routes, out, job.specs, i)
    requires KeptOrGone(now.routes, job.ids, out, i)
    requires x in now.routes && now.routes[x].name == job.names[i]
    ensures !Handled(job.ids, out, x, i)
  {
    forall a | 0 <= a < i ensures IdAt(out, Index(a)) != x && IdAt(job.ids, Index(a)) != x {
      assert Index(a) in out && now.routes[out[Index(a)]].name == job.names[a] && job.names[a] != job.names[i];
    }
  }

  /** At its turn, the routes that have the wanted name are those that had it at the start and were not handled. */
  lemma WantedAtTurn(job: Job, start: View, now: View, out: RouteIds, i: nat, x: Id)
    requires job.Sound() && i < |job.specs| && NamesDiffer(job.names) && Mirrors(now.routes, out, job.specs, i)
    requires KeptOrGone(now.routes, job.ids, out, i) && Traced(job, start, now, out, i)
    requires forall y :: y in start.routes ==> y < start.nextId
    ensures var rest := Unhandled(start.routes, job.ids, i);
            && ((x in now.routes && now.routes[x].name == job.names[i]) <==>
                (x in rest && rest[x].name == job.names[i]))
            && (x in rest && rest[x].name == job.names[i] ==> now.routes[x] == rest[x])
  {
    var rest := Unhandled(start.routes, job.ids, i);
    if x in now.routes && now.routes[x].name == job.names[i] {
      WantedIsUnhandled(job, now, out, i, x);
    }
    if x in rest && rest[x].name == job.names[i] {
      forall a | 0 <= a < i ensures IdAt(out, Index(a)) != x && IdAt(job.ids, Index(a)) != x {
        assert ComesFrom(job, start, a, IdAt(out, Index(a))) && job.names[a] != job.names[i];
        assert !TrackedBelow(job.ids, x, i);
      }
    }
  }

  /** The tracked route itself is as at the start when its turn comes. */
  lemma TrackedAtTurn(job: Job, start: View, now: View, out: RouteIds, i: nat)
    requires i < |job.specs| && |job.names| == |job.specs| && SetBelow(job.ids, out, i)
    requires Distinct(job.ids) && Distinct(out) && Mirrors(now.routes, out, job.specs, i)
    requires Traced(job, start, now, out, i) && Known(job.ids, start.nextId) && 0 < start.nextId
    requires Positive(start.routes) && Positive(now.routes)
    ensures IdAt(out, Index(i)) == IdAt(job.ids, Index(i))
    ensures InNamespace(now.routes, job.ns, IdAt(out, Index(i))) <==>
            InNamespace(Unhandled(start.routes, job.ids, i), job.ns, IdAt(job.ids, Index(i)))
  {
    var x := IdAt(job.ids, Index(i));
    if x != 0 {
      assert !TrackedBelow(job.ids, x, i) && !TrackedBelow(out, x, i);
    }
  }

  lemma BlockedAtTurn(job: Job, start: View, now: View, out: RouteIds, i: nat)
    requires job.Sound() && i < |job.specs| && Tidy(job, now, out, i) && Distinct(job.ids)
    requires NamesDiffer(job.names) && Good(now.routes, out, job.specs, i) && Traced(job, start, now, out, i)
    requires Known(job.ids, start.nextId) && 0 < start.nextId && Positive(start.routes) && Positive(now.routes)
    requires forall y :: y in start.routes ==> y < start.nextId
    ensures Blocked(now.routes, job.ns, job.names[i], IdAt(out, Index(i))) <==>
            BlockedAt(start.routes, job.ids, job.names, job.ns, i)
  {
    TrackedAtTurn(job, start, now, out, i);
    var rest, tracked, name := Unhandled(start.routes, job.ids, i), IdAt(job.ids, Index(i)), job.names[i];
    forall x: Id
      ensures (x in now.routes && now.routes[x].name == name) <==> (x in rest && rest[x].name == name)
      ensures x in rest && rest[x].name == name ==> now.routes[x] == rest[x]
    {
      WantedAtTurn(job, start, now, out, i, x);
    }
    SameTaken(now.routes, rest, name, tracked);
  }

  lemma SameTaken(a: Routes, b: Routes, name: string, tracked: Id)
    requires forall x :: (x in a && a[x].name == name) <==> (x in b && b[x].name == name)
    requires forall x :: x in b && b[x].name == name ==> a[x] == b[x]
    ensures NameTaken(a, name, tracked) <==> NameTaken(b, name, tracked)
    ensures Foreign(a - {tracked}, name) <==> Foreign(b - {tracked}, name)
  {
    if Foreign(a - {tracked}, name) {
      var x :| x in a - {tracked} && a[x].name == name && a[x].originator != ORIGINATOR;
      assert x in b - {tracked};
    }
    if Foreign(b - {tracked}, name) {
      var x :| x in b - {tracked} && b[x].name == name && b[x].originator != ORIGINATOR;
      assert x in a - {tracked};
    }
  }

  lemma StepStaysIdle(
    job: Job, start: View, before: View, after: View, out: RouteIds, i: nat, id: Id, soFar: bool, changed: bool)
    requires i < |job.specs| && Idle(job, start, before, out, soFar)
    requires Outcome(before, after, job.specs[i], IdAt(out, Index(i)), id, changed)
    ensures Idle(job, start, after, out[Index(i) := id], soFar || changed)
  {
  }

  /** Ids are distinct, and no index adopts the route of another annotation. */
  ghost predicate Tame(job: Job, start: View) {
    Distinct(job.ids) && job.Clear(start, job.ids, 0)
  }

  /** Ids in use were handed out. */
  ghost predicate HandedOut(view: View) {
    0 < view.nextId && forall x :: x in view.routes ==> 0 < x < view.nextId
  }

  /** The first wanted route can be updated in place but for its name, which another route has. */
  ghost predicate Stuck(routes: Routes, ids: RouteIds, names: seq<string>, ns: Option<string>) {
    && names != [] && InNamespace(routes, ns, IdAt(ids, Index(0)))
    && Blocked(routes, ns, names[0], IdAt(ids, Index(0)))
  }

  // ----- whole loops -----

  /** The turns taken so far, the last one outermost. */
  datatype Turns = Start(view: View) | Turn(earlier: Turns, id: Id, changed: bool, view: View) {
    ghost function First(): View {
      match this case Start(v) => v case Turn(e, _, _, _) => e.First()
    }

    ghost function Count(): nat {
      match this case Start(_) => 0 case Turn(e, _, _, _) => e.Count() + 1
    }

    ghost function Ids(ids: RouteIds): RouteIds {
      match this case Start(_) => ids case Turn(e, id, _, _) => e.Ids(ids)[Index(e.Count()) := id]
    }

    ghost predicate Changed() {
      match this case Start(_) => false case Turn(e, _, c, _) => e.Changed() || c
    }

    /** Each turn handled the next wanted route, and succeeded. */
    ghost predicate Succeed(job: Job)
      ensures Succeed(job) ==> Count() <= |job.specs|
    {
      match this
      case Start(v) => HandedOut(v) && Known(job.ids, v.nextId)
      case Turn(e, id, c, v) =>
        && e.Succeed(job) && e.Count() < |job.specs|
        && Succeeds(e.view, v, job.specs[e.Count()], IdAt(e.Ids(job.ids), Index(e.Count())), id, c)
    }
  }

  lemma {:induction false} TurnsAreLater(t: Turns, job: Job)
    requires t.Succeed(job)
    ensures HandedOut(t.First()) && Known(job.ids, t.First().nextId) && Positive(t.view.routes)
    ensures Later(t.First(), t.view) && t.view.faults == t.First().faults && t.view.refusals == t.First().refusals
  {
    if t.Turn? { TurnsAreLater(t.earlier, job); }
  }

  lemma {:induction false} TurnsSetBelow(t: Turns, job: Job)
    requires t.Succeed(job)
    ensures SetBelow(job.ids, t.Ids(job.ids), t.Count()) && Known(t.Ids(job.ids), t.view.nextId)
  {
    if t.Turn? {
      TurnsSetBelow(t.earlier, job);
      StepSetsBelow(job.ids, t.earlier.Ids(job.ids), t.earlier.Count(), t.id);
    }
  }

  lemma {:induction false} TurnsKeepOrLose(t: Turns, job: Job)
    requires t.Succeed(job)
    ensures KeptOrGone(t.view.routes, job.ids, t.Ids(job.ids), t.Count())
  {
    if t.Turn? {
      var e, out := t.earlier, t.earlier.Ids(job.ids);
      TurnsKeepOrLose(e, job);
      assert SetBelow(job.ids, out, e.Count()) by { TurnsSetBelow(e, job); }
      assert Known(job.ids, e.view.nextId) && 0 < e.view.nextId by { TurnsAreLater(e, job); }
      StepKeepsOrLoses(e.view.routes, t.view.routes, e.view.nextId, job.ids, out, e.Count(), t.id);
    }
  }

  lemma {:induction false} TurnsStayTagged(t: Turns, job: Job)
    requires job.Sound() && t.Succeed(job)
    ensures TaggedBelow(t.view.routes, job.ids, t.Count(), job.policyIds)
    ensures TaggedBelow(t.view.routes, t.Ids(job.ids), t.Count(), job.policyIds)
  {
    if t.Turn? {
      var e, out := t.earlier, t.earlier.Ids(job.ids);
      TurnsStayTagged(e, job);
      assert SetBelow(job.ids, out, e.Count()) by { TurnsSetBelow(e, job); }
      StepKeepsTagged(e.view.routes, t.view.routes, job.ids, out, e.Count(), t.id, job.policyIds);
    }
  }

  lemma TurnsStayTidy(t: Turns, job: Job)
    requires job.Sound() && t.Succeed(job)
    ensures Tidy(job, t.view, t.Ids(job.ids), t.Count())
  {
    TurnsSetBelow(t, job);
    TurnsKeepOrLose(t, job);
    TurnsStayTagged(t, job);
  }

  lemma {:induction false} TurnsKeepOrder(t: Turns, job: Job)
    requires job.Sound() && t.Succeed(job)
    ensures InOrder(job, t.First(), t.view, t.Ids(job.ids), t.Count())
  {
    if t.Turn? {
      var e, out := t.earlier, t.earlier.Ids(job.ids);
      TurnsKeepOrder(e, job);
      assert Known(out, e.view.nextId) by { TurnsStayTidy(e, job); }
      assert Later(t.First(), e.view) by { TurnsAreLater(e, job); }
      StepKeepsOrder(job, t.First(), e.view, t.view, out, e.Count(), t.id, t.changed);
    }
  }

  lemma {:induction false} TurnsCountWrites(t: Turns, job: Job)
    requires t.Succeed(job) && t.view.clashes == t.First().clashes
    ensures t.Changed() <==> t.view.writes > t.First().writes
  {
    if t.Turn? {
      TurnsAreLater(t.earlier, job);
      TurnsCountWrites(t.earlier, job);
    }
  }

  lemma {:induction false} TurnsStayUntouched(t: Turns, job: Job)
    requires job.Sound() && t.Succeed(job) && !t.Changed()
    ensures Untouched(t.First().routes, t.view.routes, job.ids, t.Ids(job.ids), job.specs, t.Count(), job.ns)
  {
    if t.Turn? {
      var e := t.earlier;
      TurnsStayTidy(e, job);
      TurnsStayUntouched(e, job);
      StepUntouched(e.First().routes, e.view.routes, job.ids, e.Ids(job.ids), job.specs, e.Count(), job.ns, t.id);
    }
  }

  /** Without a change, annotations move exactly after a clash. */
  lemma {:induction false} TurnsMove(t: Turns, job: Job)
    requires job.Sound() && t.Succeed(job) && !t.Changed()
    ensures Moved(job.ids, t.Ids(job.ids), t.Count()) <==> t.view.clashes > t.First().clashes
    ensures t.view.clashes == t.First().clashes ==> t.Ids(job.ids) == job.ids
  {
    if t.Turn? {
      var e := t.earlier;
      TurnsAreLater(e, job);
      TurnsStayTidy(e, job);
      TurnsMove(e, job);
      StepMoves(job.ids, e.Ids(job.ids), e.Count(), t.id);
    }
  }

  lemma {:induction false} TurnsStayIdle(t: Turns, job: Job)
    requires job.Sound() && t.Succeed(job)
    ensures Idle(job, t.First(), t.view, t.Ids(job.ids), t.Changed())
  {
    if t.Turn? {
      var e := t.earlier;
      TurnsStayIdle(e, job);
      StepStaysIdle(job, e.First(), e.view, t.view, e.Ids(job.ids), e.Count(), t.id, e.Changed(), t.changed);
    }
  }

  /** A route not handled is as at the start, and a new one is tracked. */
  lemma {:induction false} TurnsTraceRest(t: Turns, job: Job, x: Id)
    requires job.Sound() && t.Succeed(job)
    ensures x < t.First().nextId && !Handled(job.ids, t.Ids(job.ids), x, t.Count()) ==>
              && (x in t.First().routes <==> x in t.view.routes)
              && (x in t.First().routes ==> t.view.routes[x] == t.First().routes[x])
    ensures x in t.view.routes && t.First().nextId <= x ==> TrackedBelow(t.Ids(job.ids), x, t.Count())
  {
    TurnsAreLater(t, job);
    if t.Turn? {
      var e := t.earlier;
      TurnsAreLater(e, job);
      TurnsStayTidy(e, job);
      TurnsTraceRest(e, job, x);
      TrackedNext(job.ids, e.Ids(job.ids), e.Count(), t.id, x);
      assert x in t.view.routes && e.view.nextId <= x ==> x == t.id;
    }
  }

  /** What a turn returned comes from the start under its name, or is new. */
  lemma {:induction false} TurnsTraceIds(t: Turns, job: Job, a: nat)
    requires job.Sound() && t.Succeed(job) && Tame(job, t.First()) && a < t.Count()
    ensures ComesFrom(job, t.First(), a, IdAt(t.Ids(job.ids), Index(a)))
  {
    var e, out := t.earlier, t.earlier.Ids(job.ids);
    TurnsAreLater(e, job);
    TurnsStayTidy(e, job);
    if a < e.Count() {
      TurnsTraceIds(e, job, a);
    } else if t.id != IdAt(out, Index(a)) && t.view.clashes > e.view.clashes {
      TurnsKeepOrder(e, job);
      WantedIsUnhandled(job, e.view, out, a, t.id);
      TurnsTraceRest(e, job, t.id);
    }
  }

  lemma TurnsAreTraced(t: Turns, job: Job)
    requires job.Sound() && t.Succeed(job) && Tame(job, t.First())
    ensures Traced(job, t.First(), t.view, t.Ids(job.ids), t.Count())
  {
    forall x: Id
      ensures x < t.First().nextId && !Handled(job.ids, t.Ids(job.ids), x, t.Count()) ==>
                && (x in t.First().routes <==> x in t.view.routes)
                && (x in t.First().routes ==> t.view.routes[x] == t.First().routes[x])
      ensures x in t.view.routes && t.First().nextId <= x ==> TrackedBelow(t.Ids(job.ids), x, t.Count())
    {
      TurnsTraceRest(t, job, x);
    }
    forall a | 0 <= a < t.Count() ensures ComesFrom(job, t.First(), a, IdAt(t.Ids(job.ids), Index(a))) {
      TurnsTraceIds(t, job, a);
    }
  }

  /** Untangled at the start: the name of the next route can be had now exactly if it can judging from the start. */
  lemma TurnsForetellBlocked(t: Turns, job: Job)
    requires job.Sound() && t.Succeed(job) && Tame(job, t.First()) && t.Count() < |job.specs|
    ensures Blocked(t.view.routes, job.ns, job.names[t.Count()], IdAt(t.Ids(job.ids), Index(t.Count())))
            <==> BlockedAt(t.First().routes, job.ids, job.names, job.ns, t.Count())
  {
    TurnsAreLater(t, job);
    TurnsStayTidy(t, job);
    TurnsKeepOrder(t, job);
    TurnsAreTraced(t, job);
    BlockedAtTurn(job, t.First(), t.view, t.Ids(job.ids), t.Count());
  }

  lemma {:induction false} TurnsAreNotBlocked(t: Turns, job: Job)
    requires job.Sound() && t.Succeed(job) && Tame(job, t.First()) && t.First().unique
    ensures NoneBlocked(t.First().routes, job.ids, job.names, job.ns, t.Count())
  {
    if t.Turn? {
      TurnsAreLater(t.earlier, job);
      TurnsAreNotBlocked(t.earlier, job);
      TurnsForetellBlocked(t.earlier, job);
    }
  }

  /** The next route needs no write now exactly if it needed none at the start. */
  lemma TurnsForetellUnwritten(t: Turns, job: Job)
    requires job.Sound() && t.Succeed(job) && !t.Changed() && t.Count() < |job.specs|
    ensures Unwritten(t.view.routes, job.specs[t.Count()], IdAt(t.Ids(job.ids), Index(t.Count())))
            <==> Unwritten(t.First().routes, job.specs[t.Count()], IdAt(job.ids, Index(t.Count())))
  {
    TurnsStayTidy(t, job);
    TurnsStayUntouched(t, job);
    UnwrittenTrimmed(t.First().routes, t.view.routes, job.specs[t.Count()], IdAt(job.ids, Index(t.Count())));
  }

  lemma {:induction false} TurnsLeaveUnwritten(t: Turns, job: Job)
    requires job.Sound() && t.Succeed(job) && t.First().unique
    requires AllUnwritten(t.First().routes, job.ids, job.specs, |job.specs|)
    ensures !t.Changed()
  {
    if t.Turn? {
      TurnsAreLater(t.earlier, job);
      TurnsLeaveUnwritten(t.earlier, job);
      TurnsForetellUnwritten(t.earlier, job);
    }
  }

  /** There is no turn when the first one is bound to fail. */
  lemma {:induction false} TurnsAreNotStuck(t: Turns, job: Job)
    requires job.Sound() && t.Succeed(job) && t.First().unique
    requires Stuck(t.First().routes, job.ids, job.names, job.ns)
    ensures t.Start?
  {
    if t.Turn? {
      TurnsAreNotStuck(t.earlier, job);
    }
  }

  /** A loop that took these turns ended, with one that failed or after the last one. */
  ghost predicate Took(t: Turns, job: Job, start: View, now: View, out: RouteIds, changed: bool, failed: bool) {
    && t.Succeed(job) && t.First() == start && t.Ids(job.ids) == out && t.Changed() == changed
    && if failed
       then t.Count() < |job.specs| && Fails(t.view, now, job.specs[t.Count()], IdAt(out, Index(t.Count())))
       else t.Count() == |job.specs| && t.view == now
  }

  /** The turns were taken from these routes, and the next name cannot be had. */
  ghost predicate LeadToBlocked(t: Turns, job: Job, routes: Routes) {
    && job.Sound() && t.Succeed(job) && t.First().routes == routes && t.First().unique && t.Count() < |job.specs|
    && Blocked(t.view.routes, job.ns, job.names[t.Count()], IdAt(t.Ids(job.ids), Index(t.Count())))
  }

  ghost predicate Derails(job: Job, routes: Routes) {
    exists t :: LeadToBlocked(t, job, routes)
  }

  /** What the start decides, in a store with unique names and unless a call fails. */
  ghost predicate Decided(job: Job, start: View, now: View, out: RouteIds, changed: bool, failed: bool) {
    start.unique && now.faults == start.faults ==>
      && (AllUnwritten(start.routes, job.ids, job.specs, |job.specs|) ==> !failed && !changed)
      && (Tame(job, start) ==> (failed <==> AnyBlocked(start.routes, job.ids, job.names, job.ns)))
      && (Stuck(start.routes, job.ids, job.names, job.ns) ==>
            failed && !changed && out == job.ids && now.routes == start.routes)
      && (failed ==> Derails(job, start.routes))
  }

  lemma LoopIsDecided(t: Turns, job: Job, start: View, now: View, out: RouteIds, changed: bool, failed: bool)
    requires job.Sound() && Took(t, job, start, now, out, changed, failed)
    ensures Decided(job, start, now, out, changed, failed)
  {
    TurnsAreLater(t, job);
    if start.unique && now.faults == start.faults {
      assert failed ==> LeadToBlocked(t, job, start.routes);
      if AllUnwritten(start.routes, job.ids, job.specs, |job.specs|) {
        TurnsLeaveUnwritten(t, job);
        if failed { TurnsForetellUnwritten(t, job); }
      }
      if Tame(job, start) {
        if failed {
          TurnsForetellBlocked(t, job);
        } else {
          TurnsAreNotBlocked(t, job);
          NoneBlockedAtAll(start.routes, job.ids, job.names, job.ns);
        }
      }
      if Stuck(start.routes, job.ids, job.names, job.ns) {
        TurnsAreNotStuck(t, job);
      }
    }
  }

  lemma LoopIsIdle(t: Turns, job: Job, start: View, now: View, out: RouteIds, changed: bool, failed: bool)
    requires job.Sound() && Took(t, job, start, now, out, changed, failed)
    ensures Idle(job, start, now, out, changed)
  {
    TurnsStayIdle(t, job);
  }

  lemma LoopIsLater(t: Turns, job: Job, start: View, now: View, out: RouteIds, changed: bool, failed: bool)
    requires job.Sound() && Took(t, job, start, now, out, changed, failed)
    ensures Later(start, now) && Explained(start, now, failed) && Known(out, now.nextId)
  {
    TurnsAreLater(t, job);
    TurnsStayTidy(t, job);
  }

  lemma LoopKeepsDistinct(t: Turns, job: Job, start: View, now: View, out: RouteIds, changed: bool, failed: bool)
    requires job.Sound() && Took(t, job, start, now, out, changed, failed)
    requires Orderly(start.routes, job.ids, job.names, job.ns, now.clashes > start.clashes)
    ensures Distinct(out)
  {
    TurnsAreLater(t, job);
    TurnsKeepOrder(t, job);
  }

  /** Upserts the wanted routes in turn, until one fails; `turns` says what happened. */
  method SyncRoutes(api: Api, specs: seq<RouteSpec>, ids: RouteIds, ghost job: Job)
    returns (failed: bool, changed: bool, out: RouteIds, ghost turns: Turns)
    requires api.Valid() && Known(ids, api.nextId) && job.Sound() && job.specs == specs && job.ids == ids
    modifies api`routes, api`nextId, api`writes, api`faults, api`refusals, api`clashes
    ensures api.Valid() && Took(turns, job, old(ViewOf(api)), ViewOf(api), out, changed, failed)
  {
    failed, changed, out, turns := false, false, ids, Start(ViewOf(api));
    for i := 0 to |specs|
      invariant api.Valid() && Known(out, api.nextId)
      invariant turns.Succeed(job) && turns.First() == old(ViewOf(api)) && turns.view == ViewOf(api)
      invariant turns.Count() == i && turns.Ids(ids) == out && turns.Changed() == changed
    {
      var routeChanged, id;
      failed, routeChanged, id := UpsertOneRoute(api, specs[i], IdAt(out, Index(i)));
      if failed { return; }
      turns := Turn(turns, id, routeChanged, ViewOf(api));
      changed := changed || routeChanged;
      out := out[Index(i) := id];
    }
  }

  /** The ids named by these annotations. */
  ghost predicate Names(ids: RouteIds, keys: set<RouteKey>, id: Id) {
    exists k :: k in keys && k in ids && ids[k] == id
  }

  /** Only the routes named by `keys` may have been deleted; nothing else changed. */
  ghost predicate OnlyDeletes(before: Routes, after: Routes, ids: RouteIds, keys: set<RouteKey>) {
    && (forall i :: i in after ==> i in before && after[i] == before[i])
    && (forall i :: i in before && i !in after ==> Names(ids, keys, i))
  }

  ghost predicate AllGone(routes: Routes, ids: RouteIds, keys: set<RouteKey>) {
    forall k :: k in keys && k in ids ==> ids[k] !in routes
  }

  /** Deletes the routes of these annotations, and each annotation with its route. */
  method DeleteRoutes(api: Api, ids: RouteIds, keys: set<RouteKey>)
    returns (failed: bool, anyDeletes: bool, out: RouteIds)
    requires api.Valid() && keys <= ids.Keys
    modifies api`routes, api`writes, api`faults
    ensures api.Valid() && old(api.faults) <= api.faults && old(api.writes) <= api.writes
    ensures OnlyDeletes(old(api.routes), api.routes, ids, keys)
    ensures exists done :: done <= keys && out == ids - done && AllGone(api.routes, ids, done)
    ensures !failed ==> out == ids - keys && AllGone(api.routes, ids, keys)
    ensures !failed ==> (anyDeletes <==> keys != {}) && (anyDeletes <==> api.writes > old(api.writes))
    ensures failed <==> api.faults > old(api.faults)
    ensures keys == {} ==> !failed && api.writes == old(api.writes) && api.routes == old(api.routes)
  {
    failed, anyDeletes, out := false, false, ids;
    var rest := keys;
    ghost var done := {};
    while rest != {}
      invariant rest <= keys && done == keys - rest
      invariant api.Valid() && old(api.writes) <= api.writes && api.faults == old(api.faults)
      invariant OnlyDeletes(old(api.routes), api.routes, ids, keys)
      invariant out == ids - done && AllGone(api.routes, ids, done)
      invariant (anyDeletes <==> done != {}) && (anyDeletes <==> api.writes > old(api.writes))
      invariant rest == keys ==> api.writes == old(api.writes) && api.routes == old(api.routes)
    {
      var k :| k in rest;
      failed := api.DeleteRoute(out[k]);
      assert Names(ids, keys, ids[k]);
      if failed {
        assert done <= keys && out == ids - done && AllGone(api.routes, ids, done);
        return;
      }
      out := out - {k};
      anyDeletes := true;
      rest := rest - {k};
      done := done + {k};
      assert ids - done == (ids - (done - {k})) - {k};
    }
    assert done == keys;
  }
}
