/**
 Keeping a TLS secret in step with a key pair of the store. Names are unique in the store, so a
 create whose answer was lost is found again by name instead of being repeated.
 */
module KeyPairSync {
  import opened ApiStore
  import opened Options

  datatype KeyPair = KeyPair(ns: string, originator: string, name: string, certificate: string, key: string)

  datatype KeyPairSpec = KeyPairSpec(ns: Option<string>, name: string, certificate: string, key: string) {
    function In(home: string): KeyPair {
      KeyPair(if ns.Some? then ns.value else home, ORIGINATOR, name, certificate, key)
    }
  }

  predicate Matches(pair: KeyPair, spec: KeyPairSpec) {
    pair == spec.In(pair.ns)
  }

  type KeyPairs = map<Id, KeyPair>

  ghost predicate PairNamesUnique(pairs: KeyPairs) {
    forall a, b :: a in pairs && b in pairs && pairs[a].name == pairs[b].name ==> a == b
  }

  /** Some other key pair than `id` has this name. */
  ghost predicate TakenByOther(pairs: KeyPairs, name: string, id: Id) {
    exists other :: other in pairs && other != id && pairs[other].name == name
  }

  ghost predicate Foreign(pairs: KeyPairs, name: string) {
    exists id :: id in pairs && pairs[id].name == name && pairs[id].originator != ORIGINATOR
  }

  class Store {
    const home: string
    var pairs: KeyPairs
    var nextId: Id
    ghost var writes: nat
    ghost var faults: nat

    ghost predicate Valid()
      reads this
    {
      0 < nextId && (forall id :: id in pairs ==> 0 < id < nextId) && PairNamesUnique(pairs)
    }

    constructor (home: string)
      ensures Valid() && pairs == map[] && fresh(this)
    {
      this.home, pairs, nextId, writes, faults := home, map[], 1, 0, 0;
    }

    method Get(id: Id) returns (r: Got<KeyPair>)
      modifies this`faults
      ensures r.Found? ==> r.id == id && id in pairs && r.value == pairs[id]
      ensures r.NotFound? ==> id !in pairs
      ensures faults == old(faults) + if r.GetFailed? then 1 else 0
    {
      var failed: bool := *;
      r := if failed then GetFailed else if id in pairs then Found(id, pairs[id]) else NotFound;
      faults := faults + if failed then 1 else 0;
    }

    method FindByName(name: string) returns (r: Got<KeyPair>)
      modifies this`faults
      ensures r.Found? ==> r.id in pairs && r.value == pairs[r.id] && r.value.name == name
      ensures r.NotFound? ==> forall id :: id in pairs && pairs[id].name == name ==> pairs[id].originator != ORIGINATOR
      ensures r.Found? ==> r.value.originator == ORIGINATOR
      ensures faults == old(faults) + if r.GetFailed? then 1 else 0
    {
      var failed: bool := *;
      var hits := set id | id in pairs && pairs[id].name == name && pairs[id].originator == ORIGINATOR;
      faults := faults + if failed then 1 else 0;
      if failed {
        r := GetFailed;
      } else if hits == {} {
        assert forall id :: id in pairs && pairs[id].name == name && pairs[id].originator == ORIGINATOR ==> id in hits;
        r := NotFound;
      } else {
        var id :| id in hits;
        r := Found(id, pairs[id]);
      }
    }

    /** A name that is taken is refused; otherwise the create may fail, with or without effect. */
    method Create(spec: KeyPairSpec) returns (r: Made)
      requires Valid()
      modifies this`pairs, this`nextId, this`writes, this`faults
      ensures Valid() && old(nextId) <= nextId
      ensures r.Clash? ==> TakenByOther(pairs, spec.name, 0) && pairs == old(pairs)
      ensures r.Created? ==> !old(TakenByOther(pairs, spec.name, 0))
      ensures r.Created? ==> r.id == old(nextId) && pairs == old(pairs)[r.id := spec.In(home)]
      ensures writes == old(writes) + 1
      ensures faults == old(faults) + if r.CreateFailed? then 1 else 0
    {
      var failed: bool, effect: bool := *, *;
      writes := writes + 1;
      faults := faults + if failed then 1 else 0;
      if id :| id in pairs && pairs[id].name == spec.name {
        return if failed then CreateFailed else Clash;
      }
      r := if failed then CreateFailed else Created(nextId);
      if !failed || effect {
        pairs := pairs[nextId := spec.In(home)];
        nextId := nextId + 1;
      }
    }

    /** A name that another key pair has is refused. */
    method Update(id: Id, spec: KeyPairSpec) returns (failed: bool)
      requires Valid() && id in pairs
      modifies this`pairs, this`writes, this`faults
      ensures Valid()
      ensures !failed ==> pairs == old(pairs)[id := spec.In(old(pairs)[id].ns)]
      ensures old(faults) <= faults
      ensures faults == old(faults) ==> (failed <==> old(TakenByOther(pairs, spec.name, id)))
      ensures writes == old(writes) + 1
    {
      failed := *;
      var effect: bool := *;
      writes := writes + 1;
      faults := faults + if failed then 1 else 0;
      if other :| other in pairs && other != id && pairs[other].name == spec.name {
        return true;
      }
      if !failed || effect {
        pairs := pairs[id := spec.In(pairs[id].ns)];
      }
    }

    method Delete(id: Id) returns (failed: bool)
      requires Valid()
      modifies this`pairs, this`writes, this`faults
      ensures Valid()
      ensures pairs == old(pairs) - {id} || (failed && pairs == old(pairs))
      ensures writes == old(writes) + 1
      ensures faults == old(faults) + if failed then 1 else 0
    {
      failed := *;
      var effect: bool := *;
      writes := writes + 1;
      faults := faults + if failed then 1 else 0;
      if !failed || effect {
        pairs := pairs - {id};
      }
    }
  }

  /** The tracked key pair is live and in the wanted namespace, so it will be updated in place. */
  predicate InPlace(pairs: KeyPairs, spec: KeyPairSpec, tracked: Id) {
    tracked in pairs && (spec.ns.None? || spec.ns.value == pairs[tracked].ns)
  }

  /** The name belongs to another key pair that is not ours, or that cannot be adopted any more. */
  ghost predicate Blocked(pairs: KeyPairs, spec: KeyPairSpec, tracked: Id) {
    exists other :: other in pairs && other != tracked && pairs[other].name == spec.name
      && (pairs[other].originator != ORIGINATOR || InPlace(pairs, spec, tracked))
  }

  /** The tracked key pair, if it can be updated in place; one in another namespace is deleted. */
  method FindTracked(store: Store, spec: KeyPairSpec, tracked: Id) returns (failed: bool, existing: Option<KeyPair>)
    requires store.Valid()
    modifies store`pairs, store`writes, store`faults
    ensures store.Valid() && old(store.writes) <= store.writes
    ensures failed <==> store.faults > old(store.faults)
    ensures old(store.faults) <= store.faults
    ensures !failed ==> (existing.Some? <==> InPlace(old(store.pairs), spec, tracked))
    ensures existing.Some? ==> tracked in old(store.pairs) && existing.value == old(store.pairs)[tracked]
    ensures old(InPlace(store.pairs, spec, tracked)) ==>
              store.writes == old(store.writes) && store.pairs == old(store.pairs)
    ensures !failed && existing.None? ==> store.pairs == old(store.pairs) - {tracked}
  {
    failed, existing := true, None;
    if tracked == 0 { return false, None; }
    var got := store.Get(tracked);
    if got.GetFailed? { return; }
    if got.NotFound? { return false, None; }
    if spec.ns.Some? && spec.ns.value != got.value.ns {
      var notDeleted := store.Delete(tracked);
      return notDeleted, None;
    }
    return false, Some(got.value);
  }

  /** Creates the key pair, or finds ours of that name when the name is taken. */
  method CreateOrAdopt(store: Store, spec: KeyPairSpec) returns (failed: bool, created: bool, id: Id)
    requires store.Valid()
    modifies store`pairs, store`nextId, store`writes, store`faults
    ensures store.Valid() && old(store.nextId) <= store.nextId && old(store.writes) < store.writes
    ensures old(store.faults) <= store.faults
    ensures !failed ==> id in store.pairs && (created ==> Matches(store.pairs[id], spec))
    ensures !failed && !created ==>
              && store.pairs == old(store.pairs)
              && store.pairs[id].name == spec.name && store.pairs[id].originator == ORIGINATOR
    ensures store.faults == old(store.faults) ==> (failed <==> old(Foreign(store.pairs, spec.name)))
  {
    failed, created, id := true, false, 0;
    var made := store.Create(spec);
    if made.Created? { return false, true, made.id; }
    if made.CreateFailed? { return; }
    var found := store.FindByName(spec.name);
    if !found.Found? { return; }
    return false, false, found.id;
  }

  lemma BlockedIffForeign(pairs: KeyPairs, spec: KeyPairSpec, tracked: Id)
    requires !InPlace(pairs, spec, tracked)
    ensures Blocked(pairs, spec, tracked) <==> Foreign(pairs - {tracked}, spec.name)
  {
    if Blocked(pairs, spec, tracked) {
      var other :| other in pairs && other != tracked && pairs[other].name == spec.name
        && pairs[other].originator != ORIGINATOR;
      assert other in pairs - {tracked};
    }
  }

  method UpsertKeyPair(store: Store, spec: KeyPairSpec, tracked: Id) returns (failed: bool, changed: bool, id: Id)
    requires store.Valid() && tracked < store.nextId
    modifies store
    ensures store.Valid() && old(store.nextId) <= store.nextId
    ensures old(store.faults) <= store.faults && old(store.writes) <= store.writes
    ensures !failed ==> id in store.pairs && Matches(store.pairs[id], spec)
    ensures !failed ==> (changed <==> store.writes > old(store.writes)) && (!changed ==> id == tracked)
    ensures tracked in old(store.pairs) && Matches(old(store.pairs)[tracked], spec) ==>
              store.writes == old(store.writes) && store.pairs == old(store.pairs) && !changed
    ensures store.faults == old(store.faults) ==> (failed <==> old(Blocked(store.pairs, spec, tracked)))
  {
    changed, id := false, tracked;
    if !InPlace(store.pairs, spec, tracked) { BlockedIffForeign(store.pairs, spec, tracked); }
    var existing;
    failed, existing := FindTracked(store, spec, tracked);
    if failed { return; }
    if existing.None? {
      failed, changed, id := CreateOrAdopt(store, spec);
      if failed || changed { return; }
      existing, changed := Some(store.pairs[id]), true;
    }

    if Matches(existing.value, spec) { return false, changed, id; }
    failed := store.Update(id, spec);
    if !failed { changed := true; }
  }

  // ----- one secret -----

  /** The data of a secret; a secret without a certificate is read as a CA. */
  datatype SecretData = SecretData(tlsCert: Option<string>, ca: string, key: string)

  datatype Metadata = Metadata(keyPairId: Id, finalizer: bool)

  function Wanted(name: string, ns: Option<string>, data: SecretData): KeyPairSpec {
    KeyPairSpec(ns, name, if data.tlsCert.Some? then data.tlsCert.value else data.ca, data.key)
  }

  class Secret {
    const name: string
    var persisted: Metadata
    ghost var patches: nat
    ghost var faults: nat

    constructor (name: string)
      ensures this.name == name && persisted == Metadata(0, false) && fresh(this)
    {
      this.name, persisted, patches, faults := name, Metadata(0, false), 0, 0;
    }

    method Patch(next: Metadata) returns (failed: bool)
      modifies this
      ensures persisted == next || (failed && persisted == old(persisted))
      ensures patches == old(patches) + 1
      ensures faults == old(faults) + if failed then 1 else 0
    {
      failed := *;
      var effect: bool := *;
      if !failed || effect {
        persisted := next;
      }
      patches := patches + 1;
      faults := faults + if failed then 1 else 0;
    }
  }

  /** The annotation names a live key pair equal to the data, and no other has its name. */
  ghost predicate InSync(pairs: KeyPairs, meta: Metadata, spec: KeyPairSpec) {
    && meta.keyPairId in pairs && Matches(pairs[meta.keyPairId], spec)
    && !TakenByOther(pairs, spec.name, meta.keyPairId)
  }

  method SyncOneSecret(store: Store, secret: Secret, ns: Option<string>, data: SecretData)
    returns (changed: bool, failed: bool)
    requires store.Valid() && secret.persisted.keyPairId < store.nextId
    modifies store, secret
    ensures store.Valid() && secret.persisted.keyPairId < store.nextId
    ensures !failed ==> InSync(store.pairs, secret.persisted, Wanted(secret.name, ns, data))
    ensures old(InSync(store.pairs, secret.persisted, Wanted(secret.name, ns, data))) ==>
              && store.writes == old(store.writes) && secret.patches == old(secret.patches) && !changed
              && InSync(store.pairs, secret.persisted, Wanted(secret.name, ns, data))
    ensures !failed ==> (changed <==> store.writes > old(store.writes)) && (changed ==> secret.persisted.finalizer)
    ensures secret.patches == old(secret.patches) + if changed then 1 else 0
    ensures old(store.faults) <= store.faults && old(secret.faults) <= secret.faults
    ensures store.faults == old(store.faults) && secret.faults == old(secret.faults) ==>
              (failed <==> old(Blocked(store.pairs, Wanted(secret.name, ns, data), secret.persisted.keyPairId)))
  {
    var memory := secret.persisted;
    var id;
    failed, changed, id := UpsertKeyPair(store, Wanted(secret.name, ns, data), memory.keyPairId);
    if failed { return false, true; }
    if changed {
      memory := Metadata(id, true);
      failed := secret.Patch(memory);
    }
  }

  /**
   However many attempts failed and however the data changed between them, the first attempt
   that succeeds leaves the annotation on the one live key pair of that name.
   */
  method Retry(store: Store, secret: Secret, ns: Option<string>, attempts: seq<SecretData>)
    returns (succeeded: bool, at: nat)
    requires store.Valid() && secret.persisted.keyPairId < store.nextId
    modifies store, secret
    ensures store.Valid()
    ensures succeeded ==>
              at < |attempts| && InSync(store.pairs, secret.persisted, Wanted(secret.name, ns, attempts[at]))
    ensures !succeeded ==> at == |attempts|
  {
    succeeded, at := false, 0;
    while at < |attempts|
      invariant at <= |attempts| && !succeeded
      invariant store.Valid() && secret.persisted.keyPairId < store.nextId
    {
      var _, failed := SyncOneSecret(store, secret, ns, attempts[at]);
      if !failed { return true, at; }
      at := at + 1;
    }
  }
}
