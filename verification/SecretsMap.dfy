/**
 Which entities reference which TLS secrets, in both directions, so that the last reference to a
 secret is noticed when it goes.
 */
module SecretsMap {

  ghost predicate Refers<K, S>(deps: map<K, set<S>>, k: K, s: S) {
    k in deps && s in deps[k]
  }

  ghost predicate Referenced<K(!new), S>(deps: map<K, set<S>>, s: S) {
    exists k :: Refers(deps, k, s)
  }

  /** The two maps say the same, up to empty entries. */
  ghost predicate Inverse<K(!new), S(!new)>(deps: map<K, set<S>>, reverse: map<S, set<K>>) {
    forall k, s :: Refers(deps, k, s) <==> Refers(reverse, s, k)
  }

  class TLSSecretsMap<K(==, !new), S(==, !new)> {
    var deps: map<K, set<S>>
    var reverseDeps: map<S, set<K>>

    ghost predicate Valid()
      reads this
    {
      Inverse(deps, reverseDeps)
    }

    constructor ()
      ensures Valid() && deps == map[]
    {
      deps, reverseDeps := map[], map[];
    }

    method Reset()
      modifies this
      ensures Valid() && deps == map[]
    {
      deps, reverseDeps := map[], map[];
    }

    method Add(entity: K, secret: S)
      requires Valid()
      modifies this
      ensures Valid()
      ensures deps == old(deps)[entity := (if entity in old(deps) then old(deps)[entity] else {}) + {secret}]
    {
      deps := deps[entity := (if entity in deps then deps[entity] else {}) + {secret}];
      reverseDeps := reverseDeps[secret := (if secret in reverseDeps then reverseDeps[secret] else {}) + {entity}];
      assert forall k, s :: Refers(deps, k, s) <==> old(Refers(deps, k, s)) || (k == entity && s == secret);
      assert forall k, s ::
          Refers(reverseDeps, s, k) <==> old(Refers(reverseDeps, s, k)) || (k == entity && s == secret);
    }

    /** Sets the secrets of one entity; returns exactly those that lost their last reference. */
    method UpdateEntity(n: K, newDeps: set<S>) returns (unreferenced: set<S>)
      requires Valid()
      modifies this
      ensures Valid() && deps == old(deps)[n := newDeps]
      ensures forall s :: s in unreferenced <==> Referenced(old(deps), s) && !Referenced(deps, s)
    {
      var previous := if n in deps then deps[n] else {};
      deps := deps[n := newDeps];
      var rest := newDeps;
      while rest != {}
        invariant rest <= newDeps && deps == old(deps)[n := newDeps]
        invariant previous == (if n in old(deps) then old(deps)[n] else {}) - (newDeps - rest)
        invariant forall k, s :: Refers(reverseDeps, s, k) <==>
                    Refers(old(deps), k, s) || (k == n && s in newDeps && s !in rest)
      {
        var s :| s in rest;
        ghost var before := reverseDeps;
        reverseDeps := reverseDeps[s := (if s in reverseDeps then reverseDeps[s] else {}) + {n}];
        assert forall k, t :: Refers(reverseDeps, t, k) <==> Refers(before, t, k) || (k == n && t == s);
        previous := previous - {s};
        rest := rest - {s};
      }
      unreferenced := RemoveReverseDeps(n, previous);
      LostReferences(old(deps), deps, reverseDeps, n, previous, unreferenced);
    }

    method RemoveEntity(n: K) returns (unreferenced: set<S>)
      requires Valid()
      modifies this
      ensures Valid() && deps == old(deps)[n := {}]
      ensures forall s :: s in unreferenced <==> Referenced(old(deps), s) && !Referenced(deps, s)
    {
      var previous := if n in deps then deps[n] else {};
      deps := deps[n := {}];
      unreferenced := RemoveReverseDeps(n, previous);
      LostReferences(old(deps), deps, reverseDeps, n, previous, unreferenced);
    }

    /** Takes `n` off the given secrets; returns those that nothing refers to any more. */
    method RemoveReverseDeps(n: K, previous: set<S>) returns (unreferenced: set<S>)
      modifies this`reverseDeps
      ensures forall k, s :: Refers(reverseDeps, s, k) <==> old(Refers(reverseDeps, s, k)) && !(k == n && s in previous)
      ensures forall s :: s in unreferenced <==> s in previous && forall k :: !Refers(reverseDeps, s, k)
    {
      unreferenced := {};
      var rest := previous;
      while rest != {}
        invariant rest <= previous && unreferenced <= previous - rest
        invariant forall k, s :: Refers(reverseDeps, s, k) <==>
                    old(Refers(reverseDeps, s, k)) && !(k == n && s in previous && s !in rest)
        invariant forall s :: s in previous && s !in rest ==>
                    (s in unreferenced <==> s !in reverseDeps || reverseDeps[s] == {})
      {
        var s :| s in rest;
        if s in reverseDeps {
          reverseDeps := reverseDeps[s := reverseDeps[s] - {n}];
        }
        if s !in reverseDeps || reverseDeps[s] == {} {
          unreferenced := unreferenced + {s};
        }
        rest := rest - {s};
      }
      forall s | s in previous
        ensures (s !in reverseDeps || reverseDeps[s] == {}) <==> forall k :: !Refers(reverseDeps, s, k)
      {
        if s in reverseDeps && reverseDeps[s] != {} {
          var k :| k in reverseDeps[s];
          assert Refers(reverseDeps, s, k);
        }
      }
    }
  }

  /** Only the entity's own previous secrets can have lost their last reference. */
  lemma LostReferences<K(!new), S(!new)>(
    before: map<K, set<S>>, after: map<K, set<S>>, reverse: map<S, set<K>>, n: K, lost: set<S>, reported: set<S>)
    requires after.Keys == before.Keys + {n} && (forall k :: k in before && k != n ==> after[k] == before[k])
    requires Inverse(after, reverse)
    requires forall s :: s in lost <==> Refers(before, n, s) && !Refers(after, n, s)
    requires forall s :: s in reported <==> s in lost && forall k :: !Refers(reverse, s, k)
    ensures forall s :: s in reported <==> Referenced(before, s) && !Referenced(after, s)
  {
    forall s ensures s in reported <==> Referenced(before, s) && !Referenced(after, s) {
      if s in reported {
        assert Refers(before, n, s);
        assert forall k :: Refers(after, k, s) ==> Refers(reverse, s, k);
      }
      if Referenced(before, s) && !Referenced(after, s) {
        var k :| Refers(before, k, s);
        assert !Refers(after, k, s);
      }
    }
  }

  // ----- runs -----

  datatype Call<K, S> =
    | Add(entity: K, secret: S)
    | Update(entity: K, secrets: set<S>)
    | Remove(entity: K)
    | Reset

  ghost predicate Mentions<K, S>(c: Call<K, S>, s: S) {
    match c
    case Add(_, secret) => s == secret
    case Update(_, secrets) => s in secrets
    case Remove(_) => false
    case Reset => false
  }

  /** One of the first `n` calls mentions the secret, and none of them after it resets. */
  ghost predicate MentionedSince<K, S>(calls: seq<Call<K, S>>, n: nat, s: S)
    requires n <= |calls|
  {
    exists i :: 0 <= i < n && Mentions(calls[i], s) && NoReset(calls, i, n)
  }

  ghost predicate NoReset<K, S>(calls: seq<Call<K, S>>, from: nat, n: nat)
    requires n <= |calls|
  {
    forall j :: from < j < n ==> !calls[j].Reset?
  }

  lemma MentionedNext<K, S>(calls: seq<Call<K, S>>, n: nat, s: S)
    requires n < |calls|
    ensures MentionedSince(calls, n + 1, s) <==>
            !calls[n].Reset? && (MentionedSince(calls, n, s) || Mentions(calls[n], s))
  {
  }

  ghost predicate Gives<K, S>(c: Call<K, S>, k: K, s: S) {
    match c
    case Add(entity, secret) => k == entity && s == secret
    case Update(entity, secrets) => k == entity && s in secrets
    case Remove(_) => false
    case Reset => false
  }

  /** The call leaves the entity the secrets it has. */
  ghost predicate Spares<K, S>(c: Call<K, S>, k: K) {
    match c
    case Add(_, _) => true
    case Update(entity, _) => k != entity
    case Remove(entity) => k != entity
    case Reset => false
  }

  ghost predicate AllSpare<K, S>(calls: seq<Call<K, S>>, k: K, from: nat, n: nat)
    requires n <= |calls|
  {
    forall j :: from < j < n ==> Spares(calls[j], k)
  }

  /** One of the first `n` calls gave the entity the secret, and none of them after it took it away. */
  ghost predicate HasLatest<K, S>(calls: seq<Call<K, S>>, n: nat, k: K, s: S)
    requires n <= |calls|
  {
    exists i :: 0 <= i < n && Gives(calls[i], k, s) && AllSpare(calls, k, i, n)
  }

  ghost predicate SomeHas<K(!new), S>(calls: seq<Call<K, S>>, n: nat, s: S)
    requires n <= |calls|
  {
    exists k :: HasLatest(calls, n, k, s)
  }

  lemma LatestNext<K, S>(calls: seq<Call<K, S>>, n: nat, k: K, s: S)
    requires n < |calls|
    ensures HasLatest(calls, n + 1, k, s) <==>
            Gives(calls[n], k, s) || (HasLatest(calls, n, k, s) && Spares(calls[n], k))
  {
    if Gives(calls[n], k, s) {
      assert AllSpare(calls, k, n, n + 1);
    }
    if HasLatest(calls, n, k, s) && Spares(calls[n], k) {
      var i :| 0 <= i < n && Gives(calls[i], k, s) && AllSpare(calls, k, i, n);
      assert AllSpare(calls, k, i, n + 1);
    }
    if HasLatest(calls, n + 1, k, s) && !Gives(calls[n], k, s) {
      var i :| 0 <= i < n + 1 && Gives(calls[i], k, s) && AllSpare(calls, k, i, n + 1);
      assert AllSpare(calls, k, i, n) && Spares(calls[n], k);
    }
  }

  /** The map holds for each entity what the first `n` calls leave it. */
  ghost predicate Latest<K(!new), S(!new)>(calls: seq<Call<K, S>>, n: nat, deps: map<K, set<S>>)
    requires n <= |calls|
  {
    forall k, s :: Refers(deps, k, s) <==> HasLatest(calls, n, k, s)
  }

  lemma LatestReferenced<K(!new), S(!new)>(calls: seq<Call<K, S>>, n: nat, deps: map<K, set<S>>, s: S)
    requires n <= |calls| && Latest(calls, n, deps)
    ensures Referenced(deps, s) <==> SomeHas(calls, n, s)
  {
    if Referenced(deps, s) {
      var k :| Refers(deps, k, s);
      assert HasLatest(calls, n, k, s);
    }
    if SomeHas(calls, n, s) {
      var k :| HasLatest(calls, n, k, s);
      assert Refers(deps, k, s);
    }
  }

  /** What the call leaves the entities. */
  ghost predicate Leaves<K(!new), S(!new)>(c: Call<K, S>, before: map<K, set<S>>, after: map<K, set<S>>) {
    forall k, s :: Refers(after, k, s) <==> Gives(c, k, s) || (Refers(before, k, s) && Spares(c, k))
  }

  lemma LatestAfter<K(!new), S(!new)>(calls: seq<Call<K, S>>, n: nat, before: map<K, set<S>>, after: map<K, set<S>>)
    requires n < |calls| && Latest(calls, n, before)
    requires Leaves(calls[n], before, after)
    ensures Latest(calls, n + 1, after)
  {
    forall k, s ensures Refers(after, k, s) <==> HasLatest(calls, n + 1, k, s) {
      LatestNext(calls, n, k, s);
    }
  }

  /** The call reports nothing unless it updates or removes; then, the secrets that lost their last holder. */
  ghost predicate ReportsLost<K(!new), S(!new)>(calls: seq<Call<K, S>>, i: nat, report: set<S>)
    requires i < |calls|
  {
    forall s :: s in report <==>
      (calls[i].Update? || calls[i].Remove?) && SomeHas(calls, i, s) && !SomeHas(calls, i + 1, s)
  }

  /** A secret is referenced after the call if it was before or is mentioned, and nothing is lost but by the call. */
  lemma LeavesReferenced<K(!new), S(!new)>(c: Call<K, S>, before: map<K, set<S>>, after: map<K, set<S>>, s: S)
    requires Leaves(c, before, after)
    ensures Referenced(after, s) ==> (Referenced(before, s) && !c.Reset?) || Mentions(c, s)
    ensures Mentions(c, s) ==> Referenced(after, s)
    ensures c.Add? && Referenced(before, s) ==> Referenced(after, s)
  {
    if Mentions(c, s) {
      assert Gives(c, c.entity, s) && Refers(after, c.entity, s);
    }
    if Referenced(after, s) {
      var k :| Refers(after, k, s);
      assert Gives(c, k, s) || Refers(before, k, s);
    }
    if c.Add? && Referenced(before, s) {
      var k :| Refers(before, k, s);
      assert Refers(after, k, s);
    }
  }

  /** Makes one call; what it reports is what it left without a holder, unless it only adds or resets. */
  method Make<K(==, !new), S(==, !new)>(m: TLSSecretsMap<K, S>, c: Call<K, S>) returns (report: set<S>)
    requires m.Valid()
    modifies m
    ensures m.Valid() && Leaves(c, old(m.deps), m.deps)
    ensures forall s :: s in report <==>
              (c.Update? || c.Remove?) && Referenced(old(m.deps), s) && !Referenced(m.deps, s)
  {
    report := {};
    match c {
      case Add(entity, secret) => m.Add(entity, secret);
      case Update(entity, secrets) => report := m.UpdateEntity(entity, secrets);
      case Remove(entity) => report := m.RemoveEntity(entity);
      case Reset => m.Reset();
    }
  }

  /** What was mentioned since the last reset is referenced, or was reported since. */
  ghost predicate Remembered<K(!new), S(!new)>(
    calls: seq<Call<K, S>>, n: nat, deps: map<K, set<S>>, reported: set<S>)
    requires n <= |calls|
  {
    forall s :: MentionedSince(calls, n, s) <==> Referenced(deps, s) || s in reported
  }

  lemma RememberedNext<K(!new), S(!new)>(
    calls: seq<Call<K, S>>, n: nat, before: map<K, set<S>>, after: map<K, set<S>>, said: set<S>, report: set<S>)
    requires n < |calls| && Remembered(calls, n, before, said) && Leaves(calls[n], before, after)
    requires forall s :: s in report <==>
               (calls[n].Update? || calls[n].Remove?) && Referenced(before, s) && !Referenced(after, s)
    ensures Remembered(calls, n + 1, after, if calls[n].Reset? then {} else said + report)
  {
    forall s ensures MentionedSince(calls, n + 1, s) <==>
                     Referenced(after, s) || (!calls[n].Reset? && s in said + report) {
      MentionedNext(calls, n, s);
      LeavesReferenced(calls[n], before, after, s);
    }
  }

  lemma LostNext<K(!new), S(!new)>(
    calls: seq<Call<K, S>>, n: nat, before: map<K, set<S>>, after: map<K, set<S>>, report: set<S>)
    requires n < |calls| && Latest(calls, n, before) && Latest(calls, n + 1, after)
    requires forall s :: s in report <==>
               (calls[n].Update? || calls[n].Remove?) && Referenced(before, s) && !Referenced(after, s)
    ensures ReportsLost(calls, n, report)
  {
    forall s ensures Referenced(before, s) <==> SomeHas(calls, n, s) {
      LatestReferenced(calls, n, before, s);
    }
    forall s ensures Referenced(after, s) <==> SomeHas(calls, n + 1, s) {
      LatestReferenced(calls, n + 1, after, s);
    }
  }

  /**
   After any run each entity refers to what the calls leave it, and each call reported exactly the
   secrets that it left without a holder. So no secret is forgotten: one mentioned since the last
   reset is still referenced or was reported since, and nothing is reported that no call mentioned.
   */
  method Run<K(==, !new), S(==, !new)>(calls: seq<Call<K, S>>)
    returns (deps: map<K, set<S>>, reports: seq<set<S>>, reported: set<S>)
    ensures Latest(calls, |calls|, deps)
    ensures |reports| == |calls| && forall i :: 0 <= i < |calls| ==> ReportsLost(calls, i, reports[i])
    ensures forall s :: MentionedSince(calls, |calls|, s) <==> Referenced(deps, s) || s in reported
  {
    var m := new TLSSecretsMap<K, S>();
    reports, reported := [], {};
    for n := 0 to |calls|
      invariant m.Valid() && fresh(m) && Latest(calls, n, m.deps) && Remembered(calls, n, m.deps, reported)
      invariant |reports| == n && forall i :: 0 <= i < n ==> ReportsLost(calls, i, reports[i])
    {
      ghost var before := m.deps;
      var report := Make(m, calls[n]);
      LatestAfter(calls, n, before, m.deps);
      LostNext(calls, n, before, m.deps, report);
      RememberedNext(calls, n, before, m.deps, reported, report);
      reports := reports + [report];
      reported := if calls[n].Reset? then {} else reported + report;
    }
    deps := m.deps;
  }
}
