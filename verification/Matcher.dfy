/**
 The certificate matcher: it keeps, update by update, the set of route names that no certificate
 covers, and rechecks only the names an update can have touched.
 */
module Matchers {
  import opened Names
  import opened NameIndexes

  type NamesByKey<Key> = map<Key, seq<string>>

  ghost predicate Routed<Key(!new)>(routes: NamesByKey<Key>, name: string) {
    exists k :: k in routes && name in routes[k]
  }

  ghost predicate Covered<Key(!new)>(certs: NamesByKey<Key>, name: string) {
    exists k, c :: k in certs && c in certs[k] && Covers(c, name)
  }

  /** The from-scratch meaning of the missing set. */
  ghost predicate IsMissing<Key(!new)>(certs: NamesByKey<Key>, routes: NamesByKey<Key>, name: string) {
    Routed(routes, name) && !Covered(certs, name)
  }

  /** Rechecking `query` re-evaluates `name`: both belong to a key the lookup finds. */
  ghost predicate Touches<Key(!new)>(routes: NamesByKey<Key>, query: string, name: string) {
    exists k, m :: k in routes && m in routes[k] && name in routes[k] && Finds(query, m, true)
  }

  ghost predicate TouchedBy<Key(!new)>(routes: NamesByKey<Key>, queries: set<string>, name: string) {
    exists q :: q in queries && Touches(routes, q, name)
  }

  /** The missing set after rechecking `queries`, whatever the order. */
  ghost predicate Rechecked<Key(!new)>(
    certs: NamesByKey<Key>, routes: NamesByKey<Key>, queries: set<string>,
    before: set<string>, after: set<string>)
  {
    forall n :: n in after <==>
      if TouchedBy(routes, queries, n) then !Covered(certs, n) else n in before && n !in queries
  }

  function SetOf(names: seq<string>): (r: set<string>) {
    set n | n in names
  }

  /** What one key's list becomes: an empty list is forgotten. */
  ghost function Assign<Key>(m: NamesByKey<Key>, key: Key, names: seq<string>): NamesByKey<Key> {
    if names == [] then m - {key} else m[key := names]
  }

  ghost function NamesOf<Key>(m: NamesByKey<Key>, key: Key): seq<string> {
    if key in m then m[key] else []
  }

  // ----- why rechecking the changed names is enough -----

  lemma RecheckTwice<Key(!new)>(
    certs: NamesByKey<Key>, routes: NamesByKey<Key>, q1: set<string>, q2: set<string>,
    s0: set<string>, s1: set<string>, s2: set<string>)
    requires Rechecked(certs, routes, q1, s0, s1) && Rechecked(certs, routes, q2, s1, s2)
    ensures Rechecked(certs, routes, q1 + q2, s0, s2)
  {
    forall n
      ensures TouchedBy(routes, q1 + q2, n) <==> TouchedBy(routes, q1, n) || TouchedBy(routes, q2, n)
      ensures TouchedBy(routes, q1, n) && n in q2 ==> TouchedBy(routes, q2, n)
    {
      if TouchedBy(routes, q1, n) && n in q2 {
        RoutedTouchesItself(routes, n);
      }
    }
  }

  lemma RoutedTouchesItself<Key(!new)>(routes: NamesByKey<Key>, name: string)
    requires Routed(routes, name)
    ensures Touches(routes, name, name)
  {
    var k :| k in routes && name in routes[k];
    assert Finds(name, name, true);
  }

  /** A certificate that covers a routed name reaches it when looked up. */
  lemma CoveringTouches<Key(!new)>(routes: NamesByKey<Key>, cert: string, name: string)
    requires Routed(routes, name) && Covers(cert, name)
    ensures Touches(routes, cert, name)
  {
    var k :| k in routes && name in routes[k];
    assert Finds(cert, name, true);
  }

  /** Coverage of an untouched name cannot have changed with the certificates of one key. */
  lemma UntouchedCoverage<Key(!new)>(
    certs: NamesByKey<Key>, routes: NamesByKey<Key>, key: Key, names: seq<string>, name: string)
    requires Routed(routes, name)
    requires var prev, next := SetOf(NamesOf(certs, key)), SetOf(names);
             !TouchedBy(routes, (prev - next) + (next - prev), name)
    ensures Covered(certs, name) <==> Covered(Assign(certs, key, names), name)
  {
    var prev, next := SetOf(NamesOf(certs, key)), SetOf(names);
    var certs' := Assign(certs, key, names);
    if Covered(certs, name) {
      var k, c :| k in certs && c in certs[k] && Covers(c, name);
      CoveringTouches(routes, c, name);
      assert k == key ==> c in prev && c in next;
      assert k in certs' && c in certs'[k];
    }
    if Covered(certs', name) {
      var k, c :| k in certs' && c in certs'[k] && Covers(c, name);
      CoveringTouches(routes, c, name);
      assert k == key ==> c in next && c in prev;
      assert k in certs && c in certs[k];
    }
  }

  lemma CertificatePhase<Key(!new)>(
    certs: NamesByKey<Key>, routes: NamesByKey<Key>, key: Key, names: seq<string>,
    before: set<string>, after: set<string>)
    requires forall n :: n in before <==> IsMissing(certs, routes, n)
    requires var prev, next := SetOf(NamesOf(certs, key)), SetOf(names);
             Rechecked(Assign(certs, key, names), routes, (prev - next) + (next - prev), before, after)
    ensures forall n :: n in after <==> IsMissing(Assign(certs, key, names), routes, n)
  {
    var prev, next := SetOf(NamesOf(certs, key)), SetOf(names);
    var changed := (prev - next) + (next - prev);
    forall n ensures n in after <==> IsMissing(Assign(certs, key, names), routes, n) {
      if Routed(routes, n) && !TouchedBy(routes, changed, n) {
        RoutedTouchesItself(routes, n);
        UntouchedCoverage(certs, routes, key, names, n);
      }
    }
  }

  lemma RoutePhase<Key(!new)>(
    certs: NamesByKey<Key>, routes: NamesByKey<Key>, key: Key, names: seq<string>,
    before: set<string>, after: set<string>)
    requires forall n :: n in before <==> IsMissing(certs, routes, n)
    requires var prev, next := SetOf(NamesOf(routes, key)), SetOf(names);
             Rechecked(certs, Assign(routes, key, names), (prev - next) + (next - prev), before, after)
    ensures forall n :: n in after <==> IsMissing(certs, Assign(routes, key, names), n)
  {
    var prev, next := SetOf(NamesOf(routes, key)), SetOf(names);
    var changed := (prev - next) + (next - prev);
    var routes' := Assign(routes, key, names);
    forall n ensures n in after <==> IsMissing(certs, routes', n) {
      if Routed(routes', n) {
        RoutedTouchesItself(routes', n);
      }
      if n !in changed {
        assert n in prev <==> n in next;
        assert Routed(routes, n) <==> Routed(routes', n) by {
          if Routed(routes, n) {
            var k :| k in routes && n in routes[k];
            assert k in routes' && n in routes'[k];
          }
          if Routed(routes', n) {
            var k :| k in routes' && n in routes'[k];
            assert k in routes && n in routes[k];
          }
        }
      }
    }
  }

  /** The missing set after these names were checked one by one. */
  ghost predicate Checked<Key(!new)>(
    certs: NamesByKey<Key>, names: seq<string>, before: set<string>, after: set<string>)
  {
    forall n :: n in after <==> if n in names then !Covered(certs, n) else n in before
  }

  lemma CheckedNext<Key(!new)>(
    certs: NamesByKey<Key>, names: seq<string>, i: nat, start: set<string>, before: set<string>, after: set<string>)
    requires i < |names| && Checked(certs, names[..i], start, before)
    requires after == if Covered(certs, names[i]) then before - {names[i]} else before + {names[i]}
    ensures Checked(certs, names[..i + 1], start, after)
  {
    assert names[..i + 1] == names[..i] + [names[i]];
  }

  class Matcher<Key(==, !new)> {
    const certificates: NameIndex<Key>
    const routes: NameIndex<Key>
    var missing: set<string>

    ghost predicate Indexed()
      reads this, certificates, routes
    {
      certificates != routes && certificates.Valid() && routes.Valid()
    }

    ghost predicate Valid()
      reads this, certificates, routes
    {
      Indexed() && forall n :: n in missing <==> IsMissing(certificates.keys, routes.keys, n)
    }

    constructor ()
      ensures Valid() && fresh(certificates) && fresh(routes)
      ensures certificates.keys == map[] && routes.keys == map[]
    {
      certificates := new NameIndex();
      routes := new NameIndex();
      missing := {};
    }

    method CheckNames(names: seq<string>)
      requires Indexed()
      modifies this
      ensures Checked(certificates.keys, names, old(missing), missing)
    {
      for i := 0 to |names|
        invariant Checked(certificates.keys, names[..i], old(missing), missing)
      {
        ghost var before := missing;
        CheckOne(names[i]);
        CheckedNext(certificates.keys, names, i, old(missing), before, missing);
      }
      assert names[..|names|] == names;
    }

    /** Adds a name without a certificate to the missing set, and takes any other off it. */
    method CheckOne(name: string)
      requires Indexed()
      modifies this
      ensures missing == if Covered(certificates.keys, name) then old(missing) - {name} else old(missing) + {name}
    {
      var hits := certificates.Lookup(name, false);
      UncoveredIffNoHit(certificates.keys, name, hits);
      missing := if hits == {} then missing + {name} else missing - {name};
    }

    method Check(name: string)
      requires Indexed()
      modifies this
      ensures Rechecked(certificates.keys, routes.keys, {name}, old(missing), missing)
    {
      missing := missing - {name};
      var found := routes.Lookup(name, true);
      ghost var all := found;
      ghost var start := missing;
      while found != {}
        invariant found <= all
        invariant forall n :: n in missing <==>
                    if (exists k :: k in all && k !in found && n in routes.keys[k])
                    then !Covered(certificates.keys, n) else n in start
      {
        var route :| route in found;
        var names := routes.Get(route);
        CheckNames(names);
        found := found - {route};
      }
      forall n
        ensures (exists k :: k in all && n in routes.keys[k]) <==> TouchedBy(routes.keys, {name}, n)
      {
        assert TouchedBy(routes.keys, {name}, n) <==> Touches(routes.keys, name, n);
      }
    }

    method CheckAll(names: set<string>)
      requires Indexed()
      modifies this
      ensures Rechecked(certificates.keys, routes.keys, names, old(missing), missing)
    {
      var rest := names;
      while rest != {}
        invariant rest <= names
        invariant Rechecked(certificates.keys, routes.keys, names - rest, old(missing), missing)
      {
        var name :| name in rest;
        ghost var mid := missing;
        Check(name);
        RecheckTwice(certificates.keys, routes.keys, names - rest, {name}, old(missing), mid, missing);
        rest := rest - {name};
        assert names - rest == (names - (rest + {name})) + {name};
      }
      assert names - rest == names;
    }

    /** One update, in the order the source makes it. */
    method Update(key: Key, certificateNames: seq<string>, routeNames: seq<string>)
      requires Valid()
      modifies this, certificates, routes
      ensures Valid()
      ensures certificates.keys == Assign(old(certificates.keys), key, Normalize(certificateNames))
      ensures routes.keys == Assign(old(routes.keys), key, Normalize(routeNames))
    {
      var certNames, names := Normalize(certificateNames), Normalize(routeNames);

      var held := certificates.Get(key);
      var prev, next := SetOf(held), SetOf(certNames);
      if certNames == [] { certificates.Remove(key); } else { certificates.Add(key, certNames); }
      CheckAll(prev - next);
      ghost var mid := missing;
      CheckAll(next - prev);
      RecheckTwice(certificates.keys, routes.keys, prev - next, next - prev, old(missing), mid, missing);
      CertificatePhase(old(certificates.keys), routes.keys, key, certNames, old(missing), missing);

      held := routes.Get(key);
      prev, next := SetOf(held), SetOf(names);
      if names == [] { routes.Remove(key); } else { routes.Add(key, names); }
      ghost var start := missing;
      CheckAll(prev - next);
      mid := missing;
      CheckAll(next - prev);
      RecheckTwice(certificates.keys, routes.keys, prev - next, next - prev, start, mid, missing);
      RoutePhase(certificates.keys, old(routes.keys), key, names, start, missing);
    }
  }

  lemma UncoveredIffNoHit<Key(!new)>(certs: NamesByKey<Key>, name: string, hits: set<Key>)
    requires forall k :: k in hits <==> k in certs && exists c :: c in certs[k] && Finds(name, c, false)
    ensures Covered(certs, name) <==> hits != {}
  {
    assert forall c :: Finds(name, c, false) <==> Covers(c, name);
  }

  // ----- whole runs -----

  datatype Call<Key> = Call(key: Key, certificateNames: seq<string>, routeNames: seq<string>)

  /** The call is the most recent one for its key. */
  ghost predicate IsLatest<Key>(calls: seq<Call<Key>>, i: nat)
    requires i < |calls|
  {
    forall j :: i < j < |calls| ==> calls[j].key != calls[i].key
  }

  function CertsOf<Key>(c: Call<Key>): seq<string> { Normalize(c.certificateNames) }

  function RoutesOf<Key>(c: Call<Key>): seq<string> { Normalize(c.routeNames) }

  ghost predicate InSomeLatest<Key>(calls: seq<Call<Key>>, pick: Call<Key> -> seq<string>, name: string) {
    exists i :: 0 <= i < |calls| && IsLatest(calls, i) && name in pick(calls[i])
  }

  /** A name is missing after a run: some latest call routes it, and no latest call covers it. */
  ghost predicate MissingAfter<Key>(calls: seq<Call<Key>>, name: string) {
    && InSomeLatest(calls, RoutesOf, name)
    && !exists c :: InSomeLatest(calls, CertsOf, c) && Covers(c, name)
  }

  /** Each key's latest names, as a run of assignments leaves them. */
  ghost function Latest<Key>(calls: seq<Call<Key>>, pick: Call<Key> -> seq<string>): NamesByKey<Key> {
    if calls == [] then map[]
    else
      var last := calls[|calls| - 1];
      Assign(Latest(calls[..|calls| - 1], pick), last.key, pick(last))
  }

  ghost predicate InLatest<Key>(calls: seq<Call<Key>>, pick: Call<Key> -> seq<string>, k: Key, name: string) {
    exists i :: 0 <= i < |calls| && calls[i].key == k && IsLatest(calls, i) && name in pick(calls[i])
  }

  lemma {:induction false} LatestNames<Key>(
    calls: seq<Call<Key>>, pick: Call<Key> -> seq<string>, k: Key, name: string)
    ensures name in NamesOf(Latest(calls, pick), k) <==> InLatest(calls, pick, k, name)
  {
    if calls != [] {
      var n := |calls| - 1;
      var init := calls[..n];
      LatestNames(init, pick, k, name);
      assert forall i :: 0 <= i < n ==>
          (IsLatest(calls, i) <==> IsLatest(init, i) && init[i].key != calls[n].key);
      assert IsLatest(calls, n);
      if k != calls[n].key {
        assert InLatest(calls, pick, k, name) <==> InLatest(init, pick, k, name);
      }
    }
  }

  lemma RoutedInLatest<Key(!new)>(calls: seq<Call<Key>>, pick: Call<Key> -> seq<string>, name: string)
    ensures Routed(Latest(calls, pick), name) <==> InSomeLatest(calls, pick, name)
  {
    var m := Latest(calls, pick);
    if Routed(m, name) {
      var k :| k in m && name in m[k];
      LatestNames(calls, pick, k, name);
    }
    if InSomeLatest(calls, pick, name) {
      var i :| 0 <= i < |calls| && IsLatest(calls, i) && name in pick(calls[i]);
      LatestNames(calls, pick, calls[i].key, name);
    }
  }

  lemma LatestMissing<Key(!new)>(calls: seq<Call<Key>>, name: string)
    ensures IsMissing(Latest(calls, CertsOf), Latest(calls, RoutesOf), name) <==> MissingAfter(calls, name)
  {
    var certs := Latest(calls, CertsOf);
    RoutedInLatest(calls, RoutesOf, name);
    if Covered(certs, name) {
      var k, c :| k in certs && c in certs[k] && Covers(c, name);
      RoutedInLatest(calls, CertsOf, c);
    }
    forall c | InSomeLatest(calls, CertsOf, c) && Covers(c, name)
      ensures Covered(certs, name)
    {
      RoutedInLatest(calls, CertsOf, c);
    }
  }

  /** After any history of updates, in any iteration order, the kept set is the from-scratch set. */
  method Replay<Key(==, !new)>(calls: seq<Call<Key>>) returns (missing: set<string>)
    ensures forall name :: name in missing <==> MissingAfter(calls, name)
  {
    var m := new Matcher<Key>();
    for n := 0 to |calls|
      invariant m.Valid() && fresh(m) && fresh(m.certificates) && fresh(m.routes)
      invariant m.certificates.keys == Latest(calls[..n], CertsOf)
      invariant m.routes.keys == Latest(calls[..n], RoutesOf)
    {
      m.Update(calls[n].key, calls[n].certificateNames, calls[n].routeNames);
      assert calls[..n + 1][..n] == calls[..n];
    }
    assert calls[..|calls|] == calls;
    missing := m.missing;
    forall name ensures name in missing <==> MissingAfter(calls, name) {
      LatestMissing(calls, name);
    }
  }
}
