/**
 Merging the routes of one ingress into a configuration, by way of a map keyed by the decoded
 route id.
 */
module RouteMerge {
  import opened RouteOrder
  import opened Options

  datatype Owner = Owner(name: string, namespace: string)

  datatype RouteKey = RouteKey(owner: Owner, host: string, path: string)

  type RouteMap = map<RouteKey, Route>

  /** How route ids are read back; a text that is not an id decodes to nothing. */
  type Decoder = string -> Option<RouteKey>

  ghost predicate WellKeyed(m: RouteMap, dec: Decoder) {
    forall k :: k in m ==> dec(m[k].id) == Some(k)
  }

  /** The list holds exactly the routes of the map, each once and under its own decoded id. */
  ghost predicate IndexOf(routes: seq<Route>, m: RouteMap, dec: Decoder) {
    && WellKeyed(m, dec)
    && (forall r :: r in routes ==> dec(r.id).Some? && dec(r.id).value in m && m[dec(r.id).value] == r)
    && (forall k :: k in m ==> multiset(routes)[m[k]] == 1)
  }

  ghost predicate Indexable(routes: seq<Route>, dec: Decoder) {
    exists m :: IndexOf(routes, m, dec)
  }

  lemma IndexUnique(routes: seq<Route>, a: RouteMap, b: RouteMap, dec: Decoder)
    requires IndexOf(routes, a, dec) && IndexOf(routes, b, dec)
    ensures a == b
  {
  }

  lemma Twice(routes: seq<Route>, i: nat, j: nat)
    requires i < j < |routes| && routes[i] == routes[j]
    ensures multiset(routes)[routes[i]] >= 2
  {
    assert routes == routes[..j] + [routes[j]] + routes[j + 1..];
    assert routes[i] in routes[..j];
  }

  lemma IndexDistinct(routes: seq<Route>, m: RouteMap, dec: Decoder)
    requires IndexOf(routes, m, dec)
    ensures DistinctIds(routes)
  {
    forall i, j | 0 <= i < j < |routes| ensures routes[i].id != routes[j].id {
      if routes[i].id == routes[j].id {
        assert routes[i] in routes && routes[j] in routes;
        Twice(routes, i, j);
        assert false;
      }
    }
  }

  lemma IndexMultiset(a: seq<Route>, b: seq<Route>, m: RouteMap, dec: Decoder)
    requires IndexOf(a, m, dec) && IndexOf(b, m, dec)
    ensures multiset(a) == multiset(b)
  {
    forall r ensures multiset(a)[r] == multiset(b)[r] {
      if r in a || r in b {
        assert r in multiset(a) || r in multiset(b);
      } else {
        assert r !in multiset(a) && r !in multiset(b);
      }
    }
  }

  /** The sorted list of a map is unique: distinct ids leave the order no choice. */
  lemma CanonicalListUnique(a: seq<Route>, b: seq<Route>, m: RouteMap, dec: Decoder)
    requires IndexOf(a, m, dec) && IndexOf(b, m, dec) && Sorted(a) && Sorted(b)
    ensures a == b
  {
    IndexDistinct(a, m, dec);
    IndexMultiset(a, b, m, dec);
    SortedUnique(a, b);
  }

  lemma IndexPermuted(a: seq<Route>, b: seq<Route>, m: RouteMap, dec: Decoder)
    requires IndexOf(a, m, dec) && multiset(a) == multiset(b)
    ensures IndexOf(b, m, dec)
  {
    forall r | r in b ensures r in a {
      assert r in multiset(b);
    }
  }

  lemma IndexExtend(routes: seq<Route>, m: RouteMap, dec: Decoder, r: Route, k: RouteKey)
    requires IndexOf(routes, m, dec) && dec(r.id) == Some(k) && k !in m
    ensures IndexOf(routes + [r], m[k := r], dec)
  {
  }

  lemma IndexRestrict(routes: seq<Route>, n: nat, m: RouteMap, dec: Decoder) returns (m': RouteMap)
    requires n <= |routes| && IndexOf(routes, m, dec)
    ensures IndexOf(routes[..n], m', dec)
    ensures forall i :: n <= i < |routes| ==> dec(routes[i].id).value !in m'
  {
    m' := map k | k in m && m[k] in routes[..n] :: m[k];
    assert routes == routes[..n] + routes[n..];
    forall k | k in m' ensures multiset(routes[..n])[m[k]] == 1 {
      assert m[k] in multiset(routes[..n]);
      assert multiset(routes)[m[k]] == multiset(routes[..n])[m[k]] + multiset(routes[n..])[m[k]];
    }
    forall i | n <= i < |routes| ensures dec(routes[i].id).value !in m' {
      assert routes[i] in routes;
      if routes[i] in routes[..n] {
        var j :| 0 <= j < n && routes[j] == routes[i];
        Twice(routes, j, i);
        assert false;
      }
    }
  }

  /** Succeeds exactly on lists that have an index, and then returns it. */
  method ToMap(routes: seq<Route>, dec: Decoder) returns (r: Option<RouteMap>)
    ensures r.Some? <==> Indexable(routes, dec)
    ensures r.Some? ==> IndexOf(routes, r.value, dec)
  {
    var m: RouteMap := map[];
    for n := 0 to |routes|
      invariant IndexOf(routes[..n], m, dec)
    {
      var key := dec(routes[n].id);
      if key.None? || key.value in m {
        NotIndexable(routes, n, m, dec);
        return None;
      }
      IndexExtend(routes[..n], m, dec, routes[n], key.value);
      assert routes[..n + 1] == routes[..n] + [routes[n]];
      m := m[key.value := routes[n]];
    }
    assert routes[..|routes|] == routes;
    r := Some(m);
  }

  lemma NotIndexable(routes: seq<Route>, n: nat, m: RouteMap, dec: Decoder)
    requires n < |routes| && IndexOf(routes[..n], m, dec)
    requires dec(routes[n].id).None? || dec(routes[n].id).value in m
    ensures !Indexable(routes, dec)
  {
    assert routes[n] in routes;
    if all :| IndexOf(routes, all, dec) {
      var m' := IndexRestrict(routes, n, all, dec);
      IndexUnique(routes[..n], m, m', dec);
      assert false;
    }
  }

  // ----- the algebra of merging -----

  ghost function Without(m: RouteMap, owner: Owner): RouteMap {
    map k | k in m && k.owner != owner :: m[k]
  }

  /** The routes of one owner are replaced by `src`. */
  ghost function Merged(m: RouteMap, src: RouteMap, owner: Owner): RouteMap {
    Without(m, owner) + src
  }

  ghost predicate OwnedBy(m: RouteMap, owner: Owner) {
    forall k :: k in m ==> k.owner == owner
  }

  /** An upsert replaces exactly that owner's routes. */
  lemma MergeReplacesOwn(m: RouteMap, src: RouteMap, owner: Owner, k: RouteKey)
    requires OwnedBy(src, owner)
    ensures k.owner == owner ==> (k in Merged(m, src, owner) <==> k in src)
    ensures k.owner == owner && k in src ==> Merged(m, src, owner)[k] == src[k]
    ensures k.owner != owner ==> (k in Merged(m, src, owner) <==> k in m)
    ensures k.owner != owner && k in m ==> Merged(m, src, owner)[k] == m[k]
  {
  }

  /** Upserts of different owners commute. */
  lemma MergesCommute(m: RouteMap, a: RouteMap, oa: Owner, b: RouteMap, ob: Owner)
    requires OwnedBy(a, oa) && OwnedBy(b, ob) && oa != ob
    ensures Merged(Merged(m, a, oa), b, ob) == Merged(Merged(m, b, ob), a, oa)
  {
    var l, r := Merged(Merged(m, a, oa), b, ob), Merged(Merged(m, b, ob), a, oa);
    forall k ensures (k in l <==> k in r) && (k in l ==> l[k] == r[k]) {
      MergeReplacesOwn(m, a, oa, k);
      MergeReplacesOwn(m, b, ob, k);
      MergeReplacesOwn(Merged(m, a, oa), b, ob, k);
      MergeReplacesOwn(Merged(m, b, ob), a, oa, k);
    }
  }

  /** A later upsert of the same owner wins, and deleting undoes an upsert of a new owner. */
  lemma MergeOverwrites(m: RouteMap, a: RouteMap, b: RouteMap, owner: Owner)
    requires OwnedBy(a, owner)
    ensures Merged(Merged(m, a, owner), b, owner) == Merged(m, b, owner)
    ensures Without(Merged(m, a, owner), owner) == Without(m, owner)
  {
  }

  method RemoveName(m: RouteMap, owner: Owner) returns (out: RouteMap)
    ensures out == Without(m, owner)
  {
    out := m;
    var rest := m.Keys;
    while rest != {}
      invariant rest <= m.Keys
      invariant out == map k | k in m && (k in rest || k.owner != owner) :: m[k]
    {
      var k :| k in rest;
      if k.owner == owner {
        out := out - {k};
      }
      rest := rest - {k};
    }
  }

  method MergeMaps(dst: RouteMap, src: RouteMap) returns (out: RouteMap)
    ensures out == dst + src
  {
    out := dst;
    var rest := src.Keys;
    while rest != {}
      invariant rest <= src.Keys
      invariant out == dst + (src - rest)
    {
      var k :| k in rest;
      out := out[k := src[k]];
      rest := rest - {k};
    }
  }

  /** The routes of a map in canonical order, whatever order the map is walked in. */
  method ToList(m: RouteMap, ghost dec: Decoder) returns (out: seq<Route>)
    requires WellKeyed(m, dec)
    ensures Sorted(out) && IndexOf(out, m, dec)
  {
    var routes: seq<Route> := [];
    var rest := m.Keys;
    assert m - rest == map[];
    while rest != {}
      invariant rest <= m.Keys && IndexOf(routes, m - rest, dec)
    {
      var k :| k in rest;
      IndexExtend(routes, m - rest, dec, m[k], k);
      assert (m - rest)[k := m[k]] == m - (rest - {k});
      routes := routes + [m[k]];
      rest := rest - {k};
    }
    assert m - rest == m;
    out := Sort(routes);
    IndexPermuted(routes, out, m, dec);
  }

  /** Fails exactly when one of the lists has no index; otherwise the result's index is the merge. */
  method MergeRoutes(dst: seq<Route>, src: seq<Route>, owner: Owner, dec: Decoder) returns (r: Option<seq<Route>>)
    ensures r.Some? <==> Indexable(src, dec) && Indexable(dst, dec)
    ensures r.Some? ==> Sorted(r.value)
    ensures forall d, s :: r.Some? && IndexOf(dst, d, dec) && IndexOf(src, s, dec) ==>
              IndexOf(r.value, Merged(d, s, owner), dec)
  {
    var srcMap := ToMap(src, dec);
    if srcMap.None? { return None; }
    var dstMap := ToMap(dst, dec);
    if dstMap.None? { return None; }
    var rest := RemoveName(dstMap.value, owner);
    var merged := MergeMaps(rest, srcMap.value);
    var out := ToList(merged, dec);
    r := Some(out);
    forall d, s | IndexOf(dst, d, dec) && IndexOf(src, s, dec) ensures merged == Merged(d, s, owner) {
      IndexUnique(dst, d, dstMap.value, dec);
      IndexUnique(src, s, srcMap.value, dec);
    }
  }

  method DeleteRoutes(routes: seq<Route>, owner: Owner, dec: Decoder) returns (r: Option<seq<Route>>)
    ensures r.Some? <==> Indexable(routes, dec)
    ensures r.Some? ==> Sorted(r.value)
    ensures forall m :: r.Some? && IndexOf(routes, m, dec) ==> IndexOf(r.value, Without(m, owner), dec)
  {
    var index := ToMap(routes, dec);
    if index.None? { return None; }
    var left := RemoveName(index.value, owner);
    var out := ToList(left, dec);
    r := Some(out);
    forall m | IndexOf(routes, m, dec) ensures left == Without(m, owner) {
      IndexUnique(routes, m, index.value, dec);
    }
  }

  /** Two upserts of different owners give the same list in either order, a failed one changing nothing. */
  method UpsertInBothOrders(
    dst: seq<Route>, a: seq<Route>, oa: Owner, b: seq<Route>, ob: Owner, dec: Decoder)
    returns (ab: seq<Route>, ba: seq<Route>)
    requires oa != ob
    requires forall m :: IndexOf(a, m, dec) ==> OwnedBy(m, oa)
    requires forall m :: IndexOf(b, m, dec) ==> OwnedBy(m, ob)
    ensures ab == ba
    ensures forall d, ma, mb :: IndexOf(dst, d, dec) && IndexOf(a, ma, dec) && IndexOf(b, mb, dec) ==>
              Sorted(ab) && IndexOf(ab, Merged(Merged(d, ma, oa), mb, ob), dec)
    ensures forall d, ma :: IndexOf(dst, d, dec) && IndexOf(a, ma, dec) && !Indexable(b, dec) ==>
              Sorted(ab) && IndexOf(ab, Merged(d, ma, oa), dec)
    ensures forall d, mb :: IndexOf(dst, d, dec) && !Indexable(a, dec) && IndexOf(b, mb, dec) ==>
              Sorted(ab) && IndexOf(ab, Merged(d, mb, ob), dec)
    ensures !Indexable(dst, dec) || (!Indexable(a, dec) && !Indexable(b, dec)) ==> ab == dst
  {
    var onlyA := MergeRoutes(dst, a, oa, dec);
    var x := if onlyA.Some? then onlyA.value else dst;
    var thenB := MergeRoutes(x, b, ob, dec);
    ab := if thenB.Some? then thenB.value else x;

    var onlyB := MergeRoutes(dst, b, ob, dec);
    var y := if onlyB.Some? then onlyB.value else dst;
    var thenA := MergeRoutes(y, a, oa, dec);
    ba := if thenA.Some? then thenA.value else y;

    if Indexable(dst, dec) {
      ghost var d :| IndexOf(dst, d, dec);
      if Indexable(a, dec) && Indexable(b, dec) {
        ghost var ma :| IndexOf(a, ma, dec);
        ghost var mb :| IndexOf(b, mb, dec);
        assert IndexOf(x, Merged(d, ma, oa), dec) && IndexOf(y, Merged(d, mb, ob), dec);
        MergesCommute(d, ma, oa, mb, ob);
        CanonicalListUnique(ab, ba, Merged(Merged(d, ma, oa), mb, ob), dec);
      } else if Indexable(a, dec) {
        ghost var ma :| IndexOf(a, ma, dec);
        CanonicalListUnique(ab, ba, Merged(d, ma, oa), dec);
      } else if Indexable(b, dec) {
        ghost var mb :| IndexOf(b, mb, dec);
        CanonicalListUnique(ab, ba, Merged(d, mb, ob), dec);
      }
    }
  }
}
