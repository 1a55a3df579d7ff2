/**
 The registry of dependencies between objects, the fetch of an ingress that fills it, and the map
 from an object's event to the ingresses it concerns.
 */
module Registry {
  import opened Options

  datatype Key = Key(kind: string, namespace: string, name: string)

  type Items = map<Key, set<Key>>

  ghost predicate Edge(items: Items, x: Key, y: Key) {
    x in items && y in items[x]
  }

  /** Symmetric, irreflexive, and without empty entries. */
  ghost predicate WellFormed(items: Items) {
    && (forall x, y :: Edge(items, x, y) ==> Edge(items, y, x) && x != y)
    && (forall x :: x in items ==> items[x] != {})
  }

  function Put(items: Items, x: Key, y: Key): (r: Items)
    ensures forall a, b :: Edge(r, a, b) <==> Edge(items, a, b) || (a == x && b == y)
    ensures (forall a :: a in items ==> items[a] != {}) ==> forall a :: a in r ==> r[a] != {}
  {
    items[x := (if x in items then items[x] else {}) + {y}]
  }

  /** Drops one direction of an edge, and the entry once it is empty. */
  function Del(items: Items, x: Key, y: Key): (r: Items)
    ensures forall a, b :: Edge(r, a, b) <==> Edge(items, a, b) && !(a == x && b == y)
    ensures (forall a :: a in items ==> items[a] != {}) ==> forall a :: a in r ==> r[a] != {}
  {
    if x !in items then items else
    assert forall b | b in items[x] && b != y :: b in items[x] - {y};
    if items[x] - {y} == {} then items - {x} else items[x := items[x] - {y}]
  }

  class DependencyRegistry {
    var items: Items

    ghost predicate Valid()
      reads this
    {
      WellFormed(items)
    }

    constructor ()
      ensures Valid() && items == map[]
    {
      items := map[];
    }

    method Add(x: Key, y: Key)
      requires Valid()
      modifies this
      ensures Valid()
      ensures forall a, b :: Edge(items, a, b) <==>
                old(Edge(items, a, b)) || (x != y && ((a == x && b == y) || (a == y && b == x)))
    {
      if x != y {
        items := Put(items, x, y);
        items := Put(items, y, x);
      }
    }

    method DeleteCascade(x: Key)
      requires Valid()
      modifies this
      ensures Valid()
      ensures forall a, b :: Edge(items, a, b) <==> old(Edge(items, a, b)) && a != x && b != x
    {
      var rest := if x in items then items[x] else {};
      ghost var all := rest;
      while rest != {}
        invariant rest <= all
        invariant forall a, b :: Edge(items, a, b) <==>
                    old(Edge(items, a, b)) && !(a == x && b in all - rest) && !(b == x && a in all - rest)
        invariant forall a :: a in items ==> items[a] != {}
      {
        var k :| k in rest;
        items := Del(items, x, k);
        items := Del(items, k, x);
        rest := rest - {k};
      }
      assert forall b :: old(Edge(items, x, b)) ==> b in all;
      assert forall a :: old(Edge(items, a, x)) ==> old(Edge(items, x, a));
    }

    method DepsOfKind(x: Key, kind: string) returns (keys: set<Key>)
      ensures forall k :: k in keys <==> Edge(items, x, k) && k.kind == kind
    {
      var rest := if x in items then items[x] else {};
      keys := {};
      while rest != {}
        invariant forall k :: k in rest ==> Edge(items, x, k)
        invariant forall k :: k in keys <==> Edge(items, x, k) && k !in rest && k.kind == kind
      {
        var k :| k in rest;
        if k.kind == kind {
          keys := keys + {k};
        }
        rest := rest - {k};
      }
    }
  }

  // ----- what a fetch asks for -----

  const INGRESS := "Ingress"

  /** What an ingress refers to; a path without a service is an error, and names are in its namespace. */
  datatype Spec = Spec(
    statusService: Option<(string, string)>, secrets: seq<string>,
    backends: seq<Option<string>>, defaultBackend: Option<string>)

  /** The cluster during one fetch: whether a read succeeds, and which services are external names. */
  datatype Objects = Objects(readable: Key -> bool, external: string -> bool)

  /** The outcome of a fetch: the objects it asked for in order, and whether it failed. */
  datatype Fetched = Fetched(asked: seq<Key>, failed: bool)

  function Then(a: Fetched, b: Fetched): Fetched {
    if a.failed then a else Fetched(a.asked + b.asked, b.failed)
  }

  function AskFor(o: Objects, k: Key): Fetched {
    Fetched([k], !o.readable(k))
  }

  function AskService(o: Objects, ns: string, name: string): Fetched {
    var service := AskFor(o, Key("Service", ns, name));
    if service.failed || o.external(name) then service
    else Then(service, AskFor(o, Key("Endpoints", ns, name)))
  }

  function AskSecrets(o: Objects, ns: string, secrets: seq<string>, n: nat): Fetched
    requires n <= |secrets|
  {
    if n == 0 then Fetched([], false)
    else Then(AskSecrets(o, ns, secrets, n - 1), AskFor(o, Key("Secret", ns, secrets[n - 1])))
  }

  function AskBackends(o: Objects, ns: string, backends: seq<Option<string>>, n: nat): Fetched
    requires n <= |backends|
  {
    if n == 0 then Fetched([], false)
    else
      Then(AskBackends(o, ns, backends, n - 1),
           match backends[n - 1]
           case None => Fetched([], true)
           case Some(name) => AskService(o, ns, name))
  }

  /** Everything one fetch of the ingress asks for; only the status service may be missing. */
  function Asks(o: Objects, ns: string, spec: Spec): Fetched {
    Then(AskStatus(spec),
      Then(AskSecrets(o, ns, spec.secrets, |spec.secrets|), AskServices(o, ns, spec)))
  }

  function AskStatus(spec: Spec): Fetched {
    Fetched(
      if spec.statusService.Some? then [Key("Service", spec.statusService.value.0, spec.statusService.value.1)] else [],
      false)
  }

  function AskServices(o: Objects, ns: string, spec: Spec): Fetched {
    Then(AskBackends(o, ns, spec.backends, |spec.backends|),
      if spec.defaultBackend.Some? then AskService(o, ns, spec.defaultBackend.value) else Fetched([], false))
  }

  lemma AskKind(o: Objects, ns: string, spec: Spec, k: Key)
    requires k in Asks(o, ns, spec).asked
    ensures k.kind != INGRESS
  {
    SecretKinds(o, ns, spec.secrets, |spec.secrets|, k);
    BackendKinds(o, ns, spec.backends, |spec.backends|, k);
  }

  lemma {:induction false} SecretKinds(o: Objects, ns: string, secrets: seq<string>, n: nat, k: Key)
    requires n <= |secrets|
    ensures k in AskSecrets(o, ns, secrets, n).asked ==> k.kind != INGRESS
  {
    if n > 0 {
      SecretKinds(o, ns, secrets, n - 1, k);
    }
  }

  lemma {:induction false} BackendKinds(o: Objects, ns: string, backends: seq<Option<string>>, n: nat, k: Key)
    requires n <= |backends|
    ensures k in AskBackends(o, ns, backends, n).asked ==> k.kind != INGRESS
  {
    if n > 0 {
      BackendKinds(o, ns, backends, n - 1, k);
    }
  }

  /** What a service name stands for: the service, and its endpoints unless it is an external name. */
  ghost predicate OfService(o: Objects, ns: string, name: string, k: Key) {
    k == Key("Service", ns, name) || (!o.external(name) && k == Key("Endpoints", ns, name))
  }

  ghost predicate IsSecret(ns: string, secrets: seq<string>, k: Key) {
    exists name :: name in secrets && k == Key("Secret", ns, name)
  }

  ghost predicate IsBackend(o: Objects, ns: string, backends: seq<Option<string>>, k: Key) {
    exists name :: Some(name) in backends && OfService(o, ns, name, k)
  }

  /** The objects an ingress refers to, directly or through a service. */
  ghost predicate RefersTo(o: Objects, ns: string, spec: Spec, k: Key) {
    || (spec.statusService.Some? && k == Key("Service", spec.statusService.value.0, spec.statusService.value.1))
    || IsSecret(ns, spec.secrets, k)
    || IsBackend(o, ns, spec.backends, k)
    || (spec.defaultBackend.Some? && OfService(o, ns, spec.defaultBackend.value, k))
  }

  lemma ServiceAsked(o: Objects, ns: string, name: string, k: Key)
    ensures k in AskService(o, ns, name).asked ==> OfService(o, ns, name, k)
    ensures !AskService(o, ns, name).failed && OfService(o, ns, name, k) ==> k in AskService(o, ns, name).asked
  {
  }

  lemma {:induction false} SecretsAsked(o: Objects, ns: string, secrets: seq<string>, n: nat, k: Key)
    requires n <= |secrets|
    ensures k in AskSecrets(o, ns, secrets, n).asked ==> IsSecret(ns, secrets[..n], k)
    ensures !AskSecrets(o, ns, secrets, n).failed && IsSecret(ns, secrets[..n], k) ==>
              k in AskSecrets(o, ns, secrets, n).asked
  {
    if n > 0 {
      SecretsAsked(o, ns, secrets, n - 1, k);
      assert secrets[..n] == secrets[..n - 1] + [secrets[n - 1]];
    }
  }

  lemma {:induction false} BackendsAsked(o: Objects, ns: string, backends: seq<Option<string>>, n: nat, k: Key)
    requires n <= |backends|
    ensures k in AskBackends(o, ns, backends, n).asked ==> IsBackend(o, ns, backends[..n], k)
    ensures !AskBackends(o, ns, backends, n).failed && IsBackend(o, ns, backends[..n], k) ==>
              k in AskBackends(o, ns, backends, n).asked
  {
    if n > 0 {
      BackendsAsked(o, ns, backends, n - 1, k);
      assert backends[..n] == backends[..n - 1] + [backends[n - 1]];
      assert backends[n - 1] in backends[..n];
      if backends[n - 1].Some? {
        ServiceAsked(o, ns, backends[n - 1].value, k);
      }
    }
  }

  /** A fetch asks for nothing but what the ingress refers to, and for all of it unless it fails. */
  lemma AsksForReferences(o: Objects, ns: string, spec: Spec, k: Key)
    ensures k in Asks(o, ns, spec).asked ==> RefersTo(o, ns, spec, k)
    ensures !Asks(o, ns, spec).failed && RefersTo(o, ns, spec, k) ==> k in Asks(o, ns, spec).asked
  {
    SecretsAsked(o, ns, spec.secrets, |spec.secrets|, k);
    BackendsAsked(o, ns, spec.backends, |spec.backends|, k);
    assert spec.secrets[..|spec.secrets|] == spec.secrets && spec.backends[..|spec.backends|] == spec.backends;
    if spec.defaultBackend.Some? {
      ServiceAsked(o, ns, spec.defaultBackend.value, k);
    }
  }

  /** A fetch that failed asked for an object it could not read, or met a path without a service. */
  ghost predicate Explains(f: Fetched, o: Objects, noService: bool) {
    f.failed ==> noService || exists k :: k in f.asked && !o.readable(k)
  }

  lemma ThenExplains(a: Fetched, b: Fetched, o: Objects, noService: bool)
    requires Explains(a, o, noService) && Explains(b, o, noService)
    ensures Explains(Then(a, b), o, noService)
  {
  }

  lemma {:induction false} SecretsExplain(o: Objects, ns: string, secrets: seq<string>, n: nat, noService: bool)
    requires n <= |secrets|
    ensures Explains(AskSecrets(o, ns, secrets, n), o, noService)
  {
    if n > 0 {
      SecretsExplain(o, ns, secrets, n - 1, noService);
      var k := Key("Secret", ns, secrets[n - 1]);
      assert k in AskFor(o, k).asked;
      ThenExplains(AskSecrets(o, ns, secrets, n - 1), AskFor(o, k), o, noService);
    }
  }

  lemma ServiceExplains(o: Objects, ns: string, name: string, noService: bool)
    ensures Explains(AskService(o, ns, name), o, noService)
  {
  }

  lemma {:induction false} BackendsExplain(o: Objects, ns: string, backends: seq<Option<string>>, n: nat)
    requires n <= |backends|
    ensures Explains(AskBackends(o, ns, backends, n), o, None in backends)
  {
    if n > 0 {
      BackendsExplain(o, ns, backends, n - 1);
      if backends[n - 1].Some? {
        ServiceExplains(o, ns, backends[n - 1].value, None in backends);
        ThenExplains(
          AskBackends(o, ns, backends, n - 1), AskService(o, ns, backends[n - 1].value), o, None in backends);
      } else {
        assert None in backends;
      }
    }
  }

  /** So the object whose absence stops an ingress is among those whose events bring it back. */
  lemma BlockedFetchIsWatched(o: Objects, ns: string, spec: Spec)
    requires Asks(o, ns, spec).failed
    ensures None in spec.backends || exists k :: k in Asks(o, ns, spec).asked && !o.readable(k)
  {
    var noService := None in spec.backends;
    var secrets := AskSecrets(o, ns, spec.secrets, |spec.secrets|);
    var backends := AskBackends(o, ns, spec.backends, |spec.backends|);
    var last :=
      if spec.defaultBackend.Some? then AskService(o, ns, spec.defaultBackend.value) else Fetched([], false);
    SecretsExplain(o, ns, spec.secrets, |spec.secrets|, noService);
    BackendsExplain(o, ns, spec.backends, |spec.backends|);
    if spec.defaultBackend.Some? { ServiceExplains(o, ns, spec.defaultBackend.value, noService); }
    ThenExplains(backends, last, o, noService);
    ThenExplains(secrets, Then(backends, last), o, noService);
    ThenExplains(AskStatus(spec), Then(secrets, Then(backends, last)), o, noService);
  }

  // ----- the fetch itself -----

  /** The edges of `base`, and those between `i` and what it asked for. */
  ghost predicate Tracks(items: Items, base: Items, i: Key, asked: seq<Key>) {
    forall a, b :: Edge(items, a, b) <==>
      Edge(base, a, b) || (a != b && ((a == i && b in asked) || (b == i && a in asked)))
  }

  /** Reads an object for `i`; the dependency is recorded before the read. */
  method Get(reg: DependencyRegistry, i: Key, k: Key, o: Objects, ghost base: Items, ghost asked: seq<Key>)
    returns (failed: bool)
    requires reg.Valid() && Tracks(reg.items, base, i, asked)
    modifies reg
    ensures reg.Valid() && Tracks(reg.items, base, i, asked + [k])
    ensures failed <==> !o.readable(k)
  {
    reg.Add(i, k);
    failed := !o.readable(k);
  }

  method FetchSecrets(
    reg: DependencyRegistry, i: Key, o: Objects, secrets: seq<string>, ghost base: Items, ghost asked: seq<Key>)
    returns (failed: bool)
    requires reg.Valid() && Tracks(reg.items, base, i, asked)
    modifies reg
    ensures var f := AskSecrets(o, i.namespace, secrets, |secrets|);
            reg.Valid() && Tracks(reg.items, base, i, asked + f.asked) && failed == f.failed
  {
    failed := false;
    ghost var done: seq<Key> := [];
    assert asked + done == asked;
    for n := 0 to |secrets|
      invariant reg.Valid() && Tracks(reg.items, base, i, asked + done)
      invariant AskSecrets(o, i.namespace, secrets, n) == Fetched(done, false) && !failed
    {
      var k := Key("Secret", i.namespace, secrets[n]);
      failed := Get(reg, i, k, o, base, asked + done);
      assert asked + done + [k] == asked + (done + [k]);
      done := done + [k];
      if failed {
        AskedMore(o, i.namespace, secrets, n + 1);
        return;
      }
    }
  }

  /** Once a read failed, the later ones are not asked for. */
  lemma {:induction false} AskedMore(o: Objects, ns: string, secrets: seq<string>, n: nat)
    requires n <= |secrets| && AskSecrets(o, ns, secrets, n).failed
    ensures AskSecrets(o, ns, secrets, |secrets|) == AskSecrets(o, ns, secrets, n)
    decreases |secrets| - n
  {
    if n < |secrets| {
      AskedMore(o, ns, secrets, n + 1);
    }
  }

  method FetchService(
    reg: DependencyRegistry, i: Key, o: Objects, name: string, ghost base: Items, ghost asked: seq<Key>)
    returns (failed: bool)
    requires reg.Valid() && Tracks(reg.items, base, i, asked)
    modifies reg
    ensures var f := AskService(o, i.namespace, name);
            reg.Valid() && Tracks(reg.items, base, i, asked + f.asked) && failed == f.failed
  {
    var service, endpoints := Key("Service", i.namespace, name), Key("Endpoints", i.namespace, name);
    failed := Get(reg, i, service, o, base, asked);
    if failed || o.external(name) { return; }
    failed := Get(reg, i, endpoints, o, base, asked + [service]);
    assert asked + [service] + [endpoints] == asked + ([service] + [endpoints]);
  }

  lemma {:induction false} AskedMoreBackends(o: Objects, ns: string, backends: seq<Option<string>>, n: nat)
    requires n <= |backends| && AskBackends(o, ns, backends, n).failed
    ensures AskBackends(o, ns, backends, |backends|) == AskBackends(o, ns, backends, n)
    decreases |backends| - n
  {
    if n < |backends| {
      AskedMoreBackends(o, ns, backends, n + 1);
    }
  }

  method FetchBackends(
    reg: DependencyRegistry, i: Key, o: Objects, backends: seq<Option<string>>, ghost base: Items,
    ghost asked: seq<Key>)
    returns (failed: bool)
    requires reg.Valid() && Tracks(reg.items, base, i, asked)
    modifies reg
    ensures var f := AskBackends(o, i.namespace, backends, |backends|);
            reg.Valid() && Tracks(reg.items, base, i, asked + f.asked) && failed == f.failed
  {
    failed := false;
    ghost var done: seq<Key> := [];
    assert asked + done == asked;
    for n := 0 to |backends|
      invariant reg.Valid() && Tracks(reg.items, base, i, asked + done)
      invariant AskBackends(o, i.namespace, backends, n) == Fetched(done, false) && !failed
    {
      if backends[n].None? {
        assert done + [] == done;
        AskedMoreBackends(o, i.namespace, backends, n + 1);
        return true;
      }
      ghost var more := AskService(o, i.namespace, backends[n].value).asked;
      failed := FetchService(reg, i, o, backends[n].value, base, asked + done);
      assert asked + done + more == asked + (done + more);
      done := done + more;
      if failed {
        AskedMoreBackends(o, i.namespace, backends, n + 1);
        return;
      }
    }
  }

  /** The services of the paths, and of the default backend if there is one. */
  method FetchServices(
    reg: DependencyRegistry, i: Key, o: Objects, spec: Spec, ghost base: Items, ghost asked: seq<Key>)
    returns (failed: bool)
    requires reg.Valid() && Tracks(reg.items, base, i, asked)
    modifies reg
    ensures var f := AskServices(o, i.namespace, spec);
            reg.Valid() && Tracks(reg.items, base, i, asked + f.asked) && failed == f.failed
  {
    ghost var backends := AskBackends(o, i.namespace, spec.backends, |spec.backends|).asked;
    failed := FetchBackends(reg, i, o, spec.backends, base, asked);
    if failed { return; }
    if spec.defaultBackend.Some? {
      failed := FetchService(reg, i, o, spec.defaultBackend.value, base, asked + backends);
      Associative(asked, backends, AskService(o, i.namespace, spec.defaultBackend.value).asked);
    } else {
      assert backends + [] == backends;
    }
  }

  /** The edges not at `i`. */
  ghost predicate Others(items: Items, base: Items, i: Key) {
    forall a, b :: Edge(items, a, b) <==> Edge(base, a, b) && a != i && b != i
  }

  /** One fetch: forget what `i` depended on, then ask; afterwards `i` depends on exactly what it asked for. */
  method Fetch(reg: DependencyRegistry, i: Key, spec: Spec, o: Objects) returns (failed: bool, ghost base: Items)
    requires reg.Valid()
    modifies reg
    ensures reg.Valid() && Others(base, old(reg.items), i)
    ensures Tracks(reg.items, base, i, Asks(o, i.namespace, spec).asked)
    ensures failed == Asks(o, i.namespace, spec).failed
  {
    reg.DeleteCascade(i);
    base := reg.items;
    ghost var asked := AskStatus(spec).asked;
    if spec.statusService.Some? {
      var k := Key("Service", spec.statusService.value.0, spec.statusService.value.1);
      var _ := Get(reg, i, k, o, base, []);
      assert [] + [k] == asked;
    }
    ghost var secrets := AskSecrets(o, i.namespace, spec.secrets, |spec.secrets|).asked;
    failed := FetchSecrets(reg, i, o, spec.secrets, base, asked);
    if failed { return; }
    failed := FetchServices(reg, i, o, spec, base, asked + secrets);
    Associative(asked, secrets, AskServices(o, i.namespace, spec).asked);
  }

  lemma Associative(a: seq<Key>, b: seq<Key>, c: seq<Key>)
    ensures a + b + c == a + (b + c)
  {
  }

  /** The ingresses an event of `x` concerns. */
  method Dependants(reg: DependencyRegistry, x: Key, watching: Key -> bool) returns (ingresses: set<Key>)
    ensures forall i :: i in ingresses <==> watching(x) && Edge(reg.items, x, i) && i.kind == INGRESS
  {
    if !watching(x) { return {}; }
    ingresses := reg.DepsOfKind(x, INGRESS);
  }

  // ----- runs of fetches and deletes -----

  datatype Event = Fetching(namespace: string, name: string, spec: Spec, objects: Objects)
                 | Deleted(namespace: string, name: string)

  function IngressKey(e: Event): Key {
    Key(INGRESS, e.namespace, e.name)
  }

  /** What the ingress asked for in its latest fetch, unless it was deleted since. */
  ghost function LatestAsks(events: seq<Event>, n: nat, i: Key): seq<Key>
    requires n <= |events|
  {
    if n == 0 then []
    else if IngressKey(events[n - 1]) != i then LatestAsks(events, n - 1, i)
    else match events[n - 1]
      case Fetching(_, _, spec, objects) => Asks(objects, i.namespace, spec).asked
      case Deleted(_, _) => []
  }

  /** Ingresses depend on exactly what they last asked for, and there are no other edges. */
  ghost predicate Reflects(items: Items, events: seq<Event>, n: nat)
    requires n <= |events|
  {
    forall a, b :: Edge(items, a, b) <==>
      || (a.kind == INGRESS && b.kind != INGRESS && b in LatestAsks(events, n, a))
      || (b.kind == INGRESS && a.kind != INGRESS && a in LatestAsks(events, n, b))
  }

  lemma FetchReflects(before: Items, base: Items, after: Items, events: seq<Event>, n: nat)
    requires n < |events| && Reflects(before, events, n) && events[n].Fetching?
    requires var i := IngressKey(events[n]);
             && Others(base, before, i)
             && Tracks(after, base, i, Asks(events[n].objects, i.namespace, events[n].spec).asked)
    ensures Reflects(after, events, n + 1)
  {
    var i := IngressKey(events[n]);
    forall k | k in Asks(events[n].objects, i.namespace, events[n].spec).asked ensures k.kind != INGRESS {
      AskKind(events[n].objects, i.namespace, events[n].spec, k);
    }
  }

  /** An event maps to an ingress exactly if its latest fetch asked for that object and it was not deleted since. */
  method Replay(events: seq<Event>, x: Key, watching: Key -> bool) returns (ingresses: set<Key>)
    ensures forall i :: i in ingresses <==>
              watching(x) && i.kind == INGRESS && x.kind != INGRESS && x in LatestAsks(events, |events|, i)
  {
    var reg := new DependencyRegistry();
    for n := 0 to |events|
      invariant reg.Valid() && fresh(reg) && Reflects(reg.items, events, n)
    {
      ghost var before := reg.items;
      match events[n] {
        case Fetching(_, _, spec, objects) =>
          var _, base := Fetch(reg, IngressKey(events[n]), spec, objects);
          FetchReflects(before, base, reg.items, events, n);
        case Deleted(_, _) =>
          reg.DeleteCascade(IngressKey(events[n]));
      }
    }
    ingresses := Dependants(reg, x, watching);
  }
}
