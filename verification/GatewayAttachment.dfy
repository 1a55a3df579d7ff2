/**
 Attaching HTTP routes to the listeners of a gateway: which listeners take a route, the hostnames it
 resolves to, and the counts of attached routes.
 */
module GatewayAttachment {
  import opened GatewayHostnames
  import opened Options

  /** Which namespaces a listener takes routes from; a selector is the set of namespaces it selects. */
  datatype From = All | Same | Selector(selects: string -> bool) | Unknown

  datatype Listener = Listener(name: string, hostname: Option<string>, from: From, supportsHTTPRoutes: bool)

  /** A route with one of its parent references. */
  datatype RouteInfo = RouteInfo(
    namespace: string, hostnames: seq<string>, sectionName: Option<string>, backendFilters: bool)

  datatype Reason =
    | NoReason | Accepted | NotAllowedByListeners | NoMatchingListenerHostname | NoMatchingParent | UnsupportedValue

  predicate Allowed(l: Listener, route: RouteInfo, gatewayNs: string) {
    match l.from
    case All => true
    case Same => route.namespace == gatewayNs
    case Selector(selects) => selects(route.namespace)
    case Unknown => false
  }

  predicate ValidListener(l: Listener) {
    l.hostname.Some? ==> ValidHostname(l.hostname.value)
  }

  predicate ValidRoute(route: RouteInfo) {
    forall x :: x in route.hostnames ==> ValidHostname(x)
  }

  /** A host reaches the route through this listener. */
  ghost predicate Reaches(l: Listener, route: RouteInfo, gatewayNs: string, host: string) {
    Allowed(l, route, gatewayNs) && BothMatch(l.hostname, route.hostnames, host)
  }

  /** The route attaches to the listener: some host reaches it. */
  ghost predicate Attaches(l: Listener, route: RouteInfo, gatewayNs: string) {
    exists host :: Reaches(l, route, gatewayNs, host)
  }

  class Gateway {
    const ns: string
    const listeners: seq<Listener>
    /** Listeners that take HTTP routes, by name; of several with one name the last. */
    var byName: map<string, nat>
    /** The AttachedRoutes count of each listener's status. */
    var attached: seq<nat>

    constructor (ns: string, listeners: seq<Listener>)
      ensures this.ns == ns && this.listeners == listeners && byName == map[] && |attached| == |listeners|
    {
      this.ns, this.listeners, byName, attached := ns, listeners, map[], seq(|listeners|, i => 0);
    }

    ghost predicate Valid()
      reads this
    {
      && |attached| == |listeners|
      && (forall i :: 0 <= i < |listeners| ==> ValidListener(listeners[i]))
      && (forall n :: n in byName ==> byName[n] < |listeners| && listeners[byName[n]].name == n)
    }

    /** The listener at `i` is looked at for this route. */
    ghost predicate Offered(route: RouteInfo, i: nat)
      reads this
    {
      && !route.backendFilters
      && exists n :: n in byName && byName[n] == i && (route.sectionName.None? || route.sectionName.value == n)
    }

    /** The counts once this route went through the listeners in `done`. */
    ghost predicate Counted(before: seq<nat>, route: RouteInfo, done: set<nat>)
      reads this
    {
      |before| == |attached| == |listeners| &&
      forall i :: 0 <= i < |attached| ==>
        attached[i] == before[i] + if i in done && Attaches(listeners[i], route, ns) then 1 else 0
    }

    /** What this listener alone says to the route. */
    ghost predicate ReasonFrom(i: nat, route: RouteInfo, reason: Reason)
      requires i < |listeners|
      reads this
    {
      match reason
      case Accepted => Attaches(listeners[i], route, ns)
      case NotAllowedByListeners => !Allowed(listeners[i], route, ns)
      case NoMatchingListenerHostname => Allowed(listeners[i], route, ns) && !Attaches(listeners[i], route, ns)
      case _ => false
    }

    ghost predicate SomeReason(route: RouteInfo, done: set<nat>, reason: Reason)
      reads this
    {
      exists i :: i in done && i < |listeners| && ReasonFrom(i, route, reason)
    }

    method ProcessForListener(i: nat, route: RouteInfo) returns (hostnames: seq<string>, reason: Reason)
      requires Valid() && ValidRoute(route) && i < |listeners|
      modifies this`attached
      ensures Valid()
      ensures reason == Accepted <==> Attaches(listeners[i], route, ns)
      ensures ReasonFrom(i, route, reason)
      ensures forall host :: Denotes(hostnames, host) <==> Reaches(listeners[i], route, ns, host)
      ensures attached == if reason == Accepted then old(attached)[i := old(attached)[i] + 1] else old(attached)
    {
      if !Allowed(listeners[i], route, ns) { return [], NotAllowedByListeners; }
      ValidIsExact(listeners[i].hostname, route.hostnames);
      hostnames := RouteHostnames(listeners[i].hostname, route.hostnames);
      if hostnames == [] {
        return hostnames, NoMatchingListenerHostname;
      }
      assert Attaches(listeners[i], route, ns) by {
        NonEmptyDenotes(hostnames);
        var host :| Denotes(hostnames, host);
        assert Reaches(listeners[i], route, ns, host);
      }
      attached := attached[i := attached[i] + 1];
      reason := Accepted;
    }

    /** Some listener of `done` lets the host through. */
    ghost predicate ReachedThrough(route: RouteInfo, done: set<nat>, host: string)
      reads this
    {
      exists i :: i in done && i < |listeners| && Reaches(listeners[i], route, ns, host)
    }

    /** The names denote exactly the hosts that the listeners in `done` let through. */
    ghost predicate DenoteReached(route: RouteInfo, names: set<string>, done: set<nat>)
      reads this
    {
      forall host :: DenotesAny(names, host) <==> ReachedThrough(route, done, host)
    }

    ghost predicate SomeAttaches(route: RouteInfo, done: set<nat>)
      reads this
    {
      exists i :: i in done && i < |listeners| && Attaches(listeners[i], route, ns)
    }

    /** What the route is told after the listeners in `done`. */
    ghost predicate Told(route: RouteInfo, done: set<nat>, reason: Reason)
      reads this
    {
      && (if done == {} then reason == NoReason else SomeReason(route, done, reason))
      && (reason == Accepted <==> SomeAttaches(route, done))
    }

    /** Processes one listener more and folds its result in. */
    method ProcessNext(
      i: nat, route: RouteInfo, names: set<string>, soFar: Reason, ghost before: seq<nat>, ghost done: set<nat>)
      returns (hostnames: set<string>, reason: Reason)
      requires Valid() && ValidRoute(route) && i < |listeners| && i !in done
      requires Counted(before, route, done) && Told(route, done, soFar)
      requires DenoteReached(route, names, done)
      modifies this`attached
      ensures Valid() && Counted(before, route, done + {i}) && Told(route, done + {i}, reason)
      ensures DenoteReached(route, hostnames, done + {i})
    {
      var found, one := ProcessForListener(i, route);
      hostnames := names + set x | x in found;
      // any acceptance counts; otherwise the reason of the first listener is kept
      reason := if soFar == NoReason || one == Accepted then one else soFar;
      forall host ensures DenotesAny(hostnames, host) <==> DenotesAny(names, host) || Denotes(found, host) {
        UnionDenotes(names, found, host);
      }
    }

    /** The listeners this route is offered to. */
    ghost predicate OfferedTo(route: RouteInfo, targets: set<nat>)
      reads this
    {
      forall i :: i in targets <==> Offered(route, i)
    }

    /** The listeners of all names but those in `rest`. */
    ghost predicate Visited(rest: set<string>, done: set<nat>)
      reads this
    {
      forall i :: i in done <==> exists n :: n in byName && n !in rest && byName[n] == i
    }

    lemma VisitNext(rest: set<string>, n: string, done: set<nat>)
      requires Valid() && n in rest && n in byName && Visited(rest, done)
      ensures byName[n] !in done && Visited(rest - {n}, done + {byName[n]})
    {
      forall i ensures i in done + {byName[n]} <==> exists m :: m in byName && m !in rest - {n} && byName[m] == i {
        if i in done {
          var m :| m in byName && m !in rest && byName[m] == i;
          assert m !in rest - {n};
        }
      }
    }

    /** Offers the route to every listener, in any order. */
    method ProcessAll(route: RouteInfo) returns (hostnames: set<string>, reason: Reason, ghost targets: set<nat>)
      requires Valid() && ValidRoute(route)
      modifies this`attached
      ensures Valid() && Visited({}, targets)
      ensures Counted(old(attached), route, targets) && Told(route, targets, reason)
      ensures DenoteReached(route, hostnames, targets)
    {
      hostnames, reason, targets := {}, NoReason, {};
      var rest := byName.Keys;
      while rest != {}
        invariant Valid() && rest <= byName.Keys && Visited(rest, targets)
        invariant Counted(old(attached), route, targets) && Told(route, targets, reason)
        invariant DenoteReached(route, hostnames, targets)
      {
        var n :| n in rest;
        ghost var done := targets;
        VisitNext(rest, n, done);
        targets := done + {byName[n]};
        hostnames, reason := ProcessNext(byName[n], route, hostnames, reason, old(attached), done);
        rest := rest - {n};
      }
    }

    method ProcessRoute(route: RouteInfo) returns (hostnames: set<string>, reason: Reason, ghost targets: set<nat>)
      requires Valid() && ValidRoute(route)
      modifies this`attached
      ensures Valid() && OfferedTo(route, targets)
      ensures if route.backendFilters then reason == UnsupportedValue
              else if targets == {} then reason == NoMatchingParent
              else SomeReason(route, targets, reason)
      ensures reason == Accepted <==> SomeAttaches(route, targets)
      ensures DenoteReached(route, hostnames, targets)
      ensures Counted(old(attached), route, targets)
    {
      hostnames, targets := {}, {};
      if route.backendFilters { return hostnames, UnsupportedValue, targets; }
      if route.sectionName.Some? {
        var n := route.sectionName.value;
        if n !in byName { return hostnames, NoMatchingParent, targets; }
        hostnames, reason := ProcessNext(byName[n], route, {}, NoReason, attached, {});
        targets := {byName[n]};
        assert {} + {byName[n]} == targets;
        return;
      }
      hostnames, reason, targets := ProcessAll(route);
      if reason == NoReason { reason := NoMatchingParent; }
    }
  }

  /** A route the gateway configures, with the hostnames it resolved to. */
  datatype RouteConfig = RouteConfig(route: RouteInfo, hostnames: set<string>)

  /** Of listeners with one name, the last that takes HTTP routes stands for the name. */
  ghost predicate StandsFor(listeners: seq<Listener>, upto: nat, n: string, i: nat)
    requires upto <= |listeners|
  {
    && i < upto && listeners[i].name == n && listeners[i].supportsHTTPRoutes
    && forall j :: i < j < upto && listeners[j].name == n ==> !listeners[j].supportsHTTPRoutes
  }

  lemma StandsForNext(listeners: seq<Listener>, i: nat, n: string, j: nat)
    requires i < |listeners|
    ensures StandsFor(listeners, i + 1, n, j) <==>
            if listeners[i].name == n && listeners[i].supportsHTTPRoutes then j == i
            else StandsFor(listeners, i, n, j)
  {
  }

  /** The listener at `i` is one the route names, or any if it names none. */
  ghost predicate Eligible(listeners: seq<Listener>, route: RouteInfo, i: nat)
    requires i < |listeners|
  {
    && !route.backendFilters
    && StandsFor(listeners, |listeners|, listeners[i].name, i)
    && (route.sectionName.None? || route.sectionName.value == listeners[i].name)
  }

  ghost predicate AttachesTo(listeners: seq<Listener>, ns: string, route: RouteInfo, i: nat)
    requires i < |listeners|
  {
    Eligible(listeners, route, i) && Attaches(listeners[i], route, ns)
  }

  ghost predicate AttachesAnywhere(listeners: seq<Listener>, ns: string, route: RouteInfo) {
    exists i :: 0 <= i < |listeners| && AttachesTo(listeners, ns, route, i)
  }

  /** A host reaches the route through some listener it may attach to. */
  ghost predicate Serves(listeners: seq<Listener>, ns: string, route: RouteInfo, host: string) {
    exists i :: 0 <= i < |listeners| && Eligible(listeners, route, i) && Reaches(listeners[i], route, ns, host)
  }

  /** How many of the first `n` routes attach to the listener at `i`. */
  ghost function AttachedCount(listeners: seq<Listener>, ns: string, routes: seq<RouteInfo>, n: nat, i: nat): nat
    requires n <= |routes| && i < |listeners|
  {
    if n == 0 then 0
    else
      AttachedCount(listeners, ns, routes, n - 1, i) + if AttachesTo(listeners, ns, routes[n - 1], i) then 1 else 0
  }

  ghost predicate NamesListeners(g: Gateway, upto: nat)
    requires upto <= |g.listeners|
    reads g
  {
    && (forall n :: n in g.byName ==> StandsFor(g.listeners, upto, n, g.byName[n]))
    && (forall i :: 0 <= i < upto && g.listeners[i].supportsHTTPRoutes ==> g.listeners[i].name in g.byName)
  }

  lemma OfferedIsEligible(g: Gateway, route: RouteInfo, i: nat)
    requires NamesListeners(g, |g.listeners|) && i < |g.listeners|
    ensures g.Offered(route, i) <==> Eligible(g.listeners, route, i)
  {
  }

  /** The first loop: name the listeners that take routes, and reset every count. */
  method ProcessListeners(g: Gateway)
    requires |g.attached| == |g.listeners| && g.byName == map[]
    requires forall i :: 0 <= i < |g.listeners| ==> ValidListener(g.listeners[i])
    modifies g
    ensures g.Valid() && NamesListeners(g, |g.listeners|)
    ensures forall i :: 0 <= i < |g.attached| ==> g.attached[i] == 0
  {
    for i := 0 to |g.listeners|
      invariant |g.attached| == |g.listeners|
      invariant NamesListeners(g, i)
      invariant forall j :: 0 <= j < i ==> g.attached[j] == 0
    {
      var l := g.listeners[i];
      if l.supportsHTTPRoutes {
        g.byName := g.byName[l.name := i];
      }
      g.attached := g.attached[i := 0];
      forall n: string, j: nat
        ensures StandsFor(g.listeners, i + 1, n, j) <==>
                if l.name == n && l.supportsHTTPRoutes then j == i else StandsFor(g.listeners, i, n, j)
      {
        StandsForNext(g.listeners, i, n, j);
      }
    }
  }

  /** The accepted ones among the first `n` routes, in order. */
  ghost function AcceptedRoutes(listeners: seq<Listener>, ns: string, routes: seq<RouteInfo>, n: nat): seq<RouteInfo>
    requires n <= |routes|
  {
    if n == 0 then []
    else
      AcceptedRoutes(listeners, ns, routes, n - 1) +
      if AttachesAnywhere(listeners, ns, routes[n - 1]) then [routes[n - 1]] else []
  }

  /** The configuration holds these routes, each with hostnames that denote exactly the hosts it serves. */
  ghost predicate Configures(listeners: seq<Listener>, ns: string, accepted: seq<RouteInfo>, config: seq<RouteConfig>) {
    && |config| == |accepted|
    && forall k :: 0 <= k < |config| ==>
         config[k].route == accepted[k] && Resolves(listeners, ns, accepted[k], config[k].hostnames)
  }

  ghost predicate Resolves(listeners: seq<Listener>, ns: string, route: RouteInfo, hostnames: set<string>) {
    forall host :: DenotesAny(hostnames, host) <==> Serves(listeners, ns, route, host)
  }

  /** The counts of all listeners after the first `n` routes. */
  ghost predicate CountsAfter(listeners: seq<Listener>, ns: string, routes: seq<RouteInfo>, n: nat, attached: seq<nat>)
    requires n <= |routes|
  {
    |attached| == |listeners| && forall i :: 0 <= i < |listeners| ==>
      attached[i] == AttachedCount(listeners, ns, routes, n, i)
  }

  lemma CountsNext(
    listeners: seq<Listener>, ns: string, routes: seq<RouteInfo>, n: nat, before: seq<nat>, after: seq<nat>)
    requires n < |routes| && CountsAfter(listeners, ns, routes, n, before) && |after| == |before|
    requires forall i :: 0 <= i < |listeners| ==>
               after[i] == before[i] + if AttachesTo(listeners, ns, routes[n], i) then 1 else 0
    ensures CountsAfter(listeners, ns, routes, n + 1, after)
  {
  }

  /** Each of the first routes is accepted exactly if it attaches somewhere. */
  ghost predicate Accepts(listeners: seq<Listener>, ns: string, routes: seq<RouteInfo>, accepted: seq<bool>) {
    |accepted| <= |routes| &&
    forall r :: 0 <= r < |accepted| ==> (accepted[r] <==> AttachesAnywhere(listeners, ns, routes[r]))
  }

  lemma AcceptsNext(listeners: seq<Listener>, ns: string, routes: seq<RouteInfo>, accepted: seq<bool>, one: bool)
    requires |accepted| < |routes| && Accepts(listeners, ns, routes, accepted)
    requires one <==> AttachesAnywhere(listeners, ns, routes[|accepted|])
    ensures Accepts(listeners, ns, routes, accepted + [one])
  {
  }

  lemma ConfiguresNext(
    listeners: seq<Listener>, ns: string, routes: seq<RouteInfo>, n: nat, config: seq<RouteConfig>,
    hostnames: set<string>)
    requires n < |routes| && Configures(listeners, ns, AcceptedRoutes(listeners, ns, routes, n), config)
    requires Resolves(listeners, ns, routes[n], hostnames)
    requires hostnames != {} <==> AttachesAnywhere(listeners, ns, routes[n])
    ensures Configures(listeners, ns, AcceptedRoutes(listeners, ns, routes, n + 1),
                       if hostnames != {} then config + [RouteConfig(routes[n], hostnames)] else config)
  {
  }

  method ProcessGateway(g: Gateway, routes: seq<RouteInfo>) returns (accepted: seq<bool>, config: seq<RouteConfig>)
    requires |g.attached| == |g.listeners| && g.byName == map[]
    requires forall i :: 0 <= i < |g.listeners| ==> ValidListener(g.listeners[i])
    requires forall r :: 0 <= r < |routes| ==> ValidRoute(routes[r])
    modifies g
    ensures |accepted| == |routes| && Accepts(g.listeners, g.ns, routes, accepted)
    ensures CountsAfter(g.listeners, g.ns, routes, |routes|, g.attached)
    ensures Configures(g.listeners, g.ns, AcceptedRoutes(g.listeners, g.ns, routes, |routes|), config)
  {
    ProcessListeners(g);
    accepted, config := [], [];
    for r := 0 to |routes|
      invariant g.Valid() && NamesListeners(g, |g.listeners|)
      invariant |accepted| == r && Accepts(g.listeners, g.ns, routes, accepted)
      invariant CountsAfter(g.listeners, g.ns, routes, r, g.attached)
      invariant Configures(g.listeners, g.ns, AcceptedRoutes(g.listeners, g.ns, routes, r), config)
    {
      ghost var before := g.attached;
      var hostnames, reason := ProcessOne(g, routes[r]);
      CountsNext(g.listeners, g.ns, routes, r, before, g.attached);
      AcceptsNext(g.listeners, g.ns, routes, accepted, reason == Accepted);
      ConfiguresNext(g.listeners, g.ns, routes, r, config, hostnames);
      accepted := accepted + [reason == Accepted];
      if hostnames != {} {
        config := config + [RouteConfig(routes[r], hostnames)];
      }
    }
  }

  method ProcessOne(g: Gateway, route: RouteInfo) returns (hostnames: set<string>, reason: Reason)
    requires g.Valid() && NamesListeners(g, |g.listeners|) && ValidRoute(route)
    modifies g`attached
    ensures g.Valid() && NamesListeners(g, |g.listeners|)
    ensures reason == Accepted <==> AttachesAnywhere(g.listeners, g.ns, route)
    ensures hostnames != {} <==> AttachesAnywhere(g.listeners, g.ns, route)
    ensures Resolves(g.listeners, g.ns, route, hostnames)
    ensures |g.attached| == |old(g.attached)| && forall i :: 0 <= i < |g.listeners| ==>
              g.attached[i] == old(g.attached)[i] + if AttachesTo(g.listeners, g.ns, route, i) then 1 else 0
  {
    ghost var targets;
    hostnames, reason, targets := g.ProcessRoute(route);
    forall i | 0 <= i < |g.listeners| ensures i in targets <==> Eligible(g.listeners, route, i) {
      OfferedIsEligible(g, route, i);
    }
    assert forall i :: 0 <= i < |g.listeners| ==>
        (AttachesTo(g.listeners, g.ns, route, i) <==> i in targets && Attaches(g.listeners[i], route, g.ns));
    SomeHostnames(g, route, hostnames);
  }

  lemma SomeHostnames(g: Gateway, route: RouteInfo, hostnames: set<string>)
    requires Resolves(g.listeners, g.ns, route, hostnames)
    ensures hostnames != {} <==> AttachesAnywhere(g.listeners, g.ns, route)
  {
    if hostnames != {} {
      var x :| x in hostnames;
      assert Matches(x, x) && DenotesAny(hostnames, x);
      var i :| 0 <= i < |g.listeners| && Eligible(g.listeners, route, i) && Reaches(g.listeners[i], route, g.ns, x);
      assert AttachesTo(g.listeners, g.ns, route, i);
    }
    if AttachesAnywhere(g.listeners, g.ns, route) {
      var i :| 0 <= i < |g.listeners| && AttachesTo(g.listeners, g.ns, route, i);
      var host :| Reaches(g.listeners[i], route, g.ns, host);
      assert Serves(g.listeners, g.ns, route, host) && DenotesAny(hostnames, host);
    }
  }

  ghost predicate DenotesAny(hostnames: set<string>, host: string) {
    exists x :: x in hostnames && Stands(x, host)
  }

  lemma UnionDenotes(names: set<string>, found: seq<string>, host: string)
    ensures DenotesAny(names + (set x | x in found), host) <==> DenotesAny(names, host) || Denotes(found, host)
  {
    var all := names + set x | x in found;
    assert forall x :: x in all <==> x in names || x in found;
  }
}
