/**
 The reconciler that keeps one configuration record: it clones the stored one, edits it, prunes
 certificates, sorts, validates and stores it. Reading, validating and storing may each fail.
 */
module Databroker {
  import opened RouteOrder
  import opened RouteMerge
  import Certs = CertPruning
  import opened Options

  /** The record: routes, certificates, and the URL of the authenticate service if it is set. */
  datatype Config = Config(routes: seq<Route>, certs: seq<Certs.Cert>, authenticate: Option<string>)

  /** An ingress: its name, the routes it translates to (if it does), its TLS certificates. */
  datatype IngressConfig = IngressConfig(owner: Owner, routes: Option<seq<Route>>, certs: seq<Certs.Cert>)

  /** What the reconciler takes from elsewhere: id decoding, URL and certificate parsing, validation. */
  datatype Env = Env(
    dec: Decoder, hostOf: string -> Option<string>, parse: Certs.Parser, valid: Config -> bool)

  ghost predicate Routed(env: Env, routes: seq<Route>, host: string) {
    exists r :: r in routes && env.hostOf(r.from) == Some(host)
  }

  /** Requests for the host are served: by a route, or by the authenticate service. */
  ghost predicate Served(env: Env, cfg: Config, host: string) {
    || Routed(env, cfg.routes, host)
    || (cfg.authenticate.Some? && env.hostOf(cfg.authenticate.value) == Some(host))
  }

  ghost predicate CoveredIn(env: Env, cfg: Config, host: string) {
    Certs.Parses(env.parse, cfg.certs) && Certs.Covered(Certs.Parsed(env.parse, cfg.certs), host)
  }

  ghost predicate HostsParse(env: Env, routes: seq<Route>) {
    forall r :: r in routes ==> env.hostOf(r.from).Some?
  }

  ghost predicate URLsParse(env: Env, cfg: Config) {
    HostsParse(env, cfg.routes) && (cfg.authenticate.Some? ==> env.hostOf(cfg.authenticate.value).Some?)
  }

  ghost predicate AreHosts(env: Env, cfg: Config, hosts: set<string>) {
    forall h :: h in hosts <==> Served(env, cfg, h)
  }

  method AllDomains(env: Env, cfg: Config) returns (hosts: Option<set<string>>)
    ensures hosts.Some? <==> URLsParse(env, cfg)
    ensures hosts.Some? ==> AreHosts(env, cfg, hosts.value)
  {
    var routes, found: set<string> := cfg.routes, {};
    for i := 0 to |routes|
      invariant HostsParse(env, routes[..i])
      invariant forall h :: h in found <==> Routed(env, routes[..i], h)
    {
      var host := env.hostOf(routes[i].from);
      if host.None? {
        assert routes[i] in routes;
        return None;
      }
      assert routes[..i + 1] == routes[..i] + [routes[i]];
      found := found + {host.value};
    }
    assert routes[..|routes|] == routes;
    if cfg.authenticate.Some? {
      var host := env.hostOf(cfg.authenticate.value);
      if host.None? { return None; }
      found := found + {host.value};
    }
    hosts := Some(found);
  }

  /** `saved` is `next` with its routes in order and its certificates pruned to the served hosts. */
  ghost predicate Saves(env: Env, next: Config, saved: Config) {
    && Certs.Parses(env.parse, next.certs) && URLsParse(env, next) && saved.authenticate == next.authenticate
    && Sorted(saved.routes) && multiset(saved.routes) == multiset(next.routes)
    && exists hosts: set<string>, kept: seq<nat> ::
         && AreHosts(env, next, hosts)
         && Certs.Prunes(env.parse, next.certs, hosts, kept)
         && saved.certs == Certs.Pick(next.certs, kept)
  }

  /** The configuration can be brought in order, and is then valid. */
  ghost predicate Savable(env: Env, next: Config) {
    exists saved :: Saves(env, next, saved) && env.valid(saved)
  }

  /** The two configurations differ at most in the order of their routes. */
  ghost predicate SameUpToOrder(a: Config, b: Config) {
    multiset(a.routes) == multiset(b.routes) && a.certs == b.certs && a.authenticate == b.authenticate
  }

  lemma SavedCertsUnique(env: Env, x: Config, y: Config, a: Config, b: Config)
    requires SameUpToOrder(x, y) && Saves(env, x, a) && Saves(env, y, b)
    ensures a.certs == b.certs
  {
    var hx: set<string>, kx: seq<nat> :|
      AreHosts(env, x, hx) && Certs.Prunes(env.parse, x.certs, hx, kx) && a.certs == Certs.Pick(x.certs, kx);
    var hy: set<string>, ky: seq<nat> :|
      AreHosts(env, y, hy) && Certs.Prunes(env.parse, y.certs, hy, ky) && b.certs == Certs.Pick(y.certs, ky);
    HostsUnique(env, x, y, hx, hy);
    Certs.PrunesUnique(env.parse, x.certs, hx, kx, ky);
  }

  lemma HostsUnique(env: Env, x: Config, y: Config, hx: set<string>, hy: set<string>)
    requires SameUpToOrder(x, y) && AreHosts(env, x, hx) && AreHosts(env, y, hy)
    ensures hx == hy
  {
    forall h ensures h in hx <==> h in hy {
      RoutedPermuted(env, x.routes, y.routes, h);
    }
  }

  /** What is saved is determined, whatever order the routes came in. */
  lemma SavesUnique(env: Env, x: Config, y: Config, a: Config, b: Config)
    requires SameUpToOrder(x, y) && Indexable(x.routes, env.dec) && Saves(env, x, a) && Saves(env, y, b)
    ensures a == b
  {
    SavedCertsUnique(env, x, y, a, b);
    var m :| IndexOf(x.routes, m, env.dec);
    IndexPermuted(x.routes, a.routes, m, env.dec);
    IndexPermuted(x.routes, b.routes, m, env.dec);
    CanonicalListUnique(a.routes, b.routes, m, env.dec);
  }

  lemma ParsedPick(parse: Certs.Parser, certs: seq<Certs.Cert>, kept: seq<nat>)
    requires Certs.Parses(parse, certs) && forall p :: 0 <= p < |kept| ==> kept[p] < |certs|
    ensures Certs.Parses(parse, Certs.Pick(certs, kept))
    ensures Certs.Parsed(parse, Certs.Pick(certs, kept)) == Certs.Pick(Certs.Parsed(parse, certs), kept)
  {
  }

  lemma PickKeepsCoverage(
    parse: Certs.Parser, certs: seq<Certs.Cert>, hosts: set<string>, kept: seq<nat>, host: string)
    requires Certs.Parses(parse, certs) && Certs.Prunes(parse, certs, hosts, kept)
    requires host in hosts && Certs.Covered(Certs.Parsed(parse, certs), host)
    ensures Certs.Parses(parse, Certs.Pick(certs, kept))
    ensures Certs.Covered(Certs.Parsed(parse, Certs.Pick(certs, kept)), host)
  {
    ParsedPick(parse, certs, kept);
    var p := Certs.PruningKeepsCoverage(Certs.Parsed(parse, certs), hosts, kept, host);
  }

  /** Saving keeps every served host covered that was covered before. */
  lemma SavingKeepsCoverage(env: Env, next: Config, saved: Config, host: string)
    requires Saves(env, next, saved) && Served(env, next, host) && CoveredIn(env, next, host)
    ensures CoveredIn(env, saved, host)
  {
    var hosts: set<string>, kept: seq<nat> :|
      && AreHosts(env, next, hosts)
      && Certs.Prunes(env.parse, next.certs, hosts, kept)
      && saved.certs == Certs.Pick(next.certs, kept);
    PickKeepsCoverage(env.parse, next.certs, hosts, kept, host);
  }

  lemma MoreCertsCover(parse: Certs.Parser, certs: seq<Certs.Cert>, more: seq<Certs.Cert>, host: string)
    requires Certs.Parses(parse, certs) && Certs.Covered(Certs.Parsed(parse, certs), host)
    requires Certs.Parses(parse, more) && certs <= more
    ensures Certs.Covered(Certs.Parsed(parse, more), host)
  {
    var i :| 0 <= i < |certs| && Certs.CoversHost(Certs.Parsed(parse, certs)[i], host);
    assert Certs.Parsed(parse, more)[i] == Certs.Parsed(parse, certs)[i];
  }

  lemma RoutedPermuted(env: Env, a: seq<Route>, b: seq<Route>, host: string)
    requires multiset(a) == multiset(b)
    ensures Routed(env, a, host) <==> Routed(env, b, host)
  {
    assert forall r :: r in a <==> r in multiset(a);
    assert forall r :: r in b <==> r in multiset(b);
  }

  /** An upsert that goes through has a configuration to save, and a delete likewise. */
  ghost predicate CanUpsert(env: Env, prev: Config, ic: IngressConfig) {
    exists next :: Upserted(env, prev, ic, next) && Savable(env, next)
  }

  ghost predicate CanDelete(env: Env, prev: Config, owner: Owner) {
    exists next :: Deleted(env, prev, owner, next) && Savable(env, next)
  }

  /** Two configurations with the same settings and the same route index are saved alike. */
  lemma SavableAlike(env: Env, x: Config, y: Config, m: RouteMap)
    requires IndexOf(x.routes, m, env.dec) && IndexOf(y.routes, m, env.dec)
    requires x.certs == y.certs && x.authenticate == y.authenticate && Savable(env, x)
    ensures Savable(env, y)
  {
    IndexMultiset(x.routes, y.routes, m, env.dec);
    var a :| Saves(env, x, a) && env.valid(a);
    var hosts: set<string>, kept: seq<nat> :|
      AreHosts(env, x, hosts) && Certs.Prunes(env.parse, x.certs, hosts, kept) && a.certs == Certs.Pick(x.certs, kept);
    forall h ensures Served(env, x, h) <==> Served(env, y, h) {
      RoutedPermuted(env, x.routes, y.routes, h);
    }
    assert forall r :: r in y.routes ==> r in multiset(x.routes) && r in x.routes;
    assert AreHosts(env, y, hosts);
    assert Saves(env, y, a);
  }

  class Reconciler {
    const env: Env
    var stored: Config
    /** Reads and writes of the record that failed so far. */
    ghost var faults: nat

    constructor (env: Env, stored: Config)
      ensures this.env == env && this.stored == stored && faults == 0
    {
      this.env, this.stored, faults := env, stored, 0;
    }

    /** Reads the record; the read may fail. */
    method GetConfig() returns (failed: bool)
      modifies this`faults
      ensures faults == old(faults) + if failed then 1 else 0
    {
      failed := *;
      faults := faults + if failed then 1 else 0;
    }

    /** Stores what is saved, unless it equals the record; a failed store may still have effect. */
    method SaveConfig(prev: Config, next: Config) returns (changed: bool, failed: bool)
      requires prev == stored
      modifies this
      ensures stored == old(stored) || Saves(env, next, stored)
      ensures if failed then !changed else changed <==> stored != old(stored)
      ensures !failed ==> Saves(env, next, stored) && env.valid(stored)
      ensures old(faults) <= faults && (faults > old(faults) ==> failed)
      ensures faults == old(faults) && Indexable(next.routes, env.dec) ==> (failed <==> !Savable(env, next))
    {
      changed, failed := false, true;
      var hosts := AllDomains(env, next);
      if hosts.None? { return; }
      var pruned, kept := Certs.RemoveUnusedCerts(env.parse, next.certs, hosts.value);
      if pruned.None? { return; }
      var sorted := Sort(next.routes);
      var saved := Config(sorted, pruned.value, next.authenticate);
      assert Saves(env, next, saved);
      if !env.valid(saved) {
        if Indexable(next.routes, env.dec) && Savable(env, next) {
          ghost var other :| Saves(env, next, other) && env.valid(other);
          SavesUnique(env, next, next, saved, other);
          assert false;
        }
        return;
      }
      if saved == prev { return false, false; }
      var effect: bool := *;
      failed := *;
      if !failed || effect {
        stored := saved;
      }
      faults := faults + if failed then 1 else 0;
      changed := !failed;
    }

    /** Fails without a fault exactly when there is nothing that could be saved. */
    method Upsert(ic: IngressConfig) returns (changed: bool, failed: bool)
      modifies this
      ensures stored == old(stored) || exists next :: Upserted(env, old(stored), ic, next) && Saves(env, next, stored)
      ensures if failed then !changed else changed <==> stored != old(stored)
      ensures !failed ==> env.valid(stored)
      ensures !failed ==> exists next :: Upserted(env, old(stored), ic, next) && Saves(env, next, stored)
      ensures old(faults) <= faults && (faults > old(faults) ==> failed)
      ensures faults == old(faults) ==> (failed <==> !CanUpsert(env, old(stored), ic))
    {
      var unread := GetConfig();
      if unread || ic.routes.None? { return false, true; }
      var merged := MergeRoutes(stored.routes, ic.routes.value, ic.owner, env.dec);
      if merged.None? { return false, true; }
      var next := Config(merged.value, stored.certs + ic.certs, stored.authenticate);
      UpsertedAlike(env, stored, ic, next);
      changed, failed := SaveConfig(stored, next);
    }

    method Delete(owner: Owner) returns (changed: bool, failed: bool)
      modifies this
      ensures stored == old(stored) || exists next :: Deleted(env, old(stored), owner, next) && Saves(env, next, stored)
      ensures if failed then !changed else changed <==> stored != old(stored)
      ensures !failed ==> env.valid(stored)
      ensures !failed ==> exists next :: Deleted(env, old(stored), owner, next) && Saves(env, next, stored)
      ensures old(faults) <= faults && (faults > old(faults) ==> failed)
      ensures faults == old(faults) ==> (failed <==> !CanDelete(env, old(stored), owner))
    {
      var unread := GetConfig();
      if unread { return false, true; }
      var left := DeleteRoutes(stored.routes, owner, env.dec);
      if left.None? { return false, true; }
      var next := Config(left.value, stored.certs, stored.authenticate);
      DeletedAlike(env, stored, owner, next);
      changed, failed := SaveConfig(stored, next);
    }
  }

  /** The list the merge returns stands for every list with the merged index. */
  lemma UpsertedAlike(env: Env, prev: Config, ic: IngressConfig, next: Config)
    requires ic.routes.Some? && Indexable(prev.routes, env.dec) && Indexable(ic.routes.value, env.dec)
    requires next.certs == prev.certs + ic.certs && next.authenticate == prev.authenticate
    requires forall d, s :: IndexOf(prev.routes, d, env.dec) && IndexOf(ic.routes.value, s, env.dec) ==>
               IndexOf(next.routes, Merged(d, s, ic.owner), env.dec)
    ensures Upserted(env, prev, ic, next) && Indexable(next.routes, env.dec)
    ensures CanUpsert(env, prev, ic) <==> Savable(env, next)
  {
    if CanUpsert(env, prev, ic) {
      var other :| Upserted(env, prev, ic, other) && Savable(env, other);
      var d, s :| IndexOf(prev.routes, d, env.dec) && IndexOf(ic.routes.value, s, env.dec)
        && IndexOf(other.routes, Merged(d, s, ic.owner), env.dec);
      SavableAlike(env, other, next, Merged(d, s, ic.owner));
    }
  }

  lemma DeletedAlike(env: Env, prev: Config, owner: Owner, next: Config)
    requires Indexable(prev.routes, env.dec) && next.certs == prev.certs && next.authenticate == prev.authenticate
    requires forall d :: IndexOf(prev.routes, d, env.dec) ==> IndexOf(next.routes, Without(d, owner), env.dec)
    ensures Deleted(env, prev, owner, next) && Indexable(next.routes, env.dec)
    ensures CanDelete(env, prev, owner) <==> Savable(env, next)
  {
    if CanDelete(env, prev, owner) {
      var other :| Deleted(env, prev, owner, other) && Savable(env, other);
      var d :| IndexOf(prev.routes, d, env.dec) && IndexOf(other.routes, Without(d, owner), env.dec);
      SavableAlike(env, other, next, Without(d, owner));
    }
  }

  /** The configuration an upsert is about to save: that owner's routes replaced, its certificates added. */
  ghost predicate Upserted(env: Env, prev: Config, ic: IngressConfig, next: Config) {
    && ic.routes.Some?
    && next.certs == prev.certs + ic.certs && next.authenticate == prev.authenticate
    && exists d, s :: IndexOf(prev.routes, d, env.dec) && IndexOf(ic.routes.value, s, env.dec)
         && IndexOf(next.routes, Merged(d, s, ic.owner), env.dec)
  }

  ghost predicate Deleted(env: Env, prev: Config, owner: Owner, next: Config) {
    && next.certs == prev.certs && next.authenticate == prev.authenticate
    && exists d :: IndexOf(prev.routes, d, env.dec) && IndexOf(next.routes, Without(d, owner), env.dec)
  }

  // ----- runs of upserts and deletes -----

  datatype Step = Put(ic: IngressConfig) | Remove(owner: Owner)

  lemma StepKeepsCoverage(env: Env, prev: Config, next: Config, saved: Config, host: string)
    requires Saves(env, next, saved) && CoveredIn(env, prev, host)
    requires prev.certs <= next.certs
    requires Served(env, saved, host)
    ensures CoveredIn(env, saved, host)
  {
    RoutedPermuted(env, saved.routes, next.routes, host);
    MoreCertsCover(env.parse, prev.certs, next.certs, host);
    SavingKeepsCoverage(env, next, saved, host);
  }

  /** One step away: nothing changed, or a configuration with no certificate taken away was saved. */
  ghost predicate Follows(env: Env, prev: Config, now: Config) {
    now == prev || exists next: Config :: prev.certs <= next.certs && Saves(env, next, now)
  }

  lemma FollowingKeepsCoverage(env: Env, prev: Config, now: Config, host: string)
    requires Follows(env, prev, now) && CoveredIn(env, prev, host) && Served(env, now, host)
    ensures CoveredIn(env, now, host)
  {
    if now != prev {
      var next: Config :| prev.certs <= next.certs && Saves(env, next, now);
      StepKeepsCoverage(env, prev, next, now, host);
    }
  }

  ghost predicate IsRun(env: Env, states: seq<Config>) {
    forall t :: 0 <= t < |states| - 1 ==> Follows(env, states[t], states[t + 1])
  }

  /** Along any run of upserts and deletes a host that stays served stays covered. */
  lemma {:induction false} RunsKeepCoverage(env: Env, states: seq<Config>, host: string, t: nat)
    requires IsRun(env, states) && t < |states|
    requires forall i :: 0 < i <= t ==> Served(env, states[i], host)
    requires CoveredIn(env, states[0], host)
    ensures CoveredIn(env, states[t], host)
  {
    if t > 0 {
      RunsKeepCoverage(env, states, host, t - 1);
      assert Follows(env, states[t - 1], states[t - 1 + 1]);
      FollowingKeepsCoverage(env, states[t - 1], states[t], host);
    }
  }

  /** Every sequence of calls is such a run. */
  method Run(r: Reconciler, steps: seq<Step>) returns (ghost states: seq<Config>)
    modifies r
    ensures |states| == |steps| + 1 && states[0] == old(r.stored) && states[|steps|] == r.stored
    ensures IsRun(r.env, states)
  {
    states := [r.stored];
    for i := 0 to |steps|
      invariant |states| == i + 1 && states[0] == old(r.stored) && states[i] == r.stored
      invariant IsRun(r.env, states)
    {
      match steps[i] {
        case Put(ic) => var _, _ := r.Upsert(ic);
        case Remove(owner) => var _, _ := r.Delete(owner);
      }
      assert Follows(r.env, states[i], r.stored);
      states := states + [r.stored];
    }
  }

  // ----- the same upsert again -----

  lemma MergeTwice(m: RouteMap, src: RouteMap, owner: Owner)
    ensures Merged(Merged(m, src, owner), src, owner) == Merged(m, src, owner)
  {
  }

  lemma RepeatedRoutes(env: Env, prev: Config, ic: IngressConfig, n1: Config, mid: Config, n2: Config, last: Config)
    requires Upserted(env, prev, ic, n1) && Saves(env, n1, mid)
    requires Upserted(env, mid, ic, n2) && Saves(env, n2, last)
    ensures last.routes == mid.routes && multiset(n2.routes) == multiset(n1.routes)
  {
    var dec := env.dec;
    var d, s :| IndexOf(prev.routes, d, dec) && IndexOf(ic.routes.value, s, dec)
      && IndexOf(n1.routes, Merged(d, s, ic.owner), dec);
    var e, t :| IndexOf(mid.routes, e, dec) && IndexOf(ic.routes.value, t, dec)
      && IndexOf(n2.routes, Merged(e, t, ic.owner), dec);
    var m := Merged(d, s, ic.owner);
    IndexPermuted(n1.routes, mid.routes, m, dec);
    IndexUnique(mid.routes, e, m, dec);
    IndexUnique(ic.routes.value, s, t, dec);
    MergeTwice(d, s, ic.owner);
    IndexPermuted(n2.routes, last.routes, m, dec);
    CanonicalListUnique(mid.routes, last.routes, m, dec);
  }

  lemma RepeatedCerts(
    env: Env, n1: Config, mid: Config, n2: Config, last: Config, more: seq<Certs.Cert>, hosts: set<string>)
    requires Saves(env, n1, mid) && Saves(env, n2, last) && multiset(n2.routes) == multiset(n1.routes)
    requires n2.certs == mid.certs + more && n2.authenticate == n1.authenticate
    requires (forall c :: c in more ==> c in n1.certs) && AreHosts(env, n1, hosts)
    ensures last.certs == mid.certs <==> Certs.AllWin(env.parse, n1.certs, hosts)
  {
    var h1: set<string>, kept: seq<nat> :|
      AreHosts(env, n1, h1) && Certs.Prunes(env.parse, n1.certs, h1, kept) && mid.certs == Certs.Pick(n1.certs, kept);
    var h2: set<string>, again: seq<nat> :|
      && AreHosts(env, n2, h2) && Certs.Prunes(env.parse, n2.certs, h2, again)
      && last.certs == Certs.Pick(n2.certs, again);
    assert h1 == hosts;
    forall h ensures h in h2 <==> h in hosts {
      RoutedPermuted(env, n2.routes, n1.routes, h);
    }
    assert h2 == hosts;
    Certs.PruningIsIdempotent(env.parse, n1.certs, hosts, kept, more, again);
  }

  /**
   Repeating one upsert reports no change exactly when, of the certificates there were before the
   first, every one that was kept wins for some host; `hosts` are the hosts served.
   */
  method UpsertAgain(r: Reconciler, ic: IngressConfig) returns (failed: bool, changed: bool, ghost hosts: set<string>)
    modifies r
    ensures !failed ==> AreHosts(r.env, r.stored, hosts) && Certs.Parses(r.env.parse, old(r.stored).certs + ic.certs)
    ensures !failed ==> (changed <==> !Certs.AllWin(r.env.parse, old(r.stored).certs + ic.certs, hosts))
  {
    ghost var prev := r.stored;
    hosts := {};
    changed, failed := r.Upsert(ic);
    if failed { return; }
    ghost var mid := r.stored;
    ghost var n1 :| Upserted(r.env, prev, ic, n1) && Saves(r.env, n1, mid);
    changed, failed := r.Upsert(ic);
    if failed { return; }
    ghost var n2 :| Upserted(r.env, mid, ic, n2) && Saves(r.env, n2, r.stored);
    ghost var served: set<string>, kept: seq<nat> :|
      && AreHosts(r.env, n1, served) && Certs.Prunes(r.env.parse, n1.certs, served, kept);
    hosts := served;
    RepeatedRoutes(r.env, prev, ic, n1, mid, n2, r.stored);
    RepeatedCerts(r.env, n1, mid, n2, r.stored, ic.certs, hosts);
    forall h ensures Served(r.env, r.stored, h) <==> Served(r.env, n1, h) {
      RoutedPermuted(r.env, r.stored.routes, n1.routes, h);
    }
  }

  // ----- replacing the whole configuration -----

  ghost function Index(routes: seq<Route>, dec: Decoder): (m: RouteMap)
    ensures Indexable(routes, dec) ==> IndexOf(routes, m, dec)
  {
    if m :| IndexOf(routes, m, dec) then m else map[]
  }

  ghost function RoutesOf(ic: IngressConfig, dec: Decoder): RouteMap {
    if ic.routes.Some? then Index(ic.routes.value, dec) else map[]
  }

  /** The routes left by upserting these ingresses one after the other. */
  ghost function Folded(ics: seq<IngressConfig>, dec: Decoder): RouteMap {
    if ics == [] then map[]
    else
      var last := ics[|ics| - 1];
      Merged(Folded(ics[..|ics| - 1], dec), RoutesOf(last, dec), last.owner)
  }

  ghost function Collected(ics: seq<IngressConfig>): seq<Certs.Cert> {
    if ics == [] then [] else Collected(ics[..|ics| - 1]) + ics[|ics| - 1].certs
  }

  /** The configuration of these ingresses: their routes folded and sorted, their certificates in order. */
  ghost predicate Gathers(env: Env, taken: seq<IngressConfig>, cfg: Config) {
    && Sorted(cfg.routes) && IndexOf(cfg.routes, Folded(taken, env.dec), env.dec)
    && cfg.certs == Collected(taken) && cfg.authenticate == None
  }

  /** The configuration on which a further ingress is judged: with its routes, without its certificates. */
  ghost predicate Trial(env: Env, taken: seq<IngressConfig>, ic: IngressConfig, cfg: Config) {
    && Sorted(cfg.routes)
    && IndexOf(cfg.routes, Merged(Folded(taken, env.dec), RoutesOf(ic, env.dec), ic.owner), env.dec)
    && cfg.certs == Collected(taken) && cfg.authenticate == None
  }

  ghost predicate Fits(env: Env, taken: seq<IngressConfig>, ic: IngressConfig) {
    && ic.routes.Some? && Indexable(ic.routes.value, env.dec)
    && exists cfg :: Trial(env, taken, ic, cfg) && env.valid(cfg)
  }

  /** The ingresses that are not rejected, each judged together with those accepted before it. */
  ghost function Accepted(env: Env, ics: seq<IngressConfig>): seq<IngressConfig> {
    if ics == [] then []
    else
      var before := Accepted(env, ics[..|ics| - 1]);
      if Fits(env, before, ics[|ics| - 1]) then before + [ics[|ics| - 1]] else before
  }

  /** A rejected ingress contributes nothing: without the rejected ones the same are accepted. */
  lemma {:induction false} RejectedLeaveNoTrace(env: Env, ics: seq<IngressConfig>)
    ensures Accepted(env, Accepted(env, ics)) == Accepted(env, ics)
  {
    if ics != [] {
      var before, last := Accepted(env, ics[..|ics| - 1]), ics[|ics| - 1];
      RejectedLeaveNoTrace(env, ics[..|ics| - 1]);
      if Fits(env, before, last) {
        assert (before + [last])[..|before|] == before;
      }
    }
  }

  lemma TrialUnique(env: Env, taken: seq<IngressConfig>, ic: IngressConfig, a: Config, b: Config)
    requires Trial(env, taken, ic, a) && Trial(env, taken, ic, b)
    ensures a == b
  {
    CanonicalListUnique(
      a.routes, b.routes, Merged(Folded(taken, env.dec), RoutesOf(ic, env.dec), ic.owner), env.dec);
  }

  lemma GatherNext(env: Env, taken: seq<IngressConfig>, ic: IngressConfig, trial: Config)
    requires Trial(env, taken, ic, trial)
    ensures Gathers(env, taken + [ic], trial.(certs := trial.certs + ic.certs))
  {
    assert (taken + [ic])[..|taken|] == taken;
  }

  /** One ingress more: taken if it fits, and skipped if not. */
  method GatherOne(env: Env, next: Config, ic: IngressConfig, ghost taken: seq<IngressConfig>)
    returns (out: Config)
    requires Gathers(env, taken, next)
    ensures Gathers(env, if Fits(env, taken, ic) then taken + [ic] else taken, out)
  {
    out := next;
    if ic.routes.None? { return; }
    var merged := MergeRoutes(next.routes, ic.routes.value, ic.owner, env.dec);
    if merged.None? { return; }
    var trial := next.(routes := merged.value);
    assert Trial(env, taken, ic, trial);
    forall cfg | Trial(env, taken, ic, cfg) ensures cfg == trial {
      TrialUnique(env, taken, ic, cfg, trial);
    }
    if env.valid(trial) {
      GatherNext(env, taken, ic, trial);
      out := trial.(certs := trial.certs + ic.certs);
    }
  }

  /** The configuration of exactly the accepted ingresses. */
  method Gather(env: Env, ics: seq<IngressConfig>) returns (next: Config)
    ensures Gathers(env, Accepted(env, ics), next)
  {
    next := Config([], [], None);
    for i := 0 to |ics|
      invariant Gathers(env, Accepted(env, ics[..i]), next)
    {
      next := GatherOne(env, next, ics[i], Accepted(env, ics[..i]));
      assert ics[..i + 1][..i] == ics[..i];
    }
    assert ics[..|ics|] == ics;
  }

  /** Fails without a fault exactly when the accepted ingresses make no configuration that could be saved. */
  method Set(r: Reconciler, ics: seq<IngressConfig>) returns (changed: bool, failed: bool, ghost next: Config)
    modifies r
    ensures Gathers(r.env, Accepted(r.env, ics), next)
    ensures r.stored == old(r.stored) || Saves(r.env, next, r.stored)
    ensures if failed then !changed else changed <==> r.stored != old(r.stored)
    ensures !failed ==> Saves(r.env, next, r.stored) && r.env.valid(r.stored)
    ensures old(r.faults) <= r.faults && (r.faults > old(r.faults) ==> failed)
    ensures r.faults == old(r.faults) ==> (failed <==> !Savable(r.env, next))
  {
    var unread := r.GetConfig();
    var gathered := Gather(r.env, ics);
    next := gathered;
    if unread { return false, true, next; }
    changed, failed := r.SaveConfig(r.stored, gathered);
  }

  ghost predicate OwnersDistinct(ics: seq<IngressConfig>) {
    forall i, j :: 0 <= i < j < |ics| ==> ics[i].owner != ics[j].owner
  }

  ghost predicate OwnRoutes(ics: seq<IngressConfig>, dec: Decoder) {
    forall ic :: ic in ics ==> OwnedBy(RoutesOf(ic, dec), ic.owner)
  }

  lemma OnlyOwnersRoute(ics: seq<IngressConfig>, dec: Decoder, ic: IngressConfig, k: RouteKey)
    requires OwnersDistinct(ics) && OwnRoutes(ics, dec) && ics != []
    requires ic in ics[..|ics| - 1] && k in RoutesOf(ic, dec)
    ensures k.owner != ics[|ics| - 1].owner
  {
  }

  lemma InitKeeps(ics: seq<IngressConfig>, dec: Decoder)
    requires OwnersDistinct(ics) && OwnRoutes(ics, dec) && ics != []
    ensures OwnersDistinct(ics[..|ics| - 1]) && OwnRoutes(ics[..|ics| - 1], dec)
    ensures forall ic :: ic in ics <==> ic in ics[..|ics| - 1] || ic == ics[|ics| - 1]
  {
  }

  /** Folding ingresses of different owners is the union of their routes. */
  lemma {:induction false} FoldedIsUnion(ics: seq<IngressConfig>, dec: Decoder, k: RouteKey)
    requires OwnersDistinct(ics) && OwnRoutes(ics, dec)
    ensures k in Folded(ics, dec) <==> exists ic :: ic in ics && k in RoutesOf(ic, dec)
    ensures forall ic :: ic in ics && k in RoutesOf(ic, dec) ==>
              k in Folded(ics, dec) && Folded(ics, dec)[k] == RoutesOf(ic, dec)[k]
  {
    if ics != [] {
      var init, last := ics[..|ics| - 1], ics[|ics| - 1];
      InitKeeps(ics, dec);
      FoldedIsUnion(init, dec, k);
      assert last in ics;
      MergeReplacesOwn(Folded(init, dec), RoutesOf(last, dec), last.owner, k);
      forall ic | ic in init && k in RoutesOf(ic, dec) ensures k.owner != last.owner {
        OnlyOwnersRoute(ics, dec, ic, k);
      }
    }
  }

  /** When none is rejected, the route list does not depend on the order of the ingresses. */
  lemma SetOrderIrrelevant(
    x: seq<IngressConfig>, y: seq<IngressConfig>, a: seq<Route>, b: seq<Route>, dec: Decoder)
    requires multiset(x) == multiset(y) && OwnersDistinct(x) && OwnersDistinct(y) && OwnRoutes(x, dec)
    requires IndexOf(a, Folded(x, dec), dec) && Sorted(a)
    requires IndexOf(b, Folded(y, dec), dec) && Sorted(b)
    ensures a == b
  {
    forall ic ensures ic in x <==> ic in y {
      assert ic in x <==> ic in multiset(x);
      assert ic in y <==> ic in multiset(y);
    }
    forall k ensures SameAt(Folded(x, dec), Folded(y, dec), k) {
      SameUnion(x, y, dec, k);
    }
    SameEverywhere(Folded(x, dec), Folded(y, dec));
    CanonicalListUnique(a, b, Folded(x, dec), dec);
  }

  /** Gathering the same ingresses in two orders, none being rejected, gives the same routes. */
  method GatherInBothOrders(env: Env, x: seq<IngressConfig>, y: seq<IngressConfig>) returns (a: Config, b: Config)
    requires multiset(x) == multiset(y) && OwnersDistinct(x) && OwnersDistinct(y) && OwnRoutes(x, env.dec)
    ensures Gathers(env, Accepted(env, x), a) && Gathers(env, Accepted(env, y), b)
    ensures Accepted(env, x) == x && Accepted(env, y) == y ==> a.routes == b.routes
  {
    a := Gather(env, x);
    b := Gather(env, y);
    if Accepted(env, x) == x && Accepted(env, y) == y {
      SetOrderIrrelevant(x, y, a.routes, b.routes, env.dec);
    }
  }

  ghost predicate SameAt(a: RouteMap, b: RouteMap, k: RouteKey) {
    (k in a <==> k in b) && (k in a ==> a[k] == b[k])
  }

  lemma SameEverywhere(a: RouteMap, b: RouteMap)
    requires forall k :: SameAt(a, b, k)
    ensures a == b
  {
    assert forall k :: k in a ==> SameAt(a, b, k);
    assert forall k :: k in b ==> SameAt(a, b, k);
  }

  lemma SameUnion(x: seq<IngressConfig>, y: seq<IngressConfig>, dec: Decoder, k: RouteKey)
    requires OwnersDistinct(x) && OwnersDistinct(y) && OwnRoutes(x, dec)
    requires forall ic :: ic in x <==> ic in y
    ensures SameAt(Folded(x, dec), Folded(y, dec), k)
  {
    FoldedIsUnion(x, dec, k);
    FoldedIsUnion(y, dec, k);
  }
}
