/**
 Provisioning of certificates: one pass deletes the certificates of other issuers and the unused
 ones, and creates one certificate per name that is still missing. Any call may fail.
 */
module CertificateController {

  datatype Issuer = Issuer(kind: string, name: string)

  /** A managed certificate; object names are generated, and numbers stand for them. */
  datatype Certificate = Certificate(name: nat, issuer: Issuer, dnsNames: seq<string>)

  type Objects = map<nat, Certificate>

  ghost predicate Provisioned(objects: Objects, issuer: Issuer, dns: string) {
    exists id :: id in objects && objects[id].issuer == issuer && dns in objects[id].dnsNames
  }

  ghost predicate AllProvisioned(objects: Objects, issuer: Issuer, missing: set<string>) {
    forall dns :: dns in missing ==> Provisioned(objects, issuer, dns)
  }

  /** The list holds each object once, in any order. */
  ghost predicate Lists(listed: seq<Certificate>, objects: Objects) {
    && (forall i :: 0 <= i < |listed| ==> listed[i].name in objects && objects[listed[i].name] == listed[i])
    && (forall i, j :: 0 <= i < j < |listed| ==> listed[i].name != listed[j].name)
    && (forall id :: id in objects ==> exists i :: 0 <= i < |listed| && listed[i].name == id)
  }

  ghost predicate Includes(now: Objects, base: Objects) {
    forall id :: id in base ==> id in now && now[id] == base[id]
  }

  ghost function OfIssuer(objects: Objects, issuer: Issuer): Objects {
    map id | id in objects && objects[id].issuer == issuer :: objects[id]
  }

  ghost predicate AllMatch(certs: seq<Certificate>, issuer: Issuer) {
    forall i :: 0 <= i < |certs| ==> certs[i].issuer == issuer
  }

  /** The certificate at `i` is the first of the list that holds `dns`. */
  ghost predicate Claims(certs: seq<Certificate>, i: nat, dns: string)
    requires i < |certs|
  {
    dns in certs[i].dnsNames && forall j :: 0 <= j < i ==> dns !in certs[j].dnsNames
  }

  ghost predicate Used(certs: seq<Certificate>, missing: set<string>, i: nat)
    requires i < |certs|
  {
    exists dns :: dns in missing && Claims(certs, i, dns)
  }

  /** One of the first `upto` certificates holds `dns`. */
  ghost predicate Listed(certs: seq<Certificate>, upto: nat, dns: string)
    requires upto <= |certs|
  {
    exists j :: 0 <= j < upto && dns in certs[j].dnsNames
  }

  // ----- the cluster -----

  /** The managed certificates; each mutating call may fail, with or without effect. */
  class Cluster {
    var objects: Objects
    ghost var trace: seq<Objects>
    ghost var faults: nat

    constructor (objects: Objects)
      ensures this.objects == objects && trace == [] && faults == 0
    {
      this.objects, trace, faults := objects, [], 0;
    }

    method Delete(id: nat) returns (failed: bool)
      modifies this
      ensures trace == old(trace) + [objects]
      ensures objects == old(objects) - {id} || (failed && objects == old(objects))
      ensures faults == old(faults) + if failed then 1 else 0
    {
      failed := *;
      var effect: bool := *;
      if !failed || effect {
        objects := objects - {id};
      }
      trace := trace + [objects];
      faults := if failed then faults + 1 else faults;
    }

    method Create(issuer: Issuer, dns: string) returns (failed: bool, id: nat)
      modifies this
      ensures trace == old(trace) + [objects]
      ensures (failed && objects == old(objects))
           || (id !in old(objects) && objects == old(objects)[id := Certificate(id, issuer, [dns])])
      ensures faults == old(faults) + if failed then 1 else 0
    {
      failed := *;
      var effect: bool := *;
      id := *;
      // a generated name that is taken is refused
      failed := failed || id in objects;
      if (!failed || effect) && id !in objects {
        objects := objects[id := Certificate(id, issuer, [dns])];
      }
      trace := trace + [objects];
      faults := if failed then faults + 1 else faults;
    }
  }

  /** The calls made since the trace was `before`, and none of the earlier ones is forgotten. */
  ghost predicate Grew(before: seq<Objects>, cluster: Cluster)
    reads cluster
  {
    |before| <= |cluster.trace| && cluster.trace[..|before|] == before
  }

  // ----- deleting some of the listed certificates -----

  /** The objects after the first `i` certificates had their turn and those not kept went. */
  ghost function Pruned(objects: Objects, certs: seq<Certificate>, keep: seq<bool>, i: nat): Objects
    requires i <= |certs| == |keep|
  {
    if i == 0 then objects
    else
      var r := Pruned(objects, certs, keep, i - 1);
      if keep[i - 1] then r else r - {certs[i - 1].name}
  }

  lemma {:induction false} PrunedNames(objects: Objects, certs: seq<Certificate>, keep: seq<bool>, i: nat, j: nat)
    requires Lists(certs, objects) && i <= |certs| == |keep| && j < |certs|
    ensures certs[j].name in Pruned(objects, certs, keep, i) <==> i <= j || keep[j]
  {
    if i > 0 {
      PrunedNames(objects, certs, keep, i - 1, j);
    }
  }

  lemma {:induction false} PrunedOnly(objects: Objects, certs: seq<Certificate>, keep: seq<bool>, i: nat)
    requires i <= |certs| == |keep|
    ensures Includes(objects, Pruned(objects, certs, keep, i))
  {
    if i > 0 {
      PrunedOnly(objects, certs, keep, i - 1);
    }
  }

  /** Exactly the flagged certificates are left. */
  ghost predicate KeptExactly(certs: seq<Certificate>, keep: seq<bool>, before: Objects, after: Objects)
    requires |certs| == |keep|
  {
    Includes(before, after) && forall j :: 0 <= j < |certs| ==> (certs[j].name in after <==> keep[j])
  }

  lemma PrunedAll(objects: Objects, certs: seq<Certificate>, keep: seq<bool>)
    requires Lists(certs, objects) && |certs| == |keep|
    ensures KeptExactly(certs, keep, objects, Pruned(objects, certs, keep, |certs|))
  {
    PrunedOnly(objects, certs, keep, |certs|);
    forall j | 0 <= j < |certs|
      ensures certs[j].name in Pruned(objects, certs, keep, |certs|) <==> keep[j]
    {
      PrunedNames(objects, certs, keep, |certs|, j);
    }
  }

  lemma KeptExactlyUnique(certs: seq<Certificate>, keep: seq<bool>, before: Objects, a: Objects, b: Objects)
    requires Lists(certs, before) && |certs| == |keep|
    requires KeptExactly(certs, keep, before, a) && KeptExactly(certs, keep, before, b)
    ensures a == b
  {
  }

  /** Deleting only ever passes through states that still have all that is kept. */
  lemma StagesInclude(objects: Objects, certs: seq<Certificate>, keep: seq<bool>, i: nat, left: Objects)
    requires Lists(certs, objects) && i <= |certs| == |keep| && KeptExactly(certs, keep, objects, left)
    ensures Includes(Pruned(objects, certs, keep, i), left)
  {
  }

  ghost predicate IsStage(state: Objects, start: Objects, certs: seq<Certificate>, keep: seq<bool>)
    requires |certs| == |keep|
  {
    exists k :: 0 <= k <= |certs| && state == Pruned(start, certs, keep, k)
  }

  ghost predicate AllStages(cluster: Cluster, from: nat, start: Objects, certs: seq<Certificate>, keep: seq<bool>)
    requires |certs| == |keep|
    reads cluster
  {
    && IsStage(cluster.objects, start, certs, keep)
    && forall t :: from <= t < |cluster.trace| ==> IsStage(cluster.trace[t], start, certs, keep)
  }

  ghost predicate AllKept(keep: seq<bool>, upto: nat)
    requires upto <= |keep|
  {
    forall j :: 0 <= j < upto ==> keep[j]
  }

  /** The first `i` certificates had their turn, no call failed, and there was none if all of them are kept. */
  ghost predicate AtStage(
    cluster: Cluster, before: seq<Objects>, faults: nat, start: Objects, certs: seq<Certificate>, keep: seq<bool>,
    i: nat)
    requires i <= |certs| == |keep|
    reads cluster
  {
    && cluster.objects == Pruned(start, certs, keep, i) && AllStages(cluster, |before|, start, certs, keep)
    && Grew(before, cluster) && cluster.faults == faults
    && (|cluster.trace| == |before| <==> AllKept(keep, i))
  }

  lemma KeepAt(
    cluster: Cluster, before: seq<Objects>, faults: nat, start: Objects, certs: seq<Certificate>, keep: seq<bool>,
    i: nat)
    requires i < |certs| == |keep| && keep[i] && AtStage(cluster, before, faults, start, certs, keep, i)
    ensures AtStage(cluster, before, faults, start, certs, keep, i + 1)
  {
    assert AllKept(keep, i + 1) <==> AllKept(keep, i);
  }

  method DeleteAt(
    cluster: Cluster, certs: seq<Certificate>, i: nat, ghost keep: seq<bool>, ghost start: Objects,
    ghost before: seq<Objects>)
    returns (failed: bool)
    requires i < |certs| == |keep| && !keep[i]
    requires AtStage(cluster, before, cluster.faults, start, certs, keep, i)
    modifies cluster
    ensures |cluster.trace| > |before| && Grew(before, cluster) && AllStages(cluster, |before|, start, certs, keep)
    ensures cluster.faults == old(cluster.faults) + if failed then 1 else 0
    ensures !failed ==> AtStage(cluster, before, cluster.faults, start, certs, keep, i + 1)
  {
    failed := cluster.Delete(certs[i].name);
    assert cluster.objects == Pruned(start, certs, keep, i) || cluster.objects == Pruned(start, certs, keep, i + 1);
    assert !AllKept(keep, i + 1);
  }

  // ----- first loop: certificates of another issuer -----

  /** Those of the first `upto` certificates that are the issuer's, in list order. */
  function Matching(listed: seq<Certificate>, issuer: Issuer, upto: nat): (r: seq<Certificate>)
    requires upto <= |listed|
  {
    if upto == 0 then []
    else
      var c := listed[upto - 1];
      Matching(listed, issuer, upto - 1) + if c.issuer == issuer then [c] else []
  }

  ghost function OwnFlags(certs: seq<Certificate>, issuer: Issuer): (r: seq<bool>)
    ensures |r| == |certs| && forall i :: 0 <= i < |certs| ==> r[i] == (certs[i].issuer == issuer)
  {
    seq(|certs|, i requires 0 <= i < |certs| => certs[i].issuer == issuer)
  }

  method DropForeign(cluster: Cluster, issuer: Issuer, listed: seq<Certificate>)
    returns (failed: bool, mine: seq<Certificate>)
    modifies cluster
    ensures Grew(old(cluster.trace), cluster)
    ensures AllStages(cluster, |old(cluster.trace)|, old(cluster.objects), listed, OwnFlags(listed, issuer))
    ensures cluster.faults == old(cluster.faults) + if failed then 1 else 0
    ensures !failed ==> mine == Matching(listed, issuer, |listed|)
    ensures !failed ==> cluster.objects == Pruned(old(cluster.objects), listed, OwnFlags(listed, issuer), |listed|)
    ensures |cluster.trace| == |old(cluster.trace)| <==> AllKept(OwnFlags(listed, issuer), |listed|)
    ensures failed ==> |cluster.trace| > |old(cluster.trace)|
  {
    failed, mine := false, [];
    ghost var start, before, faults := cluster.objects, cluster.trace, cluster.faults;
    ghost var keep := OwnFlags(listed, issuer);
    assert Pruned(start, listed, keep, 0) == start;
    for i := 0 to |listed|
      invariant mine == Matching(listed, issuer, i)
      invariant AtStage(cluster, before, faults, start, listed, keep, i)
    {
      if listed[i].issuer != issuer {
        failed := DeleteAt(cluster, listed, i, keep, start, before);
        if failed { return; }
      } else {
        mine := mine + [listed[i]];
        KeepAt(cluster, before, faults, start, listed, keep, i);
      }
    }
  }

  // ----- second loop: certificates that claim no missing name -----

  ghost function UsedFlags(certs: seq<Certificate>, missing: set<string>): (r: seq<bool>)
    ensures |r| == |certs| && forall i :: 0 <= i < |certs| ==> r[i] == Used(certs, missing, i)
  {
    seq(|certs|, i requires 0 <= i < |certs| => Used(certs, missing, i))
  }

  ghost predicate AnyIn(names: seq<string>, open: set<string>) {
    exists n :: n in names && n in open
  }

  /** One certificate's turn: it claims the names that are still open. */
  method Claim(cert: Certificate, open: set<string>) returns (used: bool, remaining: set<string>)
    ensures remaining == open - set n | n in cert.dnsNames
    ensures used <==> AnyIn(cert.dnsNames, open)
  {
    used, remaining := false, open;
    for k := 0 to |cert.dnsNames|
      invariant remaining == open - set n | n in cert.dnsNames[..k]
      invariant used <==> AnyIn(cert.dnsNames[..k], open)
    {
      var dns := cert.dnsNames[k];
      if dns in remaining {
        remaining := remaining - {dns};
        used := true;
      }
    }
  }

  /** The names of `missing` that the first `upto` certificates leave open. */
  ghost predicate Open(certs: seq<Certificate>, missing: set<string>, upto: nat, open: set<string>)
    requires upto <= |certs|
  {
    forall dns :: dns in open <==> dns in missing && !Listed(certs, upto, dns)
  }

  lemma OpenNext(certs: seq<Certificate>, missing: set<string>, i: nat, open: set<string>)
    requires i < |certs| && Open(certs, missing, i, open)
    ensures Open(certs, missing, i + 1, open - set n | n in certs[i].dnsNames)
    ensures AnyIn(certs[i].dnsNames, open) <==> Used(certs, missing, i)
  {
  }

  method DropUnused(cluster: Cluster, mine: seq<Certificate>, missing: set<string>)
    returns (failed: bool, remaining: set<string>)
    modifies cluster
    ensures Grew(old(cluster.trace), cluster)
    ensures AllStages(cluster, |old(cluster.trace)|, old(cluster.objects), mine, UsedFlags(mine, missing))
    ensures cluster.faults == old(cluster.faults) + if failed then 1 else 0
    ensures !failed ==> Open(mine, missing, |mine|, remaining)
    ensures !failed ==> cluster.objects == Pruned(old(cluster.objects), mine, UsedFlags(mine, missing), |mine|)
    ensures |cluster.trace| == |old(cluster.trace)| <==> AllKept(UsedFlags(mine, missing), |mine|)
    ensures failed ==> |cluster.trace| > |old(cluster.trace)|
  {
    failed, remaining := false, missing;
    ghost var start, before, faults := cluster.objects, cluster.trace, cluster.faults;
    ghost var keep := UsedFlags(mine, missing);
    assert Pruned(start, mine, keep, 0) == start;
    for i := 0 to |mine|
      invariant Open(mine, missing, i, remaining)
      invariant AtStage(cluster, before, faults, start, mine, keep, i)
    {
      OpenNext(mine, missing, i, remaining);
      var used: bool;
      used, remaining := Claim(mine[i], remaining);
      if !used {
        failed := DeleteAt(cluster, mine, i, keep, start, before);
        if failed { return; }
      } else {
        KeepAt(cluster, before, faults, start, mine, keep, i);
      }
    }
  }

  // ----- third loop: names still missing -----

  /** `id` is a new object, for the one name `dns`. */
  ghost predicate MadeFor(before: Objects, after: Objects, id: nat, dns: string) {
    id in after && id !in before && after[id].dnsNames == [dns]
  }

  /** Old objects are untouched; the new ones are the issuer's, one for each name of the set. */
  ghost predicate Extends(before: Objects, after: Objects, issuer: Issuer, names: set<string>) {
    && Includes(after, before)
    && (forall id :: id in after && id !in before ==>
          && after[id].name == id && after[id].issuer == issuer
          && exists dns :: dns in names && MadeFor(before, after, id, dns))
    && (forall dns :: dns in names ==> exists id :: MadeFor(before, after, id, dns))
    && (forall a, b, dns :: MadeFor(before, after, a, dns) && MadeFor(before, after, b, dns) ==> a == b)
  }

  lemma ExtendsNext(start: Objects, now: Objects, issuer: Issuer, names: set<string>, id: nat, dns: string)
    requires Extends(start, now, issuer, names) && id !in now && dns !in names
    ensures Extends(start, now[id := Certificate(id, issuer, [dns])], issuer, names + {dns})
  {
    var next := now[id := Certificate(id, issuer, [dns])];
    forall d | d in names + {dns} ensures exists a :: MadeFor(start, next, a, d) {
      if d != dns {
        var a :| MadeFor(start, now, a, d);
        assert MadeFor(start, next, a, d);
      } else {
        assert MadeFor(start, next, id, dns);
      }
    }
  }

  method CreateMissing(cluster: Cluster, issuer: Issuer, names: set<string>) returns (failed: bool)
    modifies cluster
    ensures Grew(old(cluster.trace), cluster)
    ensures Includes(cluster.objects, old(cluster.objects))
    ensures forall t :: |old(cluster.trace)| <= t < |cluster.trace| ==> Includes(cluster.trace[t], old(cluster.objects))
    ensures cluster.faults == old(cluster.faults) + if failed then 1 else 0
    ensures !failed ==> Extends(old(cluster.objects), cluster.objects, issuer, names)
    ensures |cluster.trace| == |old(cluster.trace)| <==> names == {}
    ensures failed ==> |cluster.trace| > |old(cluster.trace)|
  {
    failed := false;
    ghost var start := cluster.objects;
    var rest := names;
    while rest != {}
      invariant rest <= names
      invariant Grew(old(cluster.trace), cluster)
      invariant forall t :: |old(cluster.trace)| <= t < |cluster.trace| ==> Includes(cluster.trace[t], start)
      invariant cluster.faults == old(cluster.faults)
      invariant Extends(start, cluster.objects, issuer, names - rest)
      invariant |cluster.trace| == |old(cluster.trace)| <==> names == rest
    {
      var dns :| dns in rest;
      ghost var before := cluster.objects;
      var id;
      failed, id := cluster.Create(issuer, dns);
      if failed { return; }
      ExtendsNext(start, before, issuer, names - rest, id, dns);
      rest := rest - {dns};
      assert names - rest == (names - (rest + {dns})) + {dns};
    }
    assert names - rest == names;
  }

  // ----- a whole pass -----

  /** Every missing name that was provisioned at the start still is. */
  ghost predicate Safe(start: Objects, now: Objects, issuer: Issuer, missing: set<string>) {
    forall dns :: dns in missing && Provisioned(start, issuer, dns) ==> Provisioned(now, issuer, dns)
  }

  /** The state is safe now and was safe after each call since call number `from`. */
  ghost predicate AlwaysSafe(start: Objects, cluster: Cluster, from: nat, issuer: Issuer, missing: set<string>)
    reads cluster
  {
    && Safe(start, cluster.objects, issuer, missing)
    && forall t :: from <= t < |cluster.trace| ==> Safe(start, cluster.trace[t], issuer, missing)
  }

  lemma IncludingIsSafe(start: Objects, base: Objects, now: Objects, issuer: Issuer, missing: set<string>)
    requires Safe(start, base, issuer, missing) && Includes(now, base)
    ensures Safe(start, now, issuer, missing)
  {
  }

  lemma FirstHolder(certs: seq<Certificate>, i: nat, dns: string) returns (first: nat)
    requires i < |certs| && dns in certs[i].dnsNames
    ensures first <= i && Claims(certs, first, dns)
  {
    if j :| 0 <= j < i && dns in certs[j].dnsNames {
      first := FirstHolder(certs, j, dns);
    } else {
      first := i;
    }
  }

  /** The used certificates provision every missing name the whole list provisions. */
  lemma UsedIsSafe(mine: seq<Certificate>, before: Objects, kept: Objects, issuer: Issuer, missing: set<string>)
    requires Lists(mine, before) && AllMatch(mine, issuer)
    requires KeptExactly(mine, UsedFlags(mine, missing), before, kept)
    ensures Safe(before, kept, issuer, missing)
  {
    forall dns | dns in missing && Provisioned(before, issuer, dns) ensures Provisioned(kept, issuer, dns) {
      var id :| id in before && before[id].issuer == issuer && dns in before[id].dnsNames;
      var i :| 0 <= i < |mine| && mine[i].name == id;
      var first := FirstHolder(mine, i, dns);
      assert Used(mine, missing, first);
      assert mine[first].name in kept && kept[mine[first].name] == mine[first];
    }
  }

  lemma OwnIsSafe(listed: seq<Certificate>, before: Objects, kept: Objects, issuer: Issuer, missing: set<string>)
    requires Lists(listed, before)
    requires KeptExactly(listed, OwnFlags(listed, issuer), before, kept)
    ensures Safe(before, kept, issuer, missing)
  {
  }

  lemma StagesAreSafe(
    cluster: Cluster, from: nat, start: Objects, certs: seq<Certificate>, keep: seq<bool>, left: Objects,
    issuer: Issuer, missing: set<string>)
    requires Lists(certs, start) && |certs| == |keep| && KeptExactly(certs, keep, start, left)
    requires AllStages(cluster, from, start, certs, keep)
    requires Safe(start, left, issuer, missing)
    ensures AlwaysSafe(start, cluster, from, issuer, missing)
  {
    forall now | IsStage(now, start, certs, keep) ensures Safe(start, now, issuer, missing) {
      var k :| 0 <= k <= |certs| && now == Pruned(start, certs, keep, k);
      StagesInclude(start, certs, keep, k, left);
      IncludingIsSafe(start, left, now, issuer, missing);
    }
  }

  lemma ExtendingStaysSafe(
    start: Objects, base: Objects, cluster: Cluster, mid: seq<Objects>, from: nat, issuer: Issuer, missing: set<string>)
    requires Safe(start, base, issuer, missing)
    requires forall t :: from <= t < |mid| ==> Safe(start, mid[t], issuer, missing)
    requires Grew(mid, cluster) && Includes(cluster.objects, base)
    requires forall t :: |mid| <= t < |cluster.trace| ==> Includes(cluster.trace[t], base)
    ensures AlwaysSafe(start, cluster, from, issuer, missing)
  {
  }

  ghost predicate AllUsed(certs: seq<Certificate>, missing: set<string>) {
    forall i :: 0 <= i < |certs| ==> Used(certs, missing, i)
  }

  /** A pass over this list would issue no call. */
  ghost predicate Quiet(listed: seq<Certificate>, issuer: Issuer, missing: set<string>) {
    && AllMatch(listed, issuer)
    && AllUsed(listed, missing)
    && forall dns :: dns in missing ==> Listed(listed, |listed|, dns)
  }

  ghost predicate SingleNames(objects: Objects, issuer: Issuer) {
    forall id :: id in objects && objects[id].issuer == issuer ==> |objects[id].dnsNames| == 1
  }

  ghost predicate OneNameEach(objects: Objects, issuer: Issuer, missing: set<string>) {
    forall id :: id in objects ==>
      objects[id].issuer == issuer && |objects[id].dnsNames| == 1 && objects[id].dnsNames[0] in missing
  }

  /** Exactly one certificate per missing name, each for that name alone. */
  ghost predicate OnePerName(objects: Objects, issuer: Issuer, missing: set<string>) {
    && OneNameEach(objects, issuer, missing)
    && AllProvisioned(objects, issuer, missing)
    && forall a, b :: a in objects && b in objects && a != b ==> objects[a].dnsNames[0] != objects[b].dnsNames[0]
  }

  /** The part of a pass that follows the sync: unused certificates go, missing ones are created. */
  method Provision(cluster: Cluster, issuer: Issuer, mine: seq<Certificate>, missing: set<string>)
    returns (failed: bool)
    requires Lists(mine, cluster.objects) && AllMatch(mine, issuer)
    modifies cluster
    ensures Grew(old(cluster.trace), cluster)
    ensures AlwaysSafe(old(cluster.objects), cluster, |old(cluster.trace)|, issuer, missing)
    ensures cluster.faults == old(cluster.faults) + if failed then 1 else 0
    ensures !failed ==> Outcome(mine, old(cluster.objects), cluster.objects, issuer, missing)
    ensures |cluster.trace| == |old(cluster.trace)| <==> Quiet(mine, issuer, missing)
    ensures failed ==> |cluster.trace| > |old(cluster.trace)|
  {
    ghost var start, from := cluster.objects, |cluster.trace|;
    var remaining;
    ghost var kept;
    failed, remaining, kept := KeepUsed(cluster, issuer, mine, missing);
    if failed { return; }

    ghost var mid := cluster.trace;
    failed := CreateMissing(cluster, issuer, remaining);
    ExtendingStaysSafe(start, kept, cluster, mid, from, issuer, missing);
  }

  /** What a pass without failures makes of the issuer's certificates. */
  ghost predicate Outcome(
    mine: seq<Certificate>, before: Objects, after: Objects, issuer: Issuer, missing: set<string>)
  {
    exists kept, remaining ::
      && KeptExactly(mine, UsedFlags(mine, missing), before, kept)
      && Open(mine, missing, |mine|, remaining)
      && Extends(kept, after, issuer, remaining)
  }

  method KeepUsed(cluster: Cluster, ghost issuer: Issuer, mine: seq<Certificate>, missing: set<string>)
    returns (failed: bool, remaining: set<string>, ghost kept: Objects)
    requires Lists(mine, cluster.objects) && AllMatch(mine, issuer)
    modifies cluster
    ensures Grew(old(cluster.trace), cluster)
    ensures AlwaysSafe(old(cluster.objects), cluster, |old(cluster.trace)|, issuer, missing)
    ensures cluster.faults == old(cluster.faults) + if failed then 1 else 0
    ensures KeptExactly(mine, UsedFlags(mine, missing), old(cluster.objects), kept)
    ensures Safe(old(cluster.objects), kept, issuer, missing)
    ensures !failed ==> cluster.objects == kept && Open(mine, missing, |mine|, remaining)
    ensures |cluster.trace| == |old(cluster.trace)| <==> AllUsed(mine, missing)
    ensures failed ==> |cluster.trace| > |old(cluster.trace)|
  {
    ghost var start, from := cluster.objects, |cluster.trace|;
    ghost var keep := UsedFlags(mine, missing);
    kept := Pruned(start, mine, keep, |mine|);
    PrunedAll(start, mine, keep);
    UsedIsSafe(mine, start, kept, issuer, missing);
    failed, remaining := DropUnused(cluster, mine, missing);
    StagesAreSafe(cluster, from, start, mine, keep, kept, issuer, missing);
  }

  lemma PassProvisions(
    mine: seq<Certificate>, before: Objects, kept: Objects, after: Objects, issuer: Issuer,
    missing: set<string>, remaining: set<string>)
    requires Lists(mine, before) && AllMatch(mine, issuer)
    requires KeptExactly(mine, UsedFlags(mine, missing), before, kept)
    requires Open(mine, missing, |mine|, remaining) && Extends(kept, after, issuer, remaining)
    ensures AllProvisioned(after, issuer, missing)
  {
    UsedIsSafe(mine, before, kept, issuer, missing);
    forall dns | dns in missing ensures Provisioned(after, issuer, dns) {
      if Listed(mine, |mine|, dns) {
        var j :| 0 <= j < |mine| && dns in mine[j].dnsNames;
        assert Provisioned(before, issuer, dns);
        var id :| id in kept && kept[id].issuer == issuer && dns in kept[id].dnsNames;
        assert id in after && after[id] == kept[id];
      } else {
        var id :| MadeFor(kept, after, id, dns);
        assert id in after && dns in after[id].dnsNames;
      }
    }
  }

  lemma PassLeavesOnePerName(
    mine: seq<Certificate>, before: Objects, kept: Objects, after: Objects, issuer: Issuer,
    missing: set<string>, remaining: set<string>)
    requires Lists(mine, before) && AllMatch(mine, issuer) && SingleNames(before, issuer)
    requires KeptExactly(mine, UsedFlags(mine, missing), before, kept)
    requires Open(mine, missing, |mine|, remaining) && Extends(kept, after, issuer, remaining)
    ensures OnePerName(after, issuer, missing)
  {
    PassProvisions(mine, before, kept, after, issuer, missing, remaining);
    PassLeavesOneNameEach(mine, before, kept, after, issuer, missing, remaining);
    forall a, b | a in after && b in after && a != b ensures after[a].dnsNames[0] != after[b].dnsNames[0] {
      NamesAreUnique(mine, before, kept, after, issuer, missing, remaining, a, b);
    }
  }

  lemma PassLeavesOneNameEach(
    mine: seq<Certificate>, before: Objects, kept: Objects, after: Objects, issuer: Issuer,
    missing: set<string>, remaining: set<string>)
    requires Lists(mine, before) && AllMatch(mine, issuer) && SingleNames(before, issuer)
    requires KeptExactly(mine, UsedFlags(mine, missing), before, kept)
    requires Open(mine, missing, |mine|, remaining) && Extends(kept, after, issuer, remaining)
    ensures OneNameEach(after, issuer, missing)
  {
    forall id | id in after
      ensures after[id].issuer == issuer && |after[id].dnsNames| == 1 && after[id].dnsNames[0] in missing
    {
      if id in kept {
        var i := KeptHasOneName(mine, before, kept, issuer, missing, id);
      } else {
        var dns :| dns in remaining && MadeFor(kept, after, id, dns);
      }
    }
  }

  lemma NamesAreUnique(
    mine: seq<Certificate>, before: Objects, kept: Objects, after: Objects, issuer: Issuer,
    missing: set<string>, remaining: set<string>, a: nat, b: nat)
    requires Lists(mine, before) && AllMatch(mine, issuer) && SingleNames(before, issuer)
    requires KeptExactly(mine, UsedFlags(mine, missing), before, kept)
    requires Open(mine, missing, |mine|, remaining) && Extends(kept, after, issuer, remaining)
    requires OneNameEach(after, issuer, missing)
    requires a in after && b in after && a != b
    ensures after[a].dnsNames[0] != after[b].dnsNames[0]
  {
    if a in kept && b in kept {
      var i := KeptHasOneName(mine, before, kept, issuer, missing, a);
      var j := KeptHasOneName(mine, before, kept, issuer, missing, b);
    } else if a in kept {
      var i := KeptHasOneName(mine, before, kept, issuer, missing, a);
      NewIsUnlisted(mine, kept, after, issuer, missing, remaining, b);
    } else if b in kept {
      var i := KeptHasOneName(mine, before, kept, issuer, missing, b);
      NewIsUnlisted(mine, kept, after, issuer, missing, remaining, a);
    } else {
      var c :| c in remaining && MadeFor(kept, after, a, c);
      var d :| d in remaining && MadeFor(kept, after, b, d);
    }
  }

  lemma KeptHasOneName(
    mine: seq<Certificate>, before: Objects, kept: Objects, issuer: Issuer, missing: set<string>, id: nat)
    returns (i: nat)
    requires Lists(mine, before) && AllMatch(mine, issuer) && SingleNames(before, issuer)
    requires KeptExactly(mine, UsedFlags(mine, missing), before, kept) && id in kept
    ensures i < |mine| && mine[i].name == id && kept[id] == mine[i]
    ensures |mine[i].dnsNames| == 1 && mine[i].dnsNames[0] in missing && Claims(mine, i, mine[i].dnsNames[0])
  {
    i :| 0 <= i < |mine| && mine[i].name == id;
    assert Used(mine, missing, i);
    var dns :| dns in missing && Claims(mine, i, dns);
    Sole(mine[i].dnsNames, dns);
  }

  lemma Sole(names: seq<string>, dns: string)
    requires |names| == 1 && dns in names
    ensures names[0] == dns
  {
  }

  lemma NewIsUnlisted(
    mine: seq<Certificate>, kept: Objects, after: Objects, issuer: Issuer,
    missing: set<string>, remaining: set<string>, id: nat)
    requires Open(mine, missing, |mine|, remaining) && Extends(kept, after, issuer, remaining)
    requires id in after && id !in kept && |after[id].dnsNames| == 1
    ensures !Listed(mine, |mine|, after[id].dnsNames[0])
  {
  }

  /** After a pass without failures every missing name has a certificate of the issuer. */
  lemma PassProvisionsAll(mine: seq<Certificate>, before: Objects, after: Objects, issuer: Issuer, missing: set<string>)
    requires Lists(mine, before) && AllMatch(mine, issuer) && Outcome(mine, before, after, issuer, missing)
    ensures AllProvisioned(after, issuer, missing)
    ensures SingleNames(before, issuer) ==> OnePerName(after, issuer, missing)
  {
    var kept, remaining :| && KeptExactly(mine, UsedFlags(mine, missing), before, kept)
                           && Open(mine, missing, |mine|, remaining)
                           && Extends(kept, after, issuer, remaining);
    PassProvisions(mine, before, kept, after, issuer, missing, remaining);
    if SingleNames(before, issuer) {
      PassLeavesOnePerName(mine, before, kept, after, issuer, missing, remaining);
    }
  }

  // ----- the list of the issuer's certificates -----

  lemma {:induction false} MatchingMember(listed: seq<Certificate>, issuer: Issuer, upto: nat, c: Certificate)
    requires upto <= |listed|
    ensures c in Matching(listed, issuer, upto) <==>
            exists i :: 0 <= i < upto && listed[i] == c && c.issuer == issuer
  {
    if upto > 0 {
      MatchingMember(listed, issuer, upto - 1, c);
    }
  }

  lemma {:induction false} MatchingDistinct(listed: seq<Certificate>, issuer: Issuer, upto: nat, i: nat, j: nat)
    requires upto <= |listed| && i < j < |Matching(listed, issuer, upto)|
    requires forall i, j :: 0 <= i < j < |listed| ==> listed[i].name != listed[j].name
    ensures Matching(listed, issuer, upto)[i].name != Matching(listed, issuer, upto)[j].name
  {
    var r := Matching(listed, issuer, upto - 1);
    if j < |r| {
      MatchingDistinct(listed, issuer, upto - 1, i, j);
    } else {
      MatchingMember(listed, issuer, upto - 1, r[i]);
    }
  }

  lemma MatchingLists(listed: seq<Certificate>, objects: Objects, issuer: Issuer)
    requires Lists(listed, objects)
    ensures var r := Matching(listed, issuer, |listed|);
            Lists(r, OfIssuer(objects, issuer)) && AllMatch(r, issuer)
  {
    var r := Matching(listed, issuer, |listed|);
    forall i | 0 <= i < |r| ensures r[i] in listed && r[i].issuer == issuer {
      MatchingMember(listed, issuer, |listed|, r[i]);
    }
    forall i, j | 0 <= i < j < |r| ensures r[i].name != r[j].name {
      MatchingDistinct(listed, issuer, |listed|, i, j);
    }
    forall id | id in OfIssuer(objects, issuer) ensures exists i :: 0 <= i < |r| && r[i].name == id {
      MatchingHas(listed, objects, issuer, id);
    }
  }

  lemma MatchingHas(listed: seq<Certificate>, objects: Objects, issuer: Issuer, id: nat)
    requires Lists(listed, objects) && id in OfIssuer(objects, issuer)
    ensures var r := Matching(listed, issuer, |listed|); exists i :: 0 <= i < |r| && r[i].name == id
  {
    var i :| 0 <= i < |listed| && listed[i].name == id;
    MatchingMember(listed, issuer, |listed|, listed[i]);
  }

  lemma {:induction false} MatchingAll(listed: seq<Certificate>, issuer: Issuer, upto: nat)
    requires upto <= |listed| && AllMatch(listed, issuer)
    ensures Matching(listed, issuer, upto) == listed[..upto]
  {
    if upto > 0 {
      MatchingAll(listed, issuer, upto - 1);
    }
  }

  lemma OwnIsOfIssuer(listed: seq<Certificate>, objects: Objects, issuer: Issuer)
    requires Lists(listed, objects)
    ensures KeptExactly(listed, OwnFlags(listed, issuer), objects, OfIssuer(objects, issuer))
  {
  }

  /** One pass of the controller; `missing` is what the collector reports once it is in sync. */
  method ReconcileCertificates(
    cluster: Cluster, issuer: Issuer, listed: seq<Certificate>, syncFails: bool, missing: set<string>)
    returns (failed: bool)
    requires Lists(listed, cluster.objects)
    modifies cluster
    ensures Grew(old(cluster.trace), cluster)
    ensures AlwaysSafe(old(cluster.objects), cluster, |old(cluster.trace)|, issuer, missing)
    ensures failed <==> cluster.faults > old(cluster.faults) || (issuer.name != "" && syncFails)
    ensures !failed && issuer.name == "" ==> cluster.objects == OfIssuer(old(cluster.objects), issuer)
    ensures !failed && issuer.name != "" ==>
              Outcome(Matching(listed, issuer, |listed|), OfIssuer(old(cluster.objects), issuer),
                      cluster.objects, issuer, missing)
    ensures issuer.name != "" && !syncFails ==>
              (|cluster.trace| == |old(cluster.trace)| <==> Quiet(listed, issuer, missing))
    ensures cluster.faults > old(cluster.faults) ==> |cluster.trace| > |old(cluster.trace)|
  {
    var mine;
    failed, mine := KeepOwn(cluster, issuer, listed, missing);
    if failed || issuer.name == "" { return; }
    if syncFails { return true; }
    MatchingLists(listed, old(cluster.objects), issuer);
    ghost var mid := cluster.trace;
    failed := Provision(cluster, issuer, mine, missing);
    SafeAfterSafe(old(cluster.objects), OfIssuer(old(cluster.objects), issuer), cluster, mid,
                  |old(cluster.trace)|, issuer, missing);
    if AllMatch(listed, issuer) {
      MatchingAll(listed, issuer, |listed|);
      assert listed[..|listed|] == listed;
    }
  }

  method KeepOwn(cluster: Cluster, issuer: Issuer, listed: seq<Certificate>, ghost missing: set<string>)
    returns (failed: bool, mine: seq<Certificate>)
    requires Lists(listed, cluster.objects)
    modifies cluster
    ensures Grew(old(cluster.trace), cluster)
    ensures AlwaysSafe(old(cluster.objects), cluster, |old(cluster.trace)|, issuer, missing)
    ensures cluster.faults == old(cluster.faults) + if failed then 1 else 0
    ensures !failed ==> mine == Matching(listed, issuer, |listed|)
    ensures !failed ==> cluster.objects == OfIssuer(old(cluster.objects), issuer)
    ensures Safe(old(cluster.objects), OfIssuer(old(cluster.objects), issuer), issuer, missing)
    ensures |cluster.trace| == |old(cluster.trace)| <==> AllMatch(listed, issuer)
    ensures failed ==> |cluster.trace| > |old(cluster.trace)|
  {
    ghost var start, from := cluster.objects, |cluster.trace|;
    ghost var keep := OwnFlags(listed, issuer);
    ghost var own := OfIssuer(start, issuer);
    OwnIsOfIssuer(listed, start, issuer);
    OwnIsSafe(listed, start, own, issuer, missing);
    PrunedAll(start, listed, keep);
    KeptExactlyUnique(listed, keep, start, own, Pruned(start, listed, keep, |listed|));
    failed, mine := DropForeign(cluster, issuer, listed);
    StagesAreSafe(cluster, from, start, listed, keep, own, issuer, missing);
  }

  lemma SafeAfterSafe(
    start: Objects, base: Objects, cluster: Cluster, mid: seq<Objects>, from: nat, issuer: Issuer, missing: set<string>)
    requires Safe(start, base, issuer, missing)
    requires forall t :: from <= t < |mid| ==> Safe(start, mid[t], issuer, missing)
    requires Grew(mid, cluster) && AlwaysSafe(base, cluster, |mid|, issuer, missing)
    ensures AlwaysSafe(start, cluster, from, issuer, missing)
  {
  }

  // ----- when a repeated pass does nothing -----

  /** Every certificate is the issuer's and holds a missing name that no other one holds. */
  ghost predicate Indispensable(objects: Objects, issuer: Issuer, missing: set<string>) {
    forall id :: id in objects ==> objects[id].issuer == issuer && exists dns :: HoldsAlone(objects, missing, id, dns)
  }

  ghost predicate HoldsAlone(objects: Objects, missing: set<string>, id: nat, dns: string)
    requires id in objects
  {
    && dns in missing && dns in objects[id].dnsNames
    && forall other :: other in objects && other != id ==> dns !in objects[other].dnsNames
  }

  lemma IndispensableIsQuiet(listed: seq<Certificate>, objects: Objects, issuer: Issuer, missing: set<string>)
    requires Lists(listed, objects)
    requires Indispensable(objects, issuer, missing) && AllProvisioned(objects, issuer, missing)
    ensures Quiet(listed, issuer, missing)
  {
    forall i | 0 <= i < |listed| ensures Used(listed, missing, i) {
      var dns :| HoldsAlone(objects, missing, listed[i].name, dns);
      assert Claims(listed, i, dns);
    }
    forall dns | dns in missing ensures Listed(listed, |listed|, dns) {
      var id :| id in objects && objects[id].issuer == issuer && dns in objects[id].dnsNames;
      var i :| 0 <= i < |listed| && listed[i].name == id;
    }
  }

  /** Every object map can be listed. */
  lemma {:induction false} Listing(objects: Objects) returns (listed: seq<Certificate>)
    requires forall id :: id in objects ==> objects[id].name == id
    ensures Lists(listed, objects)
  {
    if objects == map[] {
      listed := [];
    } else {
      var id :| id in objects;
      var rest := objects - {id};
      var r := Listing(rest);
      listed := r + [objects[id]];
      ListsOneMore(r, rest, objects, id);
    }
  }

  lemma ListsOneMore(r: seq<Certificate>, rest: Objects, objects: Objects, id: nat)
    requires id in objects && objects[id].name == id && rest == objects - {id} && Lists(r, rest)
    ensures Lists(r + [objects[id]], objects)
  {
    var listed := r + [objects[id]];
    forall other | other in objects ensures exists i :: 0 <= i < |listed| && listed[i].name == other {
      if other == id {
        assert listed[|r|].name == id;
      } else {
        assert other in rest;
        var i :| 0 <= i < |r| && r[i].name == other;
        assert listed[i].name == other;
      }
    }
  }

  /** Listed last, a certificate is used only for a name it holds alone. */
  lemma LastIsUsedAlone(objects: Objects, issuer: Issuer, missing: set<string>, id: nat)
    requires forall a :: a in objects ==> objects[a].name == a
    requires forall listed :: Lists(listed, objects) ==> Quiet(listed, issuer, missing)
    requires id in objects
    ensures exists dns :: HoldsAlone(objects, missing, id, dns)
  {
    var rest := objects - {id};
    var r := Listing(rest);
    ListsOneMore(r, rest, objects, id);
    var listed := r + [objects[id]];
    assert Used(listed, missing, |r|);
    var dns :| dns in missing && Claims(listed, |r|, dns);
    forall other | other in objects && other != id ensures dns !in objects[other].dnsNames {
      assert other in rest;
      var i :| 0 <= i < |r| && r[i].name == other;
      assert listed[i] == objects[other];
    }
    assert HoldsAlone(objects, missing, id, dns);
  }

  /** A pass is idle in every listing order exactly when no certificate can be spared or is lacking. */
  lemma QuietInEveryOrder(objects: Objects, issuer: Issuer, missing: set<string>)
    requires forall id :: id in objects ==> objects[id].name == id
    ensures (forall listed :: Lists(listed, objects) ==> Quiet(listed, issuer, missing))
            <==> Indispensable(objects, issuer, missing) && AllProvisioned(objects, issuer, missing)
  {
    if forall listed :: Lists(listed, objects) ==> Quiet(listed, issuer, missing) {
      var listed := Listing(objects);
      forall id | id in objects
        ensures objects[id].issuer == issuer && exists dns :: HoldsAlone(objects, missing, id, dns)
      {
        var i :| 0 <= i < |listed| && listed[i].name == id;
        LastIsUsedAlone(objects, issuer, missing, id);
      }
      forall dns | dns in missing ensures Provisioned(objects, issuer, dns) {
        assert Listed(listed, |listed|, dns);
        var i :| 0 <= i < |listed| && dns in listed[i].dnsNames;
        assert listed[i].name in objects;
      }
    }
    if Indispensable(objects, issuer, missing) && AllProvisioned(objects, issuer, missing) {
      forall listed | Lists(listed, objects) ensures Quiet(listed, issuer, missing) {
        IndispensableIsQuiet(listed, objects, issuer, missing);
      }
    }
  }

  lemma OnlyNameHeldAlone(objects: Objects, issuer: Issuer, missing: set<string>, id: nat)
    requires OnePerName(objects, issuer, missing) && id in objects
    ensures HoldsAlone(objects, missing, id, objects[id].dnsNames[0])
  {
    var dns := objects[id].dnsNames[0];
    forall other | other in objects && other != id ensures dns !in objects[other].dnsNames {
      assert objects[other].dnsNames == [objects[other].dnsNames[0]];
    }
  }

  /** In particular one certificate per missing name is a state no later pass touches. */
  lemma OnePerNameIsSettled(objects: Objects, issuer: Issuer, missing: set<string>)
    requires OnePerName(objects, issuer, missing)
    ensures Indispensable(objects, issuer, missing)
    ensures forall listed :: Lists(listed, objects) ==> Quiet(listed, issuer, missing)
  {
    forall id | id in objects ensures exists dns :: HoldsAlone(objects, missing, id, dns) {
      OnlyNameHeldAlone(objects, issuer, missing, id);
    }
    forall listed | Lists(listed, objects) ensures Quiet(listed, issuer, missing) {
      IndispensableIsQuiet(listed, objects, issuer, missing);
    }
  }

  // ----- two passes -----

  ghost predicate WellNamed(objects: Objects) {
    forall id :: id in objects ==> objects[id].name == id
  }

  lemma PassKeepsNames(mine: seq<Certificate>, before: Objects, after: Objects, issuer: Issuer, missing: set<string>)
    requires Lists(mine, before) && Outcome(mine, before, after, issuer, missing)
    ensures WellNamed(after)
  {
    var kept: Objects, remaining: set<string> :| && KeptExactly(mine, UsedFlags(mine, missing), before, kept)
                           && Open(mine, missing, |mine|, remaining)
                           && Extends(kept, after, issuer, remaining);
    forall id | id in kept ensures kept[id].name == id {
      assert id in before;
      var i :| 0 <= i < |mine| && mine[i].name == id;
    }
  }

  /**
   From single-name certificates, a pass without failures leaves one certificate per missing name,
   and the next pass, over any listing of what is there, issues no call and cannot fail.
   */
  method ReconcileTwice(
    cluster: Cluster, issuer: Issuer, listed: seq<Certificate>, missing: set<string>, list: Objects -> seq<Certificate>)
    returns (failed: bool, ghost calls: nat)
    requires Lists(listed, cluster.objects) && SingleNames(cluster.objects, issuer) && issuer.name != ""
    requires forall objects :: WellNamed(objects) ==> Lists(list(objects), objects)
    modifies cluster
    ensures failed ==> calls == |cluster.trace| && cluster.faults > old(cluster.faults)
    ensures !failed ==> |cluster.trace| == calls && OnePerName(cluster.objects, issuer, missing)
  {
    ghost var start := OfIssuer(cluster.objects, issuer);
    MatchingLists(listed, cluster.objects, issuer);
    failed := ReconcileCertificates(cluster, issuer, listed, false, missing);
    calls := |cluster.trace|;
    if failed { return; }
    PassProvisionsAll(Matching(listed, issuer, |listed|), start, cluster.objects, issuer, missing);
    PassKeepsNames(Matching(listed, issuer, |listed|), start, cluster.objects, issuer, missing);
    OnePerNameIsSettled(cluster.objects, issuer, missing);

    var again := list(cluster.objects);
    ghost var settled := OfIssuer(cluster.objects, issuer);
    MatchingLists(again, cluster.objects, issuer);
    failed := ReconcileCertificates(cluster, issuer, again, false, missing);
    PassProvisionsAll(Matching(again, issuer, |again|), settled, cluster.objects, issuer, missing);
  }
}
