/**
 Pruning of certificates: for each routed host the newest certificate of its exact name, or else of
 its parent wildcard, is kept.
 */
module CertPruning {
  import opened Lexical
  import opened Names
  import opened Options

  datatype X509 = X509(names: seq<string>, notAfter: int)

  /** A certificate as stored, with its private key. */
  datatype Cert = Cert(bytes: string, key: string)

  /** How certificate bytes are read; bytes that are not a certificate do not parse. */
  type Parser = string -> Option<X509>

  ghost predicate Parses(parse: Parser, certs: seq<Cert>) {
    forall i :: 0 <= i < |certs| ==> parse(certs[i].bytes).Some?
  }

  function Parsed(parse: Parser, certs: seq<Cert>): (r: seq<X509>)
    requires Parses(parse, certs)
    ensures |r| == |certs| && forall i :: 0 <= i < |certs| ==> r[i] == parse(certs[i].bytes).value
  {
    seq(|certs|, i requires 0 <= i < |certs| => parse(certs[i].bytes).value)
  }

  /** One of the first `upto` names of the certificate is filed under `key`. */
  ghost predicate NamedBelow(c: X509, upto: nat, key: Parts)
    requires upto <= |c.names|
  {
    exists j :: 0 <= j < upto && Cut(c.names[j]) == key
  }

  ghost predicate Named(c: X509, key: Parts) {
    NamedBelow(c, |c.names|, key)
  }

  function WildcardOf(host: string): Parts {
    Parts("*", Cut(host).suffix)
  }

  ghost predicate CoversHost(c: X509, host: string) {
    Named(c, Cut(host)) || Named(c, WildcardOf(host))
  }

  ghost predicate Covered(certs: seq<X509>, host: string) {
    exists i :: 0 <= i < |certs| && CoversHost(certs[i], host)
  }

  // ----- the domain map -----

  /** Which certificate each key refers to, by its place in the list. */
  type Refs = map<Parts, nat>

  /** Replaced only by a certificate that expires strictly later. */
  function AddIfNewer(refs: Refs, certs: seq<X509>, key: Parts, i: nat): Refs
    requires i < |certs| && forall k :: k in refs ==> refs[k] < |certs|
  {
    if key in refs && certs[i].notAfter <= certs[refs[key]].notAfter then refs else refs[key := i]
  }

  /** The map after all names of the first `n` certificates and `m` names of the next one. */
  ghost function RefsAfter(certs: seq<X509>, n: nat, m: nat): (refs: Refs)
    requires n <= |certs| && m <= if n < |certs| then |certs[n].names| else 0
    ensures forall k :: k in refs ==> refs[k] < |certs|
    decreases n, m
  {
    if m > 0 then AddIfNewer(RefsAfter(certs, n, m - 1), certs, Cut(certs[n].names[m - 1]), n)
    else if n > 0 then RefsAfter(certs, n - 1, |certs[n - 1].names|)
    else map[]
  }

  /** Certificate `i` has filed `key` by the time `n` certificates and `m` more names were added. */
  ghost predicate FiledBy(certs: seq<X509>, n: nat, m: nat, i: nat, key: Parts)
    requires n <= |certs| && m <= if n < |certs| then |certs[n].names| else 0
  {
    (i < n && Named(certs[i], key)) || (i == n && n < |certs| && NamedBelow(certs[n], m, key))
  }

  /** The latest to expire, and of several the first in the list. */
  ghost predicate NewestOf(certs: seq<X509>, n: nat, m: nat, key: Parts, i: nat)
    requires n <= |certs| && m <= if n < |certs| then |certs[n].names| else 0
  {
    && i < |certs| && FiledBy(certs, n, m, i, key)
    && forall j :: 0 <= j < |certs| && FiledBy(certs, n, m, j, key) ==>
         certs[j].notAfter <= certs[i].notAfter && (j < i ==> certs[j].notAfter < certs[i].notAfter)
  }

  lemma FiledByName(certs: seq<X509>, n: nat, m: nat, key: Parts)
    requires n < |certs| && 0 < m <= |certs[n].names|
    ensures forall i :: FiledBy(certs, n, m, i, key) <==>
              FiledBy(certs, n, m - 1, i, key) || (i == n && Cut(certs[n].names[m - 1]) == key)
  {
  }

  lemma FiledByRow(certs: seq<X509>, n: nat, key: Parts)
    requires 0 < n <= |certs|
    ensures forall i :: FiledBy(certs, n, 0, i, key) <==> FiledBy(certs, n - 1, |certs[n - 1].names|, i, key)
  {
  }

  /** The map refers to the newest certificate under `key`, if any certificate has it. */
  ghost predicate RefersToNewest(certs: seq<X509>, n: nat, m: nat, key: Parts, refs: Refs)
    requires n <= |certs| && m <= if n < |certs| then |certs[n].names| else 0
  {
    if key in refs then NewestOf(certs, n, m, key, refs[key])
    else forall i :: 0 <= i < |certs| ==> !FiledBy(certs, n, m, i, key)
  }

  /** Adding one more name keeps the newest of those that have it. */
  lemma NewestNext(certs: seq<X509>, n: nat, m: nat, key: Parts, refs: Refs)
    requires n < |certs| && 0 < m <= |certs[n].names| && forall k :: k in refs ==> refs[k] < |certs|
    requires RefersToNewest(certs, n, m - 1, key, refs)
    ensures RefersToNewest(certs, n, m, key, AddIfNewer(refs, certs, Cut(certs[n].names[m - 1]), n))
  {
    FiledByName(certs, n, m, key);
  }

  lemma {:induction false} RefsAreNewest(certs: seq<X509>, n: nat, m: nat, key: Parts)
    requires n <= |certs| && m <= if n < |certs| then |certs[n].names| else 0
    ensures RefersToNewest(certs, n, m, key, RefsAfter(certs, n, m))
    decreases n, m
  {
    if m > 0 {
      RefsAreNewest(certs, n, m - 1, key);
      NewestNext(certs, n, m, key, RefsAfter(certs, n, m - 1));
    } else if n > 0 {
      RefsAreNewest(certs, n - 1, |certs[n - 1].names|, key);
      FiledByRow(certs, n, key);
    }
  }

  /** The certificate a host uses: of its exact name if there is one, else of its parent wildcard. */
  function Choice(refs: Refs, host: string): Option<nat> {
    if Cut(host) in refs then Some(refs[Cut(host)])
    else if WildcardOf(host) in refs then Some(refs[WildcardOf(host)])
    else None
  }

  // ----- the order of the kept certificates -----

  predicate Before(data: seq<Cert>, i: nat, j: nat) {
    i < |data| && j < |data| && Cmp(data[i].bytes, data[j].bytes) < 0
  }

  /** The list goes up in certificate bytes, so it holds nothing twice. */
  ghost predicate InByteOrder(data: seq<Cert>, kept: seq<nat>) {
    && (forall p :: 0 <= p < |kept| ==> kept[p] < |data|)
    && (forall p, q :: 0 <= p < q < |kept| ==> Before(data, kept[p], kept[q]))
  }

  lemma BeforeIsStrict(data: seq<Cert>, i: nat, j: nat)
    requires i < |data| && j < |data|
    ensures !(Before(data, i, j) && Before(data, j, i))
    ensures data[i].bytes != data[j].bytes <==> Before(data, i, j) || Before(data, j, i)
  {
    CmpEqual(data[i].bytes, data[j].bytes);
  }

  lemma BeforeIsTransitive(data: seq<Cert>, i: nat, j: nat, k: nat)
    requires Before(data, i, j) && Before(data, j, k)
    ensures Before(data, i, k)
  {
    CmpTransitive(data[i].bytes, data[j].bytes, data[k].bytes);
  }

  lemma TailInOrder(data: seq<Cert>, kept: seq<nat>)
    requires InByteOrder(data, kept) && kept != []
    ensures InByteOrder(data, kept[1..])
    ensures forall i :: i in kept[1..] <==> i in kept && i != kept[0]
  {
    forall p | 0 < p < |kept| ensures kept[p] != kept[0] {
      BeforeIsStrict(data, kept[0], kept[p]);
    }
    assert kept == [kept[0]] + kept[1..];
  }

  lemma HeadsAgree(data: seq<Cert>, a: seq<nat>, b: seq<nat>)
    requires InByteOrder(data, a) && InByteOrder(data, b) && a != [] && b != []
    requires forall i :: i in a <==> i in b
    ensures a[0] == b[0]
  {
    assert a[0] in a && b[0] in b;
    var q :| 0 <= q < |b| && b[q] == a[0];
    var p :| 0 <= p < |a| && a[p] == b[0];
    BeforeIsStrict(data, a[0], b[0]);
  }

  /** The same certificates have one list in byte order. */
  lemma {:induction false} ByteOrderUnique(data: seq<Cert>, a: seq<nat>, b: seq<nat>)
    requires InByteOrder(data, a) && InByteOrder(data, b)
    requires forall i :: i in a <==> i in b
    ensures a == b
  {
    assert (a != [] ==> a[0] in a) && (b != [] ==> b[0] in b);
    if a != [] {
      HeadsAgree(data, a, b);
      TailInOrder(data, a);
      TailInOrder(data, b);
      ByteOrderUnique(data, a[1..], b[1..]);
    }
  }

  lemma InsertedInOrder(data: seq<Cert>, kept: seq<nat>, i: nat, k: nat)
    requires InByteOrder(data, kept) && i < |data| && k <= |kept|
    requires k > 0 ==> Before(data, kept[k - 1], i)
    requires forall q :: k <= q < |kept| ==> Before(data, i, kept[q])
    ensures InByteOrder(data, kept[..k] + [i] + kept[k..])
  {
    forall p | 0 <= p < k ensures Before(data, kept[p], i) {
      if p < k - 1 {
        BeforeIsTransitive(data, kept[p], kept[k - 1], i);
      }
    }
  }

  /** Puts one certificate more in its place. */
  method InsertByBytes(data: seq<Cert>, kept: seq<nat>, i: nat) returns (out: seq<nat>)
    requires InByteOrder(data, kept) && i < |data|
    requires forall p :: 0 <= p < |kept| ==> data[kept[p]].bytes != data[i].bytes
    ensures InByteOrder(data, out) && forall j :: j in out <==> j in kept || j == i
  {
    var k := |kept|;
    while k > 0 && Before(data, i, kept[k - 1])
      invariant 0 <= k <= |kept|
      invariant forall q :: k <= q < |kept| ==> Before(data, i, kept[q])
    {
      k := k - 1;
    }
    if k > 0 {
      BeforeIsStrict(data, i, kept[k - 1]);
    }
    InsertedInOrder(data, kept, i, k);
    out := kept[..k] + [i] + kept[k..];
    assert kept == kept[..k] + kept[k..];
  }

  class DomainMap {
    const data: seq<Cert>
    const certs: seq<X509>
    var refs: Refs
    var inUse: set<nat>

    ghost predicate Valid()
      reads this
    {
      |data| == |certs| && forall k :: k in refs ==> refs[k] < |certs|
    }

    constructor (data: seq<Cert>, certs: seq<X509>)
      requires |data| == |certs|
      ensures this.data == data && this.certs == certs && Valid()
      ensures refs == RefsAfter(certs, |certs|, 0) && inUse == {}
    {
      this.data, this.certs, refs, inUse := data, certs, map[], {};
      new;
      for i := 0 to |certs|
        invariant refs == RefsAfter(certs, i, 0) && inUse == {} && this.certs == certs && this.data == data
      {
        Add(i);
      }
    }

    method Add(i: nat)
      requires i < |certs| && refs == RefsAfter(certs, i, 0)
      modifies this`refs
      ensures refs == RefsAfter(certs, i + 1, 0)
    {
      for j := 0 to |certs[i].names|
        invariant refs == RefsAfter(certs, i, j)
      {
        refs := AddIfNewer(refs, certs, Cut(certs[i].names[j]), i);
      }
    }

    method MarkInUse(host: string)
      requires Valid()
      modifies this`inUse
      ensures inUse == old(inUse) + (match Choice(refs, host) case None => {} case Some(i) => {i})
    {
      if Cut(host) in refs {
        inUse := inUse + {refs[Cut(host)]};
      } else if WildcardOf(host) in refs {
        inUse := inUse + {refs[WildcardOf(host)]};
      }
    }

    /** Some entry refers to each certificate in use, and no two of them have the same bytes. */
    ghost predicate UseIsSound()
      reads this
    {
      && (forall i :: i in inUse ==> i < |data| && exists k :: k in refs && refs[k] == i)
      && (forall i, j :: i in inUse && j in inUse && i != j && i < |data| && j < |data| ==>
            data[i].bytes != data[j].bytes)
    }

    /** The certificates in use that some entry refers to. */
    method ReferredInUse() returns (chosen: set<nat>)
      requires Valid() && UseIsSound()
      ensures chosen == inUse
    {
      chosen := {};
      var rest := refs.Keys;
      while rest != {}
        invariant rest <= refs.Keys
        invariant forall i :: i in chosen <==> i in inUse && exists k :: k in refs && k !in rest && refs[k] == i
      {
        var k :| k in rest;
        if refs[k] in inUse {
          chosen := chosen + {refs[k]};
        }
        rest := rest - {k};
      }
    }

    /** The certificates in use, each once, in the order of their bytes. */
    method GetCertsInUse() returns (kept: seq<nat>)
      requires Valid() && UseIsSound()
      ensures InByteOrder(data, kept) && forall i :: i in kept <==> i in inUse
    {
      var chosen := ReferredInUse();
      kept := [];
      while chosen != {}
        invariant chosen <= inUse && InByteOrder(data, kept)
        invariant forall i :: i in kept <==> i in inUse && i !in chosen
      {
        var i :| i in chosen;
        assert forall p :: 0 <= p < |kept| ==> kept[p] in kept;
        kept := InsertByBytes(data, kept, i);
        chosen := chosen - {i};
      }
    }
  }

  // ----- what pruning keeps -----

  /** The key a host is served by: its exact name if any certificate has it, else the wildcard. */
  ghost function UsedKey(certs: seq<X509>, host: string): Parts {
    if exists i :: 0 <= i < |certs| && Named(certs[i], Cut(host)) then Cut(host) else WildcardOf(host)
  }

  ghost predicate Newest(certs: seq<X509>, key: Parts, i: nat) {
    && i < |certs| && Named(certs[i], key)
    && forall j :: 0 <= j < |certs| && Named(certs[j], key) ==>
         certs[j].notAfter <= certs[i].notAfter && (j < i ==> certs[j].notAfter < certs[i].notAfter)
  }

  ghost predicate Uses(certs: seq<X509>, host: string, i: nat) {
    Newest(certs, UsedKey(certs, host), i)
  }

  lemma RefIsNewest(certs: seq<X509>, key: Parts)
    ensures var refs := RefsAfter(certs, |certs|, 0);
            if key in refs then Newest(certs, key, refs[key])
            else forall i :: 0 <= i < |certs| ==> !Named(certs[i], key)
  {
    RefsAreNewest(certs, |certs|, 0, key);
    assert forall i :: 0 <= i < |certs| ==> (FiledBy(certs, |certs|, 0, i, key) <==> Named(certs[i], key));
  }

  /** The map's choice for a host is the certificate it uses by the reference reading. */
  lemma ChoiceIsUse(certs: seq<X509>, host: string, i: nat)
    ensures Choice(RefsAfter(certs, |certs|, 0), host) == Some(i) <==> Uses(certs, host, i)
  {
    RefIsNewest(certs, Cut(host));
    RefIsNewest(certs, WildcardOf(host));
    var refs := RefsAfter(certs, |certs|, 0);
    assert UsedKey(certs, host) == if Cut(host) in refs then Cut(host) else WildcardOf(host);
    if Choice(refs, host).Some? && Uses(certs, host, i) {
      var c := Choice(refs, host).value;
      assert Newest(certs, UsedKey(certs, host), c);
    }
  }

  ghost predicate IsKept(certs: seq<X509>, hosts: set<string>, i: nat) {
    exists h :: h in hosts && Uses(certs, h, i)
  }

  /** `kept` lists exactly the certificates some host uses. */
  ghost predicate KeepsUsed(certs: seq<X509>, hosts: set<string>, kept: seq<nat>) {
    forall i :: i in kept <==> IsKept(certs, hosts, i)
  }

  /** What pruning leaves: the certificates in use, in the order of their bytes. */
  ghost predicate Prunes(parse: Parser, certs: seq<Cert>, hosts: set<string>, kept: seq<nat>)
    requires Parses(parse, certs)
  {
    KeepsUsed(Parsed(parse, certs), hosts, kept) && InByteOrder(certs, kept)
  }

  lemma PrunesUnique(parse: Parser, certs: seq<Cert>, hosts: set<string>, a: seq<nat>, b: seq<nat>)
    requires Parses(parse, certs) && Prunes(parse, certs, hosts, a) && Prunes(parse, certs, hosts, b)
    ensures a == b
  {
    ByteOrderUnique(certs, a, b);
  }

  /** Of two certificates with the same bytes only the first is ever used. */
  lemma UsedBytesDiffer(parse: Parser, certs: seq<Cert>, hosts: set<string>, i: nat, j: nat)
    requires Parses(parse, certs) && i < j
    requires IsKept(Parsed(parse, certs), hosts, i) && IsKept(Parsed(parse, certs), hosts, j)
    ensures i < |certs| && j < |certs| && certs[i].bytes != certs[j].bytes
  {
    var h :| h in hosts && Uses(Parsed(parse, certs), h, j);
  }

  function Pick<T>(all: seq<T>, kept: seq<nat>): (r: seq<T>)
    requires forall p :: 0 <= p < |kept| ==> kept[p] < |all|
    ensures |r| == |kept| && forall p :: 0 <= p < |kept| ==> r[p] == all[kept[p]]
  {
    seq(|kept|, p requires 0 <= p < |kept| => all[kept[p]])
  }

  /** The map after all hosts had their turn marks exactly the certificates that are kept. */
  lemma MarkedAreKept(parse: Parser, data: seq<Cert>, hosts: set<string>, dm: DomainMap)
    requires Parses(parse, data) && dm.Valid() && dm.data == data && dm.certs == Parsed(parse, data)
    requires dm.refs == RefsAfter(dm.certs, |dm.certs|, 0)
    requires forall i :: i in dm.inUse <==> exists h :: h in hosts && Choice(dm.refs, h) == Some(i)
    ensures dm.UseIsSound() && forall i :: i in dm.inUse <==> IsKept(dm.certs, hosts, i)
  {
    forall i: nat, h ensures Choice(dm.refs, h) == Some(i) <==> Uses(dm.certs, h, i) {
      ChoiceIsUse(dm.certs, h, i);
    }
    forall i, j | i in dm.inUse && j in dm.inUse && i < j ensures dm.data[i].bytes != dm.data[j].bytes {
      UsedBytesDiffer(parse, data, hosts, i, j);
    }
  }

  /** The certificates left when these hosts are served; fails on one that does not parse. */
  method RemoveUnusedCerts(parse: Parser, certs: seq<Cert>, hosts: set<string>)
    returns (r: Option<seq<Cert>>, ghost kept: seq<nat>)
    ensures r.Some? <==> Parses(parse, certs)
    ensures r.Some? ==> Prunes(parse, certs, hosts, kept) && r.value == Pick(certs, kept)
  {
    kept := [];
    for i := 0 to |certs|
      invariant forall j :: 0 <= j < i ==> parse(certs[j].bytes).Some?
    {
      if parse(certs[i].bytes).None? { return None, []; }
    }
    var dm := new DomainMap(certs, Parsed(parse, certs));
    var rest := hosts;
    while rest != {}
      invariant dm.Valid() && fresh(dm) && dm.refs == RefsAfter(dm.certs, |dm.certs|, 0)
      invariant rest <= hosts
      invariant forall i :: i in dm.inUse <==> exists h :: h in hosts && h !in rest && Choice(dm.refs, h) == Some(i)
    {
      var h :| h in rest;
      dm.MarkInUse(h);
      rest := rest - {h};
    }
    MarkedAreKept(parse, certs, hosts, dm);
    var left := dm.GetCertsInUse();
    kept := left;
    r := Some(Pick(certs, left));
  }

  // ----- what that means for the hosts -----

  lemma NewestExists(certs: seq<X509>, key: Parts, i: nat) returns (best: nat)
    requires i < |certs| && Named(certs[i], key)
    ensures Newest(certs, key, best)
  {
    RefIsNewest(certs, key);
    best := RefsAfter(certs, |certs|, 0)[key];
  }

  lemma CoveredIsUsed(certs: seq<X509>, host: string) returns (i: nat)
    requires Covered(certs, host)
    ensures Uses(certs, host, i)
  {
    var j :| 0 <= j < |certs| && CoversHost(certs[j], host);
    if k :| 0 <= k < |certs| && Named(certs[k], Cut(host)) {
      i := NewestExists(certs, Cut(host), k);
    } else {
      i := NewestExists(certs, WildcardOf(host), j);
    }
  }

  /** A host that was covered still is, by the latest to expire of the name it is served by. */
  lemma PruningKeepsCoverage(certs: seq<X509>, hosts: set<string>, kept: seq<nat>, host: string) returns (p: nat)
    requires KeepsUsed(certs, hosts, kept) && host in hosts && Covered(certs, host)
    requires forall q :: 0 <= q < |kept| ==> kept[q] < |certs|
    ensures p < |kept| && Named(certs[kept[p]], UsedKey(certs, host))
    ensures forall j :: 0 <= j < |certs| && Named(certs[j], UsedKey(certs, host)) ==>
              certs[j].notAfter <= certs[kept[p]].notAfter
    ensures Covered(Pick(certs, kept), host)
  {
    var i := CoveredIsUsed(certs, host);
    assert i in kept;
    p :| 0 <= p < |kept| && kept[p] == i;
    assert CoversHost(Pick(certs, kept)[p], host);
  }

  /** At most one certificate is kept per host. */
  lemma {:induction false} KeptAtMostHosts(certs: seq<X509>, hosts: set<string>, kept: seq<nat>)
    requires forall i :: i in kept ==> IsKept(certs, hosts, i)
    requires forall a, b :: 0 <= a < b < |kept| ==> kept[a] != kept[b]
    ensures |kept| <= |hosts|
  {
    if kept != [] {
      var n := |kept| - 1;
      assert kept[n] in kept;
      var h :| h in hosts && Uses(certs, h, kept[n]);
      forall i | i in kept[..n] ensures IsKept(certs, hosts - {h}, i) {
        assert i in kept;
        var g :| g in hosts && Uses(certs, g, i);
        assert g in hosts - {h};
      }
      KeptAtMostHosts(certs, hosts - {h}, kept[..n]);
    }
  }

  // ----- pruning again -----

  /**
   Among the kept certificates under the name the host is served by, this one expires last, and of
   those that expire with it, it has the least bytes.
   */
  ghost predicate Wins(data: seq<Cert>, certs: seq<X509>, hosts: set<string>, i: nat, host: string)
    requires |data| == |certs|
  {
    && host in hosts && i < |certs| && Named(certs[i], UsedKey(certs, host))
    && forall j :: 0 <= j < |certs| && j != i && IsKept(certs, hosts, j) && Named(certs[j], UsedKey(certs, host)) ==>
         certs[j].notAfter < certs[i].notAfter || (certs[j].notAfter == certs[i].notAfter && Before(data, i, j))
  }

  ghost predicate AllWin(parse: Parser, data: seq<Cert>, hosts: set<string>)
    requires Parses(parse, data)
  {
    var certs := Parsed(parse, data);
    forall i :: IsKept(certs, hosts, i) ==> exists h :: Wins(data, certs, hosts, i, h)
  }

  /** `next` begins with the kept certificates, and holds no others than there were. */
  ghost predicate Continues(certs: seq<X509>, kept: seq<nat>, next: seq<X509>) {
    && |kept| <= |next|
    && (forall p :: 0 <= p < |kept| ==> kept[p] < |certs| && next[p] == certs[kept[p]])
    && (forall p :: 0 <= p < |next| ==> next[p] in certs)
  }

  lemma SameUsedKey(certs: seq<X509>, hosts: set<string>, kept: seq<nat>, next: seq<X509>, host: string)
    requires KeepsUsed(certs, hosts, kept) && Continues(certs, kept, next)
    requires host in hosts && Covered(certs, host)
    ensures UsedKey(next, host) == UsedKey(certs, host)
  {
    var c := CoveredIsUsed(certs, host);
    assert c in kept;
    var q :| 0 <= q < |kept| && kept[q] == c;
    assert Named(next[q], UsedKey(certs, host));
  }

  /** The latest expiry under a name in use is that of a kept certificate. */
  lemma LatestIsKept(certs: seq<X509>, hosts: set<string>, kept: seq<nat>, host: string) returns (q: nat)
    requires KeepsUsed(certs, hosts, kept) && host in hosts && Covered(certs, host)
    ensures q < |kept| && kept[q] < |certs| && Named(certs[kept[q]], UsedKey(certs, host))
    ensures forall x :: x in certs && Named(x, UsedKey(certs, host)) ==> x.notAfter <= certs[kept[q]].notAfter
  {
    var c := CoveredIsUsed(certs, host);
    assert c in kept;
    q :| 0 <= q < |kept| && kept[q] == c;
  }

  /** Whoever is used next among kept certificates and repeated ones wins among the kept ones. */
  lemma UsedNextWins(
    data: seq<Cert>, certs: seq<X509>, hosts: set<string>, kept: seq<nat>, next: seq<X509>, host: string, p: nat)
    requires |data| == |certs| && KeepsUsed(certs, hosts, kept) && InByteOrder(data, kept)
    requires Continues(certs, kept, next) && host in hosts && Uses(next, host, p)
    ensures p < |kept| && Wins(data, certs, hosts, kept[p], host)
  {
    CoveredNext(certs, kept, next, host, p);
    SameUsedKey(certs, hosts, kept, next, host);
    var key := UsedKey(certs, host);
    var q := LatestIsKept(certs, hosts, kept, host);
    assert next[p] in certs && next[q] == certs[kept[q]];
    assert p < |kept|;
    forall j | 0 <= j < |certs| && j != kept[p] && IsKept(certs, hosts, j) && Named(certs[j], key)
      ensures certs[j].notAfter < certs[kept[p]].notAfter
              || (certs[j].notAfter == certs[kept[p]].notAfter && Before(data, kept[p], j))
    {
      assert j in kept;
      var k :| 0 <= k < |kept| && kept[k] == j;
      assert next[k] == certs[j];
    }
  }

  lemma CoveredNext(certs: seq<X509>, kept: seq<nat>, next: seq<X509>, host: string, p: nat)
    requires Continues(certs, kept, next) && Uses(next, host, p)
    ensures Covered(certs, host)
  {
    var j :| 0 <= j < |certs| && certs[j] == next[p];
    assert CoversHost(certs[j], host);
  }

  lemma WinnerIsUsedNext(
    data: seq<Cert>, certs: seq<X509>, hosts: set<string>, kept: seq<nat>, next: seq<X509>, host: string, p: nat)
    requires |data| == |certs| && KeepsUsed(certs, hosts, kept) && InByteOrder(data, kept)
    requires Continues(certs, kept, next) && p < |kept| && Wins(data, certs, hosts, kept[p], host)
    ensures Uses(next, host, p)
  {
    var key := UsedKey(certs, host);
    assert CoversHost(certs[kept[p]], host);
    SameUsedKey(certs, hosts, kept, next, host);
    var q := LatestIsKept(certs, hosts, kept, host);
    assert kept[q] in kept;
    assert certs[kept[p]].notAfter == certs[kept[q]].notAfter;
    forall k | 0 <= k < |next| && Named(next[k], key)
      ensures next[k].notAfter <= next[p].notAfter && (k < p ==> next[k].notAfter < next[p].notAfter)
    {
      assert next[k] in certs;
      if k < p {
        BeforeIsStrict(data, kept[k], kept[p]);
        assert kept[k] in kept;
      }
    }
  }

  lemma LeftContinues(parse: Parser, data: seq<Cert>, kept: seq<nat>, more: seq<Cert>)
    requires Parses(parse, data) && (forall p :: 0 <= p < |kept| ==> kept[p] < |data|)
    requires forall c :: c in more ==> c in data
    ensures Parses(parse, Pick(data, kept) + more)
    ensures Continues(Parsed(parse, data), kept, Parsed(parse, Pick(data, kept) + more))
  {
    var all := Pick(data, kept) + more;
    forall p | 0 <= p < |all| ensures parse(all[p].bytes).Some? && parse(all[p].bytes).value in Parsed(parse, data) {
      assert all[p] in data;
      var j :| 0 <= j < |data| && data[j] == all[p];
      assert Parsed(parse, data)[j] == parse(all[p].bytes).value;
    }
  }

  /** Pruned again, possibly with some of the same certificates added again, exactly the winners are left. */
  lemma WinnersStay(
    parse: Parser, data: seq<Cert>, hosts: set<string>, kept: seq<nat>, more: seq<Cert>, again: seq<nat>, p: nat)
    requires Parses(parse, data) && Prunes(parse, data, hosts, kept) && (forall c :: c in more ==> c in data)
    requires Parses(parse, Pick(data, kept) + more) && Prunes(parse, Pick(data, kept) + more, hosts, again)
    ensures p in again <==> p < |kept| && exists h :: Wins(data, Parsed(parse, data), hosts, kept[p], h)
  {
    LeftContinues(parse, data, kept, more);
    var certs, next := Parsed(parse, data), Parsed(parse, Pick(data, kept) + more);
    if p in again {
      var h :| h in hosts && Uses(next, h, p);
      UsedNextWins(data, certs, hosts, kept, next, h, p);
    }
    if p < |kept| && exists h :: Wins(data, certs, hosts, kept[p], h) {
      var h :| Wins(data, certs, hosts, kept[p], h);
      WinnerIsUsedNext(data, certs, hosts, kept, next, h, p);
      assert IsKept(next, hosts, p);
    }
  }

  /**
   Pruning what is left, possibly with some of the same certificates added again, changes nothing
   exactly when every kept certificate wins for some host.
   */
  lemma PruningIsIdempotent(
    parse: Parser, data: seq<Cert>, hosts: set<string>, kept: seq<nat>, more: seq<Cert>, again: seq<nat>)
    requires Parses(parse, data) && Prunes(parse, data, hosts, kept) && (forall c :: c in more ==> c in data)
    requires Parses(parse, Pick(data, kept) + more) && Prunes(parse, Pick(data, kept) + more, hosts, again)
    ensures Pick(Pick(data, kept) + more, again) == Pick(data, kept) <==> AllWin(parse, data, hosts)
  {
    forall p: nat
      ensures p in again <==> p < |kept| && exists h :: Wins(data, Parsed(parse, data), hosts, kept[p], h)
    {
      WinnersStay(parse, data, hosts, kept, more, again, p);
    }
    if AllWin(parse, data, hosts) {
      forall p: nat | p < |kept| ensures p in again {
        assert kept[p] in kept && IsKept(Parsed(parse, data), hosts, kept[p]);
      }
      AllStay(data, kept, more, again);
    }
    if Pick(Pick(data, kept) + more, again) == Pick(data, kept) {
      forall i | IsKept(Parsed(parse, data), hosts, i)
        ensures exists h :: Wins(data, Parsed(parse, data), hosts, i, h)
      {
        assert i in kept;
        var p :| 0 <= p < |kept| && kept[p] == i;
        SamePlace(data, kept, more, again, p);
      }
    }
  }

  lemma AllStay(data: seq<Cert>, kept: seq<nat>, more: seq<Cert>, again: seq<nat>)
    requires InByteOrder(data, kept) && InByteOrder(Pick(data, kept) + more, again)
    requires forall p: nat :: p in again <==> p < |kept|
    ensures Pick(Pick(data, kept) + more, again) == Pick(data, kept)
  {
    var all := Pick(data, kept) + more;
    var identity := seq(|kept|, p => p);
    forall p: nat ensures p in identity <==> p < |kept| {
      assert p < |kept| ==> identity[p] == p;
    }
    assert forall p, q :: 0 <= p < q < |kept| ==> Before(data, kept[p], kept[q]) && Before(all, p, q);
    ByteOrderUnique(all, again, identity);
  }

  /** If the list is the same afterwards, every place was kept. */
  lemma SamePlace(data: seq<Cert>, kept: seq<nat>, more: seq<Cert>, again: seq<nat>, p: nat)
    requires InByteOrder(data, kept) && InByteOrder(Pick(data, kept) + more, again)
    requires forall q :: q in again ==> q < |kept|
    requires Pick(Pick(data, kept) + more, again) == Pick(data, kept) && p < |kept|
    ensures p in again
  {
    var q := again[p];
    assert q in again;
    assert data[kept[q]] == data[kept[p]];
    BeforeIsStrict(data, kept[q], kept[p]);
  }

  /** In particular when no two certificates expire together. */
  lemma DistinctExpiriesWin(parse: Parser, data: seq<Cert>, hosts: set<string>)
    requires Parses(parse, data)
    requires forall i, j :: 0 <= i < j < |data| ==> Parsed(parse, data)[i].notAfter != Parsed(parse, data)[j].notAfter
    ensures AllWin(parse, data, hosts)
  {
    var certs := Parsed(parse, data);
    forall i | IsKept(certs, hosts, i) ensures exists h :: Wins(data, certs, hosts, i, h) {
      var h :| h in hosts && Uses(certs, h, i);
      assert Wins(data, certs, hosts, i, h);
    }
  }

  lemma TiedUses(certs: seq<X509>, a: string, b: string, notAfter: int)
    requires certs == [X509([a], notAfter), X509([a, b], notAfter)] && Cut(a) != Cut(b)
    ensures Named(certs[0], Cut(a)) && Named(certs[1], Cut(a)) && !Named(certs[0], Cut(b))
    ensures Uses(certs, a, 0) && Uses(certs, b, 1) && UsedKey(certs, a) == Cut(a) && UsedKey(certs, b) == Cut(b)
  {
    assert Cut(certs[0].names[0]) == Cut(a) && Cut(certs[1].names[0]) == Cut(a) && Cut(certs[1].names[1]) == Cut(b);
  }

  lemma TiedKept(certs: seq<X509>, a: string, b: string, notAfter: int)
    requires certs == [X509([a], notAfter), X509([a, b], notAfter)] && Cut(a) != Cut(b)
    ensures KeepsUsed(certs, {a, b}, [1, 0])
  {
    TiedUses(certs, a, b, notAfter);
    assert IsKept(certs, {a, b}, 0) && IsKept(certs, {a, b}, 1);
    assert forall i :: IsKept(certs, {a, b}, i) ==> i < 2;
  }

  lemma TiedLoses(data: seq<Cert>, certs: seq<X509>, a: string, b: string, notAfter: int, h: string)
    requires certs == [X509([a], notAfter), X509([a, b], notAfter)] && Cut(a) != Cut(b)
    requires |data| == 2 && !Before(data, 0, 1)
    ensures !Wins(data, certs, {a, b}, 0, h)
  {
    TiedUses(certs, a, b, notAfter);
    assert IsKept(certs, {a, b}, 1);
  }

  /** Without that it may fail: two that expire together swap places, and the second pruning drops one. */
  lemma TiesMayLose(parse: Parser, y: Cert, x: Cert, a: string, b: string, notAfter: int)
    requires parse(y.bytes) == Some(X509([a], notAfter)) && parse(x.bytes) == Some(X509([a, b], notAfter))
    requires Cmp(x.bytes, y.bytes) < 0 && Cut(a) != Cut(b)
    ensures Parses(parse, [y, x]) && Prunes(parse, [y, x], {a, b}, [1, 0]) && !AllWin(parse, [y, x], {a, b})
  {
    var data, certs := [y, x], [X509([a], notAfter), X509([a, b], notAfter)];
    assert Parsed(parse, data) == certs;
    TiedKept(certs, a, b, notAfter);
    CmpEqual(x.bytes, y.bytes);
    forall h ensures !Wins(data, certs, {a, b}, 0, h) {
      TiedLoses(data, certs, a, b, notAfter, h);
    }
    assert 0 in [1, 0];
  }
}
