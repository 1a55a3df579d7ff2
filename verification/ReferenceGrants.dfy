/**
 Cross-namespace references: an index of all grants, from target to the sources it admits.
 */
module ReferenceGrants {
  import opened Options

  /** An object reference; an empty name stands for every object of the kind in the namespace. */
  datatype RefKey = RefKey(group: string, kind: string, namespace: string, name: string)

  datatype From = From(group: string, kind: string, namespace: string)

  datatype To = To(group: string, kind: string, name: Option<string>)

  datatype Grant = Grant(namespace: string, from: seq<From>, to: seq<To>)

  type GrantMap = map<RefKey, set<RefKey>>

  function FromKey(f: From): RefKey {
    RefKey(f.group, f.kind, f.namespace, "")
  }

  function ToKey(namespace: string, t: To): RefKey {
    RefKey(t.group, t.kind, namespace, if t.name.Some? then t.name.value else "")
  }

  /** The grant lets sources like `source` refer to `target`, named or as part of its kind. */
  ghost predicate Permits(g: Grant, source: RefKey, target: RefKey) {
    && g.namespace == target.namespace
    && (exists f :: f in g.from && f.group == source.group && f.kind == source.kind && f.namespace == source.namespace)
    && (exists t :: t in g.to && t.group == target.group && t.kind == target.kind
          && (t.name.None? || t.name.value == "" || t.name.value == target.name))
  }

  /** A reference is allowed within one namespace, or by some grant. */
  ghost predicate Granted(grants: seq<Grant>, source: RefKey, target: RefKey) {
    source.namespace == target.namespace || exists g :: g in grants && Permits(g, source, target)
  }

  /** Grant `i` has filed its sources under `key` once it came to its first `m` targets. */
  ghost predicate Files(g: Grant, m: nat, key: RefKey, source: RefKey)
    requires m <= |g.to|
  {
    && (exists j :: 0 <= j < m && ToKey(g.namespace, g.to[j]) == key)
    && (exists f :: f in g.from && FromKey(f) == source)
  }

  ghost predicate FiledBefore(grants: seq<Grant>, n: nat, key: RefKey, source: RefKey)
    requires n <= |grants|
  {
    exists i :: 0 <= i < n && Files(grants[i], |grants[i].to|, key, source)
  }

  ghost predicate Admits(m: GrantMap, key: RefKey, source: RefKey) {
    key in m && source in m[key]
  }

  lemma FilesNext(g: Grant, j: nat, key: RefKey, source: RefKey)
    requires j < |g.to|
    ensures Files(g, j + 1, key, source) <==>
            || Files(g, j, key, source)
            || (ToKey(g.namespace, g.to[j]) == key && source in set f | f in g.from :: FromKey(f))
  {
  }

  method Build(grants: seq<Grant>) returns (m: GrantMap)
    ensures forall key, source :: Admits(m, key, source) <==> FiledBefore(grants, |grants|, key, source)
  {
    m := map[];
    for n := 0 to |grants|
      invariant forall key, source :: Admits(m, key, source) <==> FiledBefore(grants, n, key, source)
    {
      var g := grants[n];
      var sources := set f | f in g.from :: FromKey(f);
      ghost var before := m;
      for j := 0 to |g.to|
        invariant forall key, source ::
                    Admits(m, key, source) <==> Admits(before, key, source) || Files(g, j, key, source)
      {
        var k := ToKey(g.namespace, g.to[j]);
        ghost var was := m;
        m := m[k := (if k in m then m[k] else {}) + sources];
        forall key, source
          ensures Admits(m, key, source) <==> Admits(before, key, source) || Files(g, j + 1, key, source)
        {
          FilesNext(g, j, key, source);
          assert Admits(m, key, source) <==> Admits(was, key, source) || (key == k && source in sources);
        }
      }
    }
  }

  method Allowed(m: GrantMap, from: RefKey, target: RefKey, ghost grants: seq<Grant>) returns (r: bool)
    requires forall key, source :: Admits(m, key, source) <==> FiledBefore(grants, |grants|, key, source)
    ensures r <==> Granted(grants, from, target)
  {
    if from.namespace == target.namespace { return true; }
    var source := from.(name := "");
    r := (target in m && source in m[target]) || (target.(name := "") in m && source in m[target.(name := "")]);
    assert r <==> Admits(m, target, source) || Admits(m, target.(name := ""), source);
    FiledIsPermitted(grants, from, target);
  }

  /** What the index files for a target, by its name or for its whole kind, is what the grants permit. */
  lemma FiledIsPermitted(grants: seq<Grant>, from: RefKey, target: RefKey)
    ensures (FiledBefore(grants, |grants|, target, from.(name := ""))
             || FiledBefore(grants, |grants|, target.(name := ""), from.(name := "")))
            <==> exists g :: g in grants && Permits(g, from, target)
  {
    var source := from.(name := "");
    forall i | 0 <= i < |grants|
      ensures Permits(grants[i], from, target) <==>
              || Files(grants[i], |grants[i].to|, target, source)
              || Files(grants[i], |grants[i].to|, target.(name := ""), source)
    {
      FilesIsPermits(grants[i], from, target);
    }
    if g :| g in grants && Permits(g, from, target) {
      var i :| 0 <= i < |grants| && grants[i] == g;
    }
  }

  lemma FilesIsPermits(g: Grant, from: RefKey, target: RefKey)
    ensures Permits(g, from, target) <==>
            || Files(g, |g.to|, target, from.(name := ""))
            || Files(g, |g.to|, target.(name := ""), from.(name := ""))
  {
  }

  /** The index answers every reference as a scan over the grants would. */
  method Decide(grants: seq<Grant>, from: RefKey, target: RefKey) returns (r: bool)
    ensures r <==> Granted(grants, from, target)
  {
    var m := Build(grants);
    r := Allowed(m, from, target, grants);
  }
}
