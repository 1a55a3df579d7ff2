/**
 The index of DNS names: suffix -> prefix -> keys, kept beside the names of each key.
 */
module NameIndexes {
  import opened Names

  type Table<Key> = map<string, map<string, set<Key>>>

  predicate Holds<Key(==)>(t: Table<Key>, prefix: string, suffix: string, key: Key) {
    suffix in t && prefix in t[suffix] && key in t[suffix][prefix]
  }

  predicate NoEmptyMaps<Key>(t: Table<Key>) {
    forall s | s in t :: t[s] != map[] && forall p | p in t[s] :: t[s][p] != {}
  }

  /** One of the first `upto` names is filed at this cell. */
  ghost predicate FiledAt(names: seq<string>, upto: nat, prefix: string, suffix: string)
    requires upto <= |names|
  {
    exists j :: 0 <= j < upto && Split(names[j]) == Parts(prefix, suffix)
  }

  /** A key is stored at a cell exactly when one of its current names splits there. */
  ghost predicate Indexes<Key(!new)>(t: Table<Key>, keys: map<Key, seq<string>>) {
    forall p, s, k :: Holds(t, p, s, k) <==> k in keys && FiledAt(keys[k], |keys[k]|, p, s)
  }

  /** Takes a key out of a row, and its cell away once it is empty. */
  function Strike<Key(!new)>(row: map<string, set<Key>>, prefix: string, key: Key): (r: map<string, set<Key>>)
    requires forall p | p in row :: row[p] != {}
    ensures forall p | p in r :: r[p] != {}
    ensures forall p, k :: (p in r && k in r[p]) <==> p in row && k in row[p] && !(p == prefix && k == key)
  {
    if prefix !in row then row else
    assert forall k | k in row[prefix] && k != key :: k in row[prefix] - {key};
    if row[prefix] - {key} == {} then row - {prefix}
    else row[prefix := row[prefix] - {key}]
  }

  /** Takes a key out of a cell, and the cell and its row away once they are empty. */
  function Unfile<Key(!new)>(t: Table<Key>, at: Parts, key: Key): (r: Table<Key>)
    requires NoEmptyMaps(t)
    ensures NoEmptyMaps(r)
    ensures forall p, s, k :: Holds(r, p, s, k) <==> Holds(t, p, s, k) && !(k == key && at == Parts(p, s))
  {
    if at.suffix !in t then t else
      var row := Strike(t[at.suffix], at.prefix, key);
      if row == map[] then t - {at.suffix} else t[at.suffix := row]
  }

  function File<Key(!new)>(t: Table<Key>, at: Parts, key: Key): (r: Table<Key>)
    requires NoEmptyMaps(t)
    ensures NoEmptyMaps(r)
    ensures forall p, s, k :: Holds(r, p, s, k) <==> Holds(t, p, s, k) || (k == key && at == Parts(p, s))
  {
    var row := if at.suffix in t then t[at.suffix] else map[];
    var cell := if at.prefix in row then row[at.prefix] else {};
    t[at.suffix := row[at.prefix := cell + {key}]]
  }

  /** `after` is `before` with the key gone from the cells of its first `upto` names. */
  ghost predicate Struck<Key(!new)>(
    before: Table<Key>, after: Table<Key>, key: Key, names: seq<string>, upto: nat)
    requires upto <= |names|
  {
    forall p, s, k :: Holds(after, p, s, k) <==>
                        Holds(before, p, s, k) && !(k == key && FiledAt(names, upto, p, s))
  }

  lemma StrikeNext<Key(!new)>(
    before: Table<Key>, mid: Table<Key>, key: Key, names: seq<string>, i: nat)
    requires i < |names| && NoEmptyMaps(mid)
    requires Struck(before, mid, key, names, i)
    ensures Struck(before, Unfile(mid, Split(names[i]), key), key, names, i + 1)
  {
  }

  lemma StruckIndexes<Key(!new)>(
    before: Table<Key>, after: Table<Key>, key: Key, names: seq<string>, keys: map<Key, seq<string>>)
    requires Indexes(before, keys)
    requires names == if key in keys then keys[key] else []
    requires Struck(before, after, key, names, |names|)
    ensures Indexes(after, keys - {key})
  {
  }

  class NameIndex<Key(==, !new)> {
    var suffixes: Table<Key>
    var keys: map<Key, seq<string>>

    ghost predicate Valid()
      reads this
    {
      NoEmptyMaps(suffixes) && Indexes(suffixes, keys)
    }

    constructor ()
      ensures Valid() && keys == map[]
    {
      suffixes, keys := map[], map[];
    }

    method Get(key: Key) returns (names: seq<string>)
      ensures names == if key in keys then keys[key] else []
    {
      names := if key in keys then keys[key] else [];
    }

    method Remove(key: Key)
      requires Valid()
      modifies this
      ensures Valid() && keys == old(keys) - {key}
    {
      var names := Get(key);
      keys := keys - {key};
      for i := 0 to |names|
        invariant keys == old(keys) - {key}
        invariant NoEmptyMaps(suffixes)
        invariant Struck(old(suffixes), suffixes, key, names, i)
      {
        StrikeNext(old(suffixes), suffixes, key, names, i);
        suffixes := Unfile(suffixes, Split(names[i]), key);
      }
      StruckIndexes(old(suffixes), suffixes, key, names, old(keys));
    }

    method Add(key: Key, names: seq<string>)
      requires Valid()
      modifies this
      ensures Valid() && keys == old(keys)[key := names]
    {
      Remove(key);
      ghost var cleared := suffixes;
      keys := keys[key := names];
      for i := 0 to |names|
        invariant keys == old(keys)[key := names]
        invariant NoEmptyMaps(suffixes)
        invariant forall p, s, k :: Holds(suffixes, p, s, k) <==>
                    Holds(cleared, p, s, k) || (k == key && FiledAt(names, i, p, s))
      {
        suffixes := File(suffixes, Split(names[i]), key);
      }
    }

    /** The two-level lookup finds what a scan over every name of every key would find. */
    method Lookup(name: string, allowWildcard: bool) returns (found: set<Key>)
      requires Valid()
      ensures forall k :: k in found <==>
                k in keys && exists n :: n in keys[k] && Finds(name, n, allowWildcard)
    {
      var Parts(prefix, suffix) := Split(name);
      found := {};
      if suffix in suffixes {
        var prefixes := suffixes[suffix];
        if prefix == "*" && allowWildcard {
          var rest := prefixes.Keys;
          while rest != {}
            invariant rest <= prefixes.Keys
            invariant forall k :: k in found <==> exists p :: p !in rest && Holds(suffixes, p, suffix, k)
          {
            var p :| p in rest;
            found := found + prefixes[p];
            rest := rest - {p};
          }
        } else {
          if prefix in prefixes { found := found + prefixes[prefix]; }
          if "*" in prefixes { found := found + prefixes["*"]; }
          assert forall k :: k in found <==> Holds(suffixes, prefix, suffix, k) || Holds(suffixes, "*", suffix, k);
        }
      }
      forall k
        ensures k in found <==> k in keys && exists n :: n in keys[k] && Finds(name, n, allowWildcard)
      {
        LookupFinds(suffixes, keys, name, allowWildcard, k);
      }
    }
  }

  /** Reading the cells a lookup reads is a scan over the names of a key. */
  lemma LookupFinds<Key(!new)>(
    t: Table<Key>, keys: map<Key, seq<string>>, name: string, allowWildcard: bool, k: Key)
    requires Indexes(t, keys)
    ensures (k in keys && exists n :: n in keys[k] && Finds(name, n, allowWildcard))
            <==> var q := Split(name);
                 if allowWildcard && q.prefix == "*" then exists p :: Holds(t, p, q.suffix, k)
                 else Holds(t, q.prefix, q.suffix, k) || Holds(t, "*", q.suffix, k)
  {
    var q := Split(name);
    if k in keys {
      forall n | n in keys[k] && Finds(name, n, allowWildcard)
        ensures Holds(t, Split(n).prefix, q.suffix, k)
      {
        var j :| 0 <= j < |keys[k]| && keys[k][j] == n;
        assert Split(keys[k][j]) == Parts(Split(n).prefix, q.suffix);
        assert FiledAt(keys[k], |keys[k]|, Split(n).prefix, q.suffix);
      }
    }
    forall p | Holds(t, p, q.suffix, k)
      ensures k in keys && exists n :: n in keys[k] && Split(n) == Parts(p, q.suffix)
    {
      assert FiledAt(keys[k], |keys[k]|, p, q.suffix);
      var j :| 0 <= j < |keys[k]| && Split(keys[k][j]) == Parts(p, q.suffix);
      assert keys[k][j] in keys[k];
    }
  }
}
