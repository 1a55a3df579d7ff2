/**
 DNS names as the certificate index reads them: one trailing dot is dropped, letters are
 lower-cased, and the rest is cut at the first dot into a left-most label and its parent.
 */
module Names {

  datatype Parts = Parts(prefix: string, suffix: string)

  function LowerChar(c: char): char {
    if 'A' <= c <= 'Z' then (c as int + 32) as char else c
  }

  function ToLower(s: string): (r: string) {
    seq(|s|, i requires 0 <= i < |s| => LowerChar(s[i]))
  }

  /** Drops one final dot, if there is one. */
  function TrimDot(s: string): string {
    if s != "" && s[|s| - 1] == '.' then s[..|s| - 1] else s
  }

  /** Cuts at the first dot; a name without a dot has an empty suffix. */
  function Cut(s: string): (r: Parts) {
    if s == "" then Parts("", "")
    else if s[0] == '.' then Parts("", s[1..])
    else
      var rest := Cut(s[1..]);
      Parts([s[0]] + rest.prefix, rest.suffix)
  }

  function Canonical(name: string): string {
    ToLower(TrimDot(name))
  }

  function Split(name: string): Parts {
    Cut(Canonical(name))
  }

  function Normalize(names: seq<string>): (r: seq<string>)
    ensures |r| == |names|
    ensures forall i :: 0 <= i < |names| ==> r[i] == Canonical(names[i])
  {
    seq(|names|, i requires 0 <= i < |names| => Canonical(names[i]))
  }

  /** A certificate issued for `cert` is valid for the host `name`. */
  predicate Covers(cert: string, name: string) {
    && Split(cert).suffix == Split(name).suffix
    && (Split(cert).prefix == Split(name).prefix || Split(cert).prefix == "*")
  }

  /** An index lookup of `query` finds a key that stores `stored`. */
  predicate Finds(query: string, stored: string, allowWildcard: bool) {
    && Split(query).suffix == Split(stored).suffix
    && (|| (allowWildcard && Split(query).prefix == "*")
        || Split(stored).prefix == Split(query).prefix
        || Split(stored).prefix == "*")
  }

  // ----- the reference reading of a name, without cutting -----

  /** The name with a dot after its left-most label. */
  function Rooted(s: string): string {
    if '.' in s then s else s + "."
  }

  /** `cert` is `name` with its left-most label replaced by a star. */
  ghost predicate StarsLeftmostLabel(cert: string, name: string) {
    exists first: string, parent: string ::
      '.' !in first && name == first + "." + parent && cert == "*." + parent
  }

  lemma RootedTail(s: string)
    requires s != "" && s[0] != '.'
    ensures Rooted(s) == [s[0]] + Rooted(s[1..])
  {
  }

  lemma Prepend(c: char, p: string, q: string)
    ensures [c] + (p + "." + q) == [c] + p + "." + q
  {
  }

  lemma {:induction false} CutPrefix(s: string)
    ensures '.' !in Cut(s).prefix
  {
    if s != "" && s[0] != '.' {
      CutPrefix(s[1..]);
    }
  }

  /** Cutting splits at the dot after the left-most label, and loses nothing. */
  lemma {:induction false} CutSplits(s: string)
    ensures Rooted(s) == Cut(s).prefix + "." + Cut(s).suffix
  {
    if s == "" {
    } else if s[0] == '.' {
      assert s == "." + s[1..];
    } else {
      CutSplits(s[1..]);
      RootedTail(s);
      Prepend(s[0], Cut(s[1..]).prefix, Cut(s[1..]).suffix);
    }
  }

  lemma CutUnique(p: string, s: string, q: string, t: string)
    requires '.' !in p && '.' !in q
    requires p + "." + s == q + "." + t
    ensures p == q && s == t
  {
    var u := p + "." + s;
    assert u[|p|] == '.' && u[|q|] == '.';
    assert forall i :: 0 <= i < |p| ==> u[i] == p[i] && u[i] != '.';
    assert forall i :: 0 <= i < |q| ==> u[i] == q[i] && u[i] != '.';
    assert |p| == |q|;
    assert p == u[..|p|] == q;
    assert s == u[|p| + 1..] == t;
  }

  /** Matching by index cell is exactly equality of names, or one left-most wildcard label. */
  lemma CoversIsOneLabelWildcard(cert: string, name: string)
    ensures Covers(cert, name) <==>
            var c, n := Rooted(Canonical(cert)), Rooted(Canonical(name));
            c == n || StarsLeftmostLabel(c, n)
  {
    CutPrefix(Canonical(cert));
    CutPrefix(Canonical(name));
    CutSplits(Canonical(cert));
    CutSplits(Canonical(name));
    PartsCover(Rooted(Canonical(cert)), Rooted(Canonical(name)), Split(cert), Split(name));
  }

  lemma PartsCover(c: string, n: string, cp: Parts, np: Parts)
    requires '.' !in cp.prefix && '.' !in np.prefix
    requires c == cp.prefix + "." + cp.suffix && n == np.prefix + "." + np.suffix
    ensures cp.suffix == np.suffix && (cp.prefix == np.prefix || cp.prefix == "*")
            <==> c == n || StarsLeftmostLabel(c, n)
  {
    if cp.suffix == np.suffix && cp.prefix == "*" {
      assert n == np.prefix + "." + np.suffix && c == "*." + np.suffix;
    }
    if c == n {
      CutUnique(cp.prefix, cp.suffix, np.prefix, np.suffix);
    }
    if StarsLeftmostLabel(c, n) {
      var first: string, parent: string :|
        '.' !in first && n == first + "." + parent && c == "*." + parent;
      CutUnique(first, parent, np.prefix, np.suffix);
      assert c == "*" + "." + parent;
      CutUnique("*", parent, cp.prefix, cp.suffix);
    }
  }
}
