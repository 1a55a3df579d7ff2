/**
 Hostname patterns of the Gateway API: an exact name, or a name that begins with a wildcard label
 and is a suffix match.
 */
module GatewayHostnames {
  import opened Options

  predicate HasSuffix(s: string, t: string) {
    |t| <= |s| && s[|s| - |t|..] == t
  }

  predicate IsWildcard(p: string) {
    "*." <= p
  }

  /** The hosts a pattern stands for. */
  predicate Matches(p: string, host: string) {
    host == p || (IsWildcard(p) && HasSuffix(host, p[1..]))
  }

  /** The pattern for the hosts both patterns match; empty if there are none. */
  function Intersection(a: string, b: string): string {
    if a == b then a
    else if IsWildcard(a) && HasSuffix(b, a[1..]) then b
    else if IsWildcard(b) && HasSuffix(a, b[1..]) then a
    else ""
  }

  lemma SuffixTransitive(a: string, b: string, c: string)
    requires HasSuffix(a, b) && HasSuffix(b, c)
    ensures HasSuffix(a, c)
  {
  }

  /** Dropping the first character keeps a suffix that does not start with it. */
  lemma TailSuffix(s: string, t: string)
    requires HasSuffix(s, t) && t != "" && s[0] != t[0]
    ensures HasSuffix(s[1..], t)
  {
  }

  /** A pattern that ends with a wildcard's tail is inside that wildcard. */
  lemma WildcardInside(a: string, b: string, host: string)
    requires IsWildcard(a) && HasSuffix(b, a[1..]) && Matches(b, host)
    ensures Matches(a, host)
  {
    if host != b {
      assert a[1] == '.' && b[0] == '*';
      TailSuffix(b, a[1..]);
      SuffixTransitive(host, b[1..], a[1..]);
    }
  }

  /** Of two wildcards that match one host, the longer is inside the shorter. */
  lemma WildcardsOverlap(a: string, b: string, host: string)
    requires IsWildcard(a) && IsWildcard(b) && HasSuffix(host, a[1..]) && HasSuffix(host, b[1..]) && |a| <= |b|
    ensures HasSuffix(b, a[1..])
  {
  }

  ghost predicate ExactOn(a: string, b: string, host: string) {
    (Intersection(a, b) != "" && Matches(Intersection(a, b), host)) <==> Matches(a, host) && Matches(b, host)
  }

  lemma IntersectionExactOn(a: string, b: string, host: string)
    requires a != "" || b != ""
    ensures ExactOn(a, b, host)
  {
    var r := Intersection(a, b);
    if a == b {
    } else if IsWildcard(a) && HasSuffix(b, a[1..]) {
      if Matches(b, host) { WildcardInside(a, b, host); }
    } else if IsWildcard(b) && HasSuffix(a, b[1..]) {
      if Matches(a, host) { WildcardInside(b, a, host); }
    } else if Matches(a, host) && Matches(b, host) {
      if host == a || host == b {
        assert false;
      } else if |a| <= |b| {
        WildcardsOverlap(a, b, host);
        assert false;
      } else {
        WildcardsOverlap(b, a, host);
        assert false;
      }
    }
  }

  /** Intersection is exact on every host, unless both hostnames are empty. */
  lemma IntersectionExact(a: string, b: string)
    ensures (forall host :: ExactOn(a, b, host)) <==> !(a == "" && b == "")
  {
    if a == "" && b == "" {
      assert !ExactOn(a, b, "");
    } else {
      forall host ensures ExactOn(a, b, host) {
        IntersectionExactOn(a, b, host);
      }
    }
  }

  // ----- the hostnames a route gets from one listener -----

  /** The hosts a resolved hostname stands for; a bare star is every host. */
  predicate Stands(p: string, host: string) {
    p == "*" || Matches(p, host)
  }

  /** The hosts a list of hostnames stands for. */
  ghost predicate Denotes(hostnames: seq<string>, host: string) {
    exists x :: x in hostnames && Stands(x, host)
  }

  /** What the two specs ask for: both must match, and one that names no hostname matches all. */
  ghost predicate BothMatch(listener: Option<string>, route: seq<string>, host: string) {
    && (listener.None? || Stands(listener.value, host))
    && (route == [] || Denotes(route, host))
  }

  /** As the API validates them: never empty, never a bare star. */
  predicate ValidHostname(h: string) {
    h != "" && h != "*"
  }

  /** Some hostname of the route has this host in common with the listener, by the code's reading. */
  ghost predicate Meets(l: string, route: seq<string>, host: string) {
    exists x :: x in route && Intersection(l, x) != "" && Stands(Intersection(l, x), host)
  }

  /** With both given: an empty listener hostname meets nothing, and a bare star meets only another. */
  ghost predicate ExactFor(l: string, route: seq<string>) {
    if l == "" then "" !in route && "*" !in route
    else if l == "*" then "*" in route
    else "*" in route ==> exists x :: x in route && x != "*" && Intersection(l, x) == l
  }

  /** The hostnames resolved for a route are exact; always so for hostnames that are valid. */
  ghost predicate Exact(listener: Option<string>, route: seq<string>) {
    listener.None? || route == [] || ExactFor(listener.value, route)
  }

  lemma ValidIsExact(listener: Option<string>, route: seq<string>)
    requires listener.Some? ==> ValidHostname(listener.value)
    requires forall x :: x in route ==> ValidHostname(x)
    ensures Exact(listener, route)
  {
  }

  /** A bare star has nothing in common with any other hostname. */
  lemma StarMeetsNone(y: string)
    requires y != "*"
    ensures Intersection("*", y) == "" && Intersection(y, "*") == ""
  {
    if IsWildcard(y) {
      assert y[1..][0] == '.' && |y[1..]| >= 1;
      assert !HasSuffix("*", y[1..]);
    }
  }

  /** What is in common is never more than the listener and the route's hostname have. */
  lemma MeetIsExact(l: string, x: string, host: string)
    requires l != "" && l != "*" && x != "*"
    ensures (Intersection(l, x) != "" && Stands(Intersection(l, x), host)) <==> Stands(l, host) && Stands(x, host)
  {
    IntersectionExactOn(l, x, host);
  }

  /** A wildcard that ends with the tail of another is no shorter. */
  lemma NoShorter(x: string, l: string)
    requires IsWildcard(x) && IsWildcard(l) && HasSuffix(x, l[1..])
    ensures |l| <= |x| && HasSuffix(x[1..], l[1..])
  {
    assert x[0] == '*' && l[1..][0] == '.';
    TailSuffix(x, l[1..]);
  }

  lemma SameLength(l: string, x: string)
    requires IsWildcard(l) && IsWildcard(x) && |l| == |x| && HasSuffix(x[1..], l[1..])
    ensures l == x
  {
    assert x[1..] == l[1..];
    assert x == ['*'] + x[1..] && l == ['*'] + l[1..];
  }

  /** A wildcard strictly inside another does not match the pattern of the other. */
  lemma InsideMissesOuter(l: string, x: string)
    requires l != x && IsWildcard(l) && HasSuffix(x, l[1..])
    ensures !Matches(x, l)
  {
    if IsWildcard(x) && HasSuffix(l, x[1..]) {
      NoShorter(x, l);
      NoShorter(l, x);
      SameLength(l, x);
      assert false;
    }
  }

  ghost predicate AgreesOn(l: string, route: seq<string>, host: string) {
    Meets(l, route, host) <==> Stands(l, host) && Denotes(route, host)
  }

  lemma EmptyMeets(route: seq<string>)
    ensures (forall host :: AgreesOn("", route, host)) <==> ExactFor("", route)
  {
    if ExactFor("", route) {
      forall host ensures AgreesOn("", route, host) {
        assert forall x :: Intersection("", x) == "";
      }
    } else {
      assert Denotes(route, "");
      assert !AgreesOn("", route, "");
    }
  }

  lemma StarMeets(route: seq<string>)
    requires route != []
    ensures (forall host :: AgreesOn("*", route, host)) <==> ExactFor("*", route)
  {
    if ExactFor("*", route) {
      forall host ensures AgreesOn("*", route, host) {
        assert Stands("*", host) && Intersection("*", "*") == "*";
      }
    } else {
      forall x | x in route ensures Intersection("*", x) == "" {
        StarMeetsNone(x);
      }
      assert route[0] in route && Stands(route[0], route[0]);
      assert !AgreesOn("*", route, route[0]);
    }
  }

  /** A host in common is one of the listener's, and of one of the route's other hostnames. */
  lemma MeetsIsBoth(l: string, route: seq<string>, host: string)
    requires l != "" && l != "*"
    ensures Meets(l, route, host) <==>
            Stands(l, host) && exists x :: x in route && x != "*" && Stands(x, host)
  {
    StarMeetsNone(l);
    forall x | x in route && x != "*"
      ensures (Intersection(l, x) != "" && Stands(Intersection(l, x), host)) <==> Stands(l, host) && Stands(x, host)
    {
      MeetIsExact(l, x, host);
    }
  }

  lemma OtherMeets(l: string, route: seq<string>)
    requires l != "" && l != "*"
    ensures (forall host :: AgreesOn(l, route, host)) <==> ExactFor(l, route)
  {
    forall host ensures Meets(l, route, host) <==>
                        Stands(l, host) && exists x :: x in route && x != "*" && Stands(x, host) {
      MeetsIsBoth(l, route, host);
    }
    if ExactFor(l, route) {
      forall host ensures AgreesOn(l, route, host) {
        if "*" in route && Stands(l, host) {
          var x :| x in route && x != "*" && Intersection(l, x) == l;
          MeetIsExact(l, x, host);
        }
      }
    } else {
      forall x | x in route && x != "*" ensures !Stands(x, l) {
        MeetIsExact(l, x, l);
        if Intersection(l, x) == x && x != l && x != "" { InsideMissesOuter(l, x); }
      }
      assert Denotes(route, l);
      assert !AgreesOn(l, route, l);
    }
  }

  lemma MeetsExactly(l: string, route: seq<string>)
    requires route != []
    ensures (forall host :: AgreesOn(l, route, host)) <==> ExactFor(l, route)
  {
    if l == "" {
      EmptyMeets(route);
    } else if l == "*" {
      StarMeets(route);
    } else {
      OtherMeets(l, route);
    }
  }

  /** The hostnames denote what both specs match, exactly when the condition says so. */
  method RouteHostnames(listener: Option<string>, route: seq<string>) returns (r: seq<string>)
    ensures (forall host :: Denotes(r, host) <==> BothMatch(listener, route, host)) <==> Exact(listener, route)
    ensures Exact(listener, route) ==> (r == [] <==> forall host :: !BothMatch(listener, route, host))
  {
    if listener.None? || route == [] {
      r := if listener.Some? then [listener.value] else if route == [] then ["*"] else route;
      forall host ensures Denotes(r, host) <==> BothMatch(listener, route, host) {
        assert listener.Some? ==> listener.value in r;
        assert listener.None? && route == [] ==> "*" in r;
      }
    } else {
      r := [];
      for i := 0 to |route|
        invariant forall host :: Denotes(r, host) <==> Meets(listener.value, route[..i], host)
      {
        var h := Intersection(listener.value, route[i]);
        ghost var before := r;
        if h != "" {
          r := r + [h];
        }
        forall host ensures Denotes(r, host) <==> Meets(listener.value, route[..i + 1], host) {
          DenotesNext(before, h, host);
          MeetsNext(listener.value, route, i, host);
        }
      }
      assert route[..|route|] == route;
      ghost var l := listener.value;
      MeetsExactly(l, route);
      assert forall host :: AgreesOn(l, route, host) <==> (Denotes(r, host) <==> BothMatch(listener, route, host));
    }
    if r != [] {
      NonEmptyDenotes(r);
    }
  }

  lemma DenotesNext(hostnames: seq<string>, h: string, host: string)
    ensures Denotes(hostnames + [h], host) <==> Denotes(hostnames, host) || Stands(h, host)
  {
    var more := hostnames + [h];
    assert h in more;
    if Denotes(hostnames, host) {
      var x :| x in hostnames && Stands(x, host);
      assert x in more;
    }
  }

  lemma MeetsNext(l: string, route: seq<string>, i: nat, host: string)
    requires i < |route|
    ensures Meets(l, route[..i + 1], host) <==>
            Meets(l, route[..i], host) || (Intersection(l, route[i]) != "" && Stands(Intersection(l, route[i]), host))
  {
    assert route[..i + 1] == route[..i] + [route[i]];
    assert route[i] in route[..i + 1];
  }

  lemma NonEmptyDenotes(hostnames: seq<string>)
    requires hostnames != []
    ensures exists host :: Denotes(hostnames, host)
  {
    assert hostnames[0] in hostnames && Stands(hostnames[0], hostnames[0]);
    assert Denotes(hostnames, hostnames[0]);
  }
}
