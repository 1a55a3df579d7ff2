/**
 The canonical order of routes, and what it means for a proxy that takes the first match.
 */
module RouteOrder {
  import opened Lexical

  /** A route as the order sees it; an unset match is the empty string. */
  datatype Route = Route(from: string, path: string, regex: string, prefix: string, id: string, body: string)

  /** From ascending, then path, regex and prefix descending, then id ascending. */
  predicate Less(a: Route, b: Route) {
    if Cmp(a.from, b.from) != 0 then Cmp(a.from, b.from) < 0
    else if Cmp(a.path, b.path) != 0 then Cmp(a.path, b.path) > 0
    else if Cmp(a.regex, b.regex) != 0 then Cmp(a.regex, b.regex) > 0
    else if Cmp(a.prefix, b.prefix) != 0 then Cmp(a.prefix, b.prefix) > 0
    else Cmp(a.id, b.id) < 0
  }

  ghost predicate Sorted(routes: seq<Route>) {
    forall i, j :: 0 <= i < j < |routes| ==> !Less(routes[j], routes[i])
  }

  lemma CmpFields(a: Route, b: Route)
    ensures Cmp(a.from, b.from) == 0 <==> a.from == b.from
    ensures Cmp(a.path, b.path) == 0 <==> a.path == b.path
    ensures Cmp(a.regex, b.regex) == 0 <==> a.regex == b.regex
    ensures Cmp(a.prefix, b.prefix) == 0 <==> a.prefix == b.prefix
    ensures Cmp(a.id, b.id) == 0 <==> a.id == b.id
    ensures Cmp(b.from, a.from) == -Cmp(a.from, b.from) && Cmp(b.path, a.path) == -Cmp(a.path, b.path)
    ensures Cmp(b.regex, a.regex) == -Cmp(a.regex, b.regex) && Cmp(b.prefix, a.prefix) == -Cmp(a.prefix, b.prefix)
    ensures Cmp(b.id, a.id) == -Cmp(a.id, b.id)
  {
    CmpEqual(a.from, b.from);
    CmpEqual(a.path, b.path);
    CmpEqual(a.regex, b.regex);
    CmpEqual(a.prefix, b.prefix);
    CmpEqual(a.id, b.id);
  }

  /** Routes with different ids are always ordered, one way only. */
  lemma LessTotal(a: Route, b: Route)
    ensures !(Less(a, b) && Less(b, a))
    ensures a.id != b.id ==> Less(a, b) || Less(b, a)
  {
    CmpFields(a, b);
  }

  lemma LessTransitive(a: Route, b: Route, c: Route)
    requires Less(a, b) && Less(b, c)
    ensures Less(a, c)
  {
    CmpChain(a.from, b.from, c.from);
    CmpChain(a.path, b.path, c.path);
    CmpChain(a.regex, b.regex, c.regex);
    CmpChain(a.prefix, b.prefix, c.prefix);
    CmpChain(a.id, b.id, c.id);
  }

  // ----- the first match -----

  /** Each route matches by path, by regular expression or by prefix, never by two of them. */
  predicate OneKind(r: Route) {
    (r.path == "" || (r.regex == "" && r.prefix == "")) && (r.regex == "" || r.prefix == "")
  }

  /** 0 for an exact path, 1 for a regular expression, 2 for a prefix. */
  function Kind(r: Route): nat {
    if r.path != "" then 0 else if r.regex != "" then 1 else 2
  }

  predicate Matches(r: Route, from: string, path: string, regexMatches: (string, string) -> bool) {
    && r.from == from
    && match Kind(r)
       case 0 => r.path == path
       case 1 => regexMatches(r.regex, path)
       case _ => r.prefix <= path
  }

  /** For one From, exact paths come before regular expressions, and those before prefixes. */
  lemma KindsInOrder(routes: seq<Route>, i: nat, j: nat)
    requires Sorted(routes) && i < j < |routes| && OneKind(routes[i]) && OneKind(routes[j])
    requires routes[i].from == routes[j].from
    ensures Kind(routes[i]) <= Kind(routes[j])
    ensures Kind(routes[i]) == Kind(routes[j]) == 2 ==> Cmp(routes[j].prefix, routes[i].prefix) <= 0
  {
    var a, b := routes[i], routes[j];
    assert !Less(b, a);
    CmpFields(a, b);
    assert b.path != "" ==> Cmp(b.path, "") > 0;
    assert b.regex != "" ==> Cmp(b.regex, "") > 0;
  }

  lemma LongerPrefixFirst(a: string, b: string, path: string)
    requires a <= path && b <= path && Cmp(b, a) <= 0
    ensures |b| <= |a|
  {
    if |a| < |b| {
      assert a < b;
      CmpPrefix(a, b);
      CmpEqual(a, b);
    }
  }

  /**
   In a sorted list the first match of a request is the best one: an exact path if any exact path
   matches, else a regular expression if any matches, else the longest matching prefix.
   */
  lemma FirstMatchIsBest(
    routes: seq<Route>, from: string, path: string, regexMatches: (string, string) -> bool, first: nat, other: nat)
    requires Sorted(routes) && (forall k :: 0 <= k < |routes| ==> OneKind(routes[k]))
    requires first < |routes| && Matches(routes[first], from, path, regexMatches)
    requires forall k :: 0 <= k < first ==> !Matches(routes[k], from, path, regexMatches)
    requires other < |routes| && Matches(routes[other], from, path, regexMatches)
    ensures Kind(routes[first]) <= Kind(routes[other])
    ensures Kind(routes[first]) == 2 ==> |routes[other].prefix| <= |routes[first].prefix|
    ensures Kind(routes[first]) == Kind(routes[other]) == 0 ==> routes[first].path == routes[other].path
  {
    if first != other {
      assert first < other;
      KindsInOrder(routes, first, other);
      if Kind(routes[first]) == 2 {
        LongerPrefixFirst(routes[first].prefix, routes[other].prefix, path);
      }
    }
  }

  // ----- sorting -----

  lemma NotLessTransitive(a: Route, b: Route, c: Route)
    requires !Less(b, a) && !Less(c, b)
    ensures !Less(c, a)
  {
    CmpChain(c.from, b.from, a.from);
    CmpChain(c.path, b.path, a.path);
    CmpChain(c.regex, b.regex, a.regex);
    CmpChain(c.prefix, b.prefix, a.prefix);
    CmpChain(c.id, b.id, a.id);
    CmpFields(a, b);
    CmpFields(b, c);
    CmpFields(a, c);
  }

  ghost predicate DistinctIds(routes: seq<Route>) {
    forall i, j :: 0 <= i < j < |routes| ==> routes[i].id != routes[j].id
  }

  lemma SameHead(a: seq<Route>, b: seq<Route>, i: nat, j: nat)
    requires Sorted(a) && Sorted(b) && DistinctIds(a)
    requires i < |b| && j < |a| && b[i] == a[0] && a[j] == b[0]
    ensures a[0] == b[0]
  {
    LessTotal(a[0], b[0]);
  }

  lemma HeadsAgree(a: seq<Route>, b: seq<Route>)
    requires Sorted(a) && Sorted(b) && DistinctIds(a) && multiset(a) == multiset(b) && a != []
    ensures b != [] && a[0] == b[0]
  {
    assert b != [] by { assert |multiset(a)| == |multiset(b)|; }
    assert a[0] in multiset(a) && b[0] in multiset(b);
    var i :| 0 <= i < |b| && b[i] == a[0];
    var j :| 0 <= j < |a| && a[j] == b[0];
    SameHead(a, b, i, j);
  }

  lemma TailMultiset(a: seq<Route>)
    requires a != []
    ensures multiset(a[1..]) == multiset(a) - multiset{a[0]}
  {
    assert a == [a[0]] + a[1..];
  }

  lemma TailSorted(a: seq<Route>)
    requires a != [] && Sorted(a)
    ensures Sorted(a[1..]) && (DistinctIds(a) ==> DistinctIds(a[1..]))
  {
  }

  /** With distinct ids there is only one sorted arrangement of the same routes. */
  lemma {:induction false} SortedUnique(a: seq<Route>, b: seq<Route>)
    requires Sorted(a) && Sorted(b) && DistinctIds(a) && multiset(a) == multiset(b)
    ensures a == b
  {
    if a == [] {
      assert |multiset(b)| == 0;
    } else {
      HeadsAgree(a, b);
      TailMultiset(a);
      TailMultiset(b);
      TailSorted(a);
      TailSorted(b);
      SortedUnique(a[1..], b[1..]);
    }
  }

  /** The place of a route in a sorted list: nothing after it goes before it. */
  method Insert(sorted: seq<Route>, r: Route) returns (out: seq<Route>)
    requires Sorted(sorted)
    ensures Sorted(out) && multiset(out) == multiset(sorted) + multiset{r}
  {
    var k := |sorted|;
    while k > 0 && Less(r, sorted[k - 1])
      invariant 0 <= k <= |sorted|
      invariant forall j :: k <= j < |sorted| ==> Less(r, sorted[j])
    {
      k := k - 1;
    }
    out := sorted[..k] + [r] + sorted[k..];
    assert sorted == sorted[..k] + sorted[k..];
    InsertedSorted(sorted, r, k);
  }

  lemma InsertedSorted(sorted: seq<Route>, r: Route, k: nat)
    requires Sorted(sorted) && k <= |sorted|
    requires k > 0 ==> !Less(r, sorted[k - 1])
    requires forall j :: k <= j < |sorted| ==> Less(r, sorted[j])
    ensures Sorted(sorted[..k] + [r] + sorted[k..])
  {
    forall i | 0 <= i < k ensures !Less(r, sorted[i]) {
      if i < k - 1 {
        NotLessTransitive(sorted[i], sorted[k - 1], r);
      }
    }
    forall j | k <= j < |sorted| ensures !Less(sorted[j], r) {
      LessTotal(r, sorted[j]);
    }
  }

  /** Stands for the library sort: some sorted arrangement of the same routes. */
  method Sort(routes: seq<Route>) returns (out: seq<Route>)
    ensures Sorted(out) && multiset(out) == multiset(routes)
  {
    out := [];
    for i := 0 to |routes|
      invariant Sorted(out) && multiset(out) == multiset(routes[..i])
    {
      out := Insert(out, routes[i]);
      assert routes[..i + 1] == routes[..i] + [routes[i]];
    }
    assert routes[..|routes|] == routes;
  }
}
