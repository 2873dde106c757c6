/** The compiled permission table: built from a map in any order, sorted, and searched for the
    first match. */
module RouteGuard {
  import opened RoutePatterns
  import opened Wrappers

  datatype Route = Route(method_: string, path: string, perm: string, re: seq<Piece>)

  /** strings.Cut(key, " ") */
  function Cut(key: string): Option<(string, string)> {
    if key == "" then None
    else if key[0] == ' ' then Some(("", key[1..]))
    else
      match Cut(key[1..])
      case None => None
      case Some(parts) => Some(([key[0]] + parts.0, parts.1))
  }

  lemma {:induction false} CutRestores(key: string)
    ensures Cut(key).Some? <==> ' ' in key
    ensures Cut(key).Some? ==> key == Cut(key).value.0 + " " + Cut(key).value.1
  {
    if key != "" && key[0] != ' ' {
      CutRestores(key[1..]);
      assert key == [key[0]] + key[1..];
    }
  }

  /** strings.Count(path, ":") */
  function Colons(path: string): nat {
    if path == "" then 0 else (if path[0] == ':' then 1 else 0) + Colons(path[1..])
  }

  function Rank(r: Route): nat {
    Colons(r.path)
  }

  function Entry(key: string, perm: string): Route
    requires Cut(key).Some?
  {
    var parts := Cut(key).value;
    Route(parts.0, parts.1, perm, Pattern(parts.1))
  }

  ghost predicate WellFormed(perms: map<string, string>) {
    forall key :: key in perms ==> Cut(key).Some?
  }

  /** The table's keys, each once, in some order. */
  ghost predicate Listing(order: seq<string>, perms: map<string, string>) {
    && (forall key :: key in order <==> key in perms)
    && (forall i, j :: 0 <= i < j < |order| ==> order[i] != order[j])
  }

  function Entries(order: seq<string>, perms: map<string, string>): (out: seq<Route>)
    requires forall i :: 0 <= i < |order| ==> order[i] in perms && Cut(order[i]).Some?
    ensures |out| == |order|
    ensures forall i :: 0 <= i < |order| ==> out[i] == Entry(order[i], perms[order[i]])
  {
    if order == [] then []
    else
      var last := |order| - 1;
      Entries(order[..last], perms) + [Entry(order[last], perms[order[last]])]
  }

  // ---------------------------------------------------------------- the stable sort

  /** x goes after every route that does not rank higher. */
  function Insert(sorted: seq<Route>, x: Route): seq<Route> {
    if sorted == [] || Rank(sorted[|sorted| - 1]) <= Rank(x) then sorted + [x]
    else Insert(sorted[..|sorted| - 1], x) + [sorted[|sorted| - 1]]
  }

  function StableSorted(out: seq<Route>): seq<Route> {
    if out == [] then [] else Insert(StableSorted(out[..|out| - 1]), out[|out| - 1])
  }

  predicate Ascending(routes: seq<Route>) {
    forall i, j :: 0 <= i < j < |routes| ==> Rank(routes[i]) <= Rank(routes[j])
  }

  lemma {:induction false} InsertPermutes(sorted: seq<Route>, x: Route)
    ensures multiset(Insert(sorted, x)) == multiset(sorted) + multiset{x}
  {
    hide Rank;
    var n := |sorted|;
    if !(sorted == [] || Rank(sorted[n - 1]) <= Rank(x)) {
      InsertPermutes(sorted[..n - 1], x);
      assert sorted == sorted[..n - 1] + [sorted[n - 1]];
    }
  }

  lemma {:induction false} AscendingUpTo(routes: seq<Route>, last: Route)
    requires Ascending(routes) && forall r :: r in routes ==> Rank(r) <= Rank(last)
    ensures Ascending(routes + [last])
  {
    hide Rank;
    assert forall i :: 0 <= i < |routes| ==> routes[i] in routes;
  }

  lemma {:induction false} InsertSorts(sorted: seq<Route>, x: Route)
    requires Ascending(sorted)
    ensures Ascending(Insert(sorted, x))
    ensures multiset(Insert(sorted, x)) == multiset(sorted) + multiset{x}
  {
    hide Rank;
    var n := |sorted|;
    InsertPermutes(sorted, x);
    if sorted == [] || Rank(sorted[n - 1]) <= Rank(x) {
      AscendingUpTo(sorted, x);
    } else {
      var front := sorted[..n - 1];
      InsertSorts(front, x);
      hide Ascending;
      RanksBelow(sorted, x);
      AscendingUpTo(Insert(front, x), sorted[n - 1]);
    }
  }

  lemma {:induction false} RanksBelow(sorted: seq<Route>, x: Route)
    requires Ascending(sorted) && sorted != [] && Rank(x) <= Rank(sorted[|sorted| - 1])
    ensures forall r :: r in Insert(sorted[..|sorted| - 1], x) ==> Rank(r) <= Rank(sorted[|sorted| - 1])
  {
    hide Rank, Insert;
    var front := sorted[..|sorted| - 1];
    InsertPermutes(front, x);
    forall r | r in Insert(front, x) ensures Rank(r) <= Rank(sorted[|sorted| - 1]) {
      assert r in multiset(Insert(front, x));
      assert r in multiset(front) || r == x;
      if r in multiset(front) {
        assert r in front;
      }
    }
  }

  lemma {:induction false} StableSortedSorts(out: seq<Route>)
    ensures Ascending(StableSorted(out)) && multiset(StableSorted(out)) == multiset(out)
  {
    if out != [] {
      StableSortedSorts(out[..|out| - 1]);
      InsertSorts(StableSorted(out[..|out| - 1]), out[|out| - 1]);
      assert out == out[..|out| - 1] + [out[|out| - 1]];
    }
  }

  /** compileRoutePermissions; None is its panic on a key without a space. */
  method CompileRoutePermissions(perms: map<string, string>) returns (r: Option<seq<Route>>, ghost order: seq<string>)
    ensures r.Some? <==> WellFormed(perms)
    ensures r.Some? ==> Listing(order, perms) && r.value == StableSorted(Entries(order, perms))
  {
    hide Cut, Entry, StableSorted, Pattern, Entries;
    var rest := perms.Keys;
    var out: seq<Route> := [];
    order := [];
    while rest != {}
      invariant rest <= perms.Keys
      invariant forall key :: key in order <==> key in perms && key !in rest
      invariant forall i, j :: 0 <= i < j < |order| ==> order[i] != order[j]
      invariant forall i :: 0 <= i < |order| ==> order[i] in perms && Cut(order[i]).Some?
      invariant out == Entries(order, perms)
      decreases |rest|
    {
      var key :| key in rest;
      var cut := Cut(key);
      if cut.None? {
        return None, order;
      }
      var re := CompileRoutePattern(cut.value.1);
      var route := Route(cut.value.0, cut.value.1, perms[key], re);
      EntryIs(key, perms[key], route);
      out := out + [route];
      EntriesAppend(order, perms, key);
      order, rest := order + [key], rest - {key};
    }
    return Some(StableSorted(out)), order;
  }

  lemma {:induction false} EntryIs(key: string, perm: string, route: Route)
    requires Cut(key).Some?
    requires route == Route(Cut(key).value.0, Cut(key).value.1, perm, Pattern(Cut(key).value.1))
    ensures route == Entry(key, perm)
  {
  }

  lemma {:induction false} EntriesAppend(order: seq<string>, perms: map<string, string>, key: string)
    requires forall i :: 0 <= i < |order| ==> order[i] in perms && Cut(order[i]).Some?
    requires key in perms && Cut(key).Some?
    ensures Entries(order + [key], perms) == Entries(order, perms) + [Entry(key, perms[key])]
  {
    assert (order + [key])[..|order|] == order;
  }

  // ---------------------------------------------------------------- lookup

  predicate Serves(r: Route, method_: string, path: string) {
    r.method_ == method_ && Match(r.re, path)
  }

  /** The first route that serves the request. */
  function First(routes: seq<Route>, method_: string, path: string): Option<Route> {
    if routes == [] then None
    else
      match First(routes[..|routes| - 1], method_, path)
      case Some(r) => Some(r)
      case None => if Serves(routes[|routes| - 1], method_, path) then Some(routes[|routes| - 1]) else None
  }

  method LookupPermission(routes: seq<Route>, method_: string, path: string) returns (perm: string, ok: bool)
    ensures ok <==> First(routes, method_, path).Some?
    ensures perm == if ok then First(routes, method_, path).value.perm else ""
  {
    hide Match;
    for i := 0 to |routes|
      invariant First(routes[..i], method_, path).None?
    {
      assert routes[..i + 1][..i] == routes[..i];
      if routes[i].method_ == method_ && Match(routes[i].re, path) {
        FirstOfPrefix(routes, i + 1, method_, path);
        return routes[i].perm, true;
      }
    }
    assert routes[..|routes|] == routes;
    return "", false;
  }

  lemma {:induction false} FirstOfPrefix(routes: seq<Route>, n: nat, method_: string, path: string)
    requires n <= |routes| && First(routes[..n], method_, path).Some?
    ensures First(routes, method_, path) == First(routes[..n], method_, path)
    decreases |routes|
  {
    if n == |routes| {
      assert routes[..n] == routes;
    } else {
      var front := routes[..|routes| - 1];
      assert front[..n] == routes[..n];
      FirstOfPrefix(front, n, method_, path);
    }
  }

  /** The first of the routes of least rank that serve the request. */
  function FirstOfLeast(routes: seq<Route>, method_: string, path: string): Option<Route> {
    if routes == [] then None
    else
      var x, best := routes[|routes| - 1], FirstOfLeast(routes[..|routes| - 1], method_, path);
      if Serves(x, method_, path) && (best.None? || Rank(x) < Rank(best.value)) then Some(x) else best
  }

  lemma {:induction false} InsertedLookup(sorted: seq<Route>, x: Route, method_: string, path: string)
    requires Ascending(sorted)
    ensures First(Insert(sorted, x), method_, path) ==
            var best := First(sorted, method_, path);
            if Serves(x, method_, path) && (best.None? || Rank(x) < Rank(best.value)) then Some(x) else best
  {
    hide Serves, Rank;
    var n := |sorted|;
    FirstIsFound(sorted, method_, path);
    if sorted == [] || Rank(sorted[n - 1]) <= Rank(x) {
      assert (sorted + [x])[..n] == sorted;
    } else {
      var front := sorted[..n - 1];
      InsertedLookup(front, x, method_, path);
      FirstIsFound(front, method_, path);
      assert (Insert(front, x) + [sorted[n - 1]])[..|Insert(front, x)|] == Insert(front, x);
    }
  }

  lemma {:induction false} FirstIsFound(routes: seq<Route>, method_: string, path: string)
    ensures First(routes, method_, path).Some? ==>
              First(routes, method_, path).value in routes && Serves(First(routes, method_, path).value, method_, path)
  {
    hide Serves;
    if routes != [] {
      FirstIsFound(routes[..|routes| - 1], method_, path);
    }
  }

  /** Searching the sorted table finds the first entry, in the order the table was listed, among
      those of least rank that serve the request. */
  lemma {:induction false} LookupFindsLeast(out: seq<Route>, method_: string, path: string)
    ensures First(StableSorted(out), method_, path) == FirstOfLeast(out, method_, path)
  {
    hide Serves, Rank, Insert;
    if out != [] {
      var front := out[..|out| - 1];
      LookupFindsLeast(front, method_, path);
      StableSortedSorts(front);
      InsertedLookup(StableSorted(front), out[|out| - 1], method_, path);
    }
  }

  // ---------------------------------------------------------------- what a request gets

  ghost predicate Candidate(perms: map<string, string>, key: string, method_: string, path: string) {
    key in perms && Cut(key).Some? && Serves(Entry(key, perms[key]), method_, path)
  }

  function KeyRank(key: string): nat
    requires Cut(key).Some?
  {
    Colons(Cut(key).value.1)
  }

  /** A candidate with as few colons as any. */
  ghost predicate Least(perms: map<string, string>, key: string, method_: string, path: string) {
    && Candidate(perms, key, method_, path)
    && forall other :: Candidate(perms, other, method_, path) ==> KeyRank(key) <= KeyRank(other)
  }

  /** The permission a request gets from a table listed in this order; None is a refusal. */
  function Permission(perms: map<string, string>, order: seq<string>, method_: string, path: string): Option<string>
    requires forall i :: 0 <= i < |order| ==> order[i] in perms && Cut(order[i]).Some?
  {
    match First(StableSorted(Entries(order, perms)), method_, path)
    case None => None
    case Some(r) => Some(r.perm)
  }

  lemma {:induction false} LeastIsFound(routes: seq<Route>, method_: string, path: string)
    ensures FirstOfLeast(routes, method_, path).None? <==>
              forall i :: 0 <= i < |routes| ==> !Serves(routes[i], method_, path)
    ensures FirstOfLeast(routes, method_, path).Some? ==>
              var best := FirstOfLeast(routes, method_, path).value;
              && best in routes && Serves(best, method_, path)
              && forall i :: 0 <= i < |routes| && Serves(routes[i], method_, path) ==> Rank(best) <= Rank(routes[i])
  {
    hide Serves, Rank;
    if routes != [] {
      var last := |routes| - 1;
      LeastIsFound(routes[..last], method_, path);
      assert forall i :: 0 <= i < last ==> routes[..last][i] == routes[i];
    }
  }

  lemma {:induction false} EntryHolds(key: string, perm: string)
    requires Cut(key).Some?
    ensures Entry(key, perm).perm == perm
  {
  }

  lemma {:induction false} RankOfEntry(key: string, perm: string)
    requires Cut(key).Some?
    ensures Rank(Entry(key, perm)) == KeyRank(key)
  {
  }

  /** A request gets the permission of a candidate with the fewest colons, and is refused only
      when there is no candidate: whatever order the map was walked in. */
  lemma {:induction false} LookupIsLeast(perms: map<string, string>, order: seq<string>, method_: string, path: string)
    requires WellFormed(perms) && Listing(order, perms)
    ensures Permission(perms, order, method_, path).None? <==> forall key :: !Candidate(perms, key, method_, path)
    ensures Permission(perms, order, method_, path).Some? ==>
              exists key :: Least(perms, key, method_, path) && Permission(perms, order, method_, path).value == perms[key]
  {
    hide Serves, Cut, Colons, Match, Pattern, FirstOfLeast, StableSorted, First, Entries, Entry, Rank, KeyRank;
    var out := Entries(order, perms);
    LookupFindsLeast(out, method_, path);
    LeastIsFound(out, method_, path);
    forall key | Candidate(perms, key, method_, path)
      ensures Entry(key, perms[key]) in out && Rank(Entry(key, perms[key])) == KeyRank(key)
    {
      var i :| 0 <= i < |order| && order[i] == key;
      assert out[i] == Entry(key, perms[key]);
      RankOfEntry(key, perms[key]);
    }
    if FirstOfLeast(out, method_, path).Some? {
      var i :| 0 <= i < |out| && out[i] == FirstOfLeast(out, method_, path).value;
      assert out[i] == Entry(order[i], perms[order[i]]);
      EntryHolds(order[i], perms[order[i]]);
      assert Least(perms, order[i], method_, path);
    }
  }

  lemma {:induction false} CutOf(a: string, b: string)
    requires ' ' !in a
    ensures Cut(a + " " + b) == Some((a, b))
    decreases |a|
  {
    var s := a + " " + b;
    if a == "" {
      assert s[1..] == b;
    } else {
      CutOf(a[1..], b);
      assert s[1..] == a[1..] + " " + b;
      assert a == [a[0]] + a[1..];
    }
  }

  /** A key is a candidate for a request exactly when it is the request's method, a space and a
      pattern of its path. */
  lemma {:induction false} CandidateExactly(
      perms: map<string, string>, method_: string, pattern: string, path: string)
    requires ' ' !in method_ && method_ + " " + pattern in perms
    ensures forall other: string :: ' ' !in other ==>
              (Candidate(perms, method_ + " " + pattern, other, path) <==> other == method_ && Match(Pattern(pattern), path))
  {
    CutOf(method_, pattern);
    hide Match, Pattern, Cut;
  }

  /** The rank counts the colons. */
  lemma {:induction false} ColonsAreCounted(path: string)
    ensures Colons(path) == multiset(path)[':']
  {
    if path != "" {
      ColonsAreCounted(path[1..]);
      assert path == [path[0]] + path[1..];
    }
  }

  lemma {:induction false} RanksAreColons(key: string, pattern: string)
    requires Cut(key).Some? && Cut(key).value.1 == pattern
    ensures KeyRank(key) == Colons(pattern)
  {
  }

  /** Who gets in: the request gets the permission of a key that is its method and a pattern of its
      path, none of which has fewer colons; it is refused exactly when there is no such key. */
  lemma {:induction false} LookupInWords(perms: map<string, string>, order: seq<string>, method_: string, path: string)
    requires WellFormed(perms) && Listing(order, perms) && ' ' !in method_
    ensures Permission(perms, order, method_, path).None? <==>
              forall pattern :: method_ + " " + pattern in perms ==> !Match(Pattern(pattern), path)
    ensures Permission(perms, order, method_, path).Some? ==>
              exists pattern ::
                && method_ + " " + pattern in perms && Match(Pattern(pattern), path)
                && Permission(perms, order, method_, path).value == perms[method_ + " " + pattern]
                && forall other :: method_ + " " + other in perms && Match(Pattern(other), path) ==>
                                     multiset(pattern)[':'] <= multiset(other)[':']
  {
    hide Match, Pattern, Cut, Colons, Permission;
    LookupIsLeast(perms, order, method_, path);
    forall pattern | method_ + " " + pattern in perms
      ensures Candidate(perms, method_ + " " + pattern, method_, path) <==> Match(Pattern(pattern), path)
      ensures Cut(method_ + " " + pattern) == Some((method_, pattern))
    {
      CutOf(method_, pattern);
      CandidateExactly(perms, method_, pattern, path);
    }
    if key :| Candidate(perms, key, method_, path) {
      var pattern := CandidateKey(perms, key, method_, path);
    }
    if Permission(perms, order, method_, path).Some? {
      var key :| Least(perms, key, method_, path) && Permission(perms, order, method_, path).value == perms[key];
      var pattern := CandidateKey(perms, key, method_, path);
      forall other | method_ + " " + other in perms && Match(Pattern(other), path)
        ensures multiset(pattern)[':'] <= multiset(other)[':']
      {
        CutOf(method_, other);
        assert Candidate(perms, method_ + " " + other, method_, path);
        assert KeyRank(key) <= KeyRank(method_ + " " + other);
        RanksAreColons(key, pattern);
        RanksAreColons(method_ + " " + other, other);
        ColonsAreCounted(pattern);
        ColonsAreCounted(other);
      }
    }
  }

  lemma {:induction false} CandidateKey(perms: map<string, string>, key: string, method_: string, path: string)
      returns (pattern: string)
    requires Candidate(perms, key, method_, path)
    ensures key == method_ + " " + pattern && Cut(key) == Some((method_, pattern)) && Match(Pattern(pattern), path)
  {
    hide Match, Pattern;
    CutRestores(key);
    pattern := Cut(key).value.1;
  }

  // ---------------------------------------------------------------- independence of the order

  ghost predicate OrderFree(perms: map<string, string>, method_: string, path: string)
    requires WellFormed(perms)
  {
    forall one, other :: Listing(one, perms) && Listing(other, perms) ==>
                           Permission(perms, one, method_, path) == Permission(perms, other, method_, path)
  }

  /** The candidates of least rank all require one permission. */
  ghost predicate LeastAgree(perms: map<string, string>, method_: string, path: string) {
    forall a, b :: Least(perms, a, method_, path) && Least(perms, b, method_, path) ==> perms[a] == perms[b]
  }

  ghost function Listed(keys: set<string>): (order: seq<string>)
    ensures forall key :: key in order <==> key in keys
    ensures forall i, j :: 0 <= i < j < |order| ==> order[i] != order[j]
  {
    if keys == {} then []
    else
      var key :| key in keys;
      Listed(keys - {key}) + [key]
  }

  lemma {:induction false} ListedFirstWins(
      perms: map<string, string>, order: seq<string>, method_: string, path: string)
    requires WellFormed(perms) && order != []
    requires forall i :: 0 <= i < |order| ==> order[i] in perms && Cut(order[i]).Some?
    requires Least(perms, order[0], method_, path)
    ensures FirstOfLeast(Entries(order, perms), method_, path) == Some(Entry(order[0], perms[order[0]]))
    decreases |order|
  {
    hide Serves, Cut, Colons, Match, Pattern;
    var last := |order| - 1;
    var front := order[..last];
    assert order == front + [order[last]];
    EntriesAppend(front, perms, order[last]);
    assert Entries(order, perms)[..last] == Entries(front, perms);
    if last > 0 {
      ListedFirstWins(perms, front, method_, path);
      var x := Entry(order[last], perms[order[last]]);
      assert Rank(x) == KeyRank(order[last]) && Rank(Entry(order[0], perms[order[0]])) == KeyRank(order[0]);
      if Serves(x, method_, path) {
        assert Candidate(perms, order[last], method_, path);
      }
    } else {
      assert Entries(front, perms) == [];
    }
  }

  /** Some order makes a given least candidate win. */
  lemma {:induction false} LeastCanWin(perms: map<string, string>, key: string, method_: string, path: string)
    returns (order: seq<string>)
    requires WellFormed(perms) && Least(perms, key, method_, path)
    ensures Listing(order, perms) && Permission(perms, order, method_, path) == Some(perms[key])
  {
    hide Serves, Cut, Colons, Match, Pattern, FirstOfLeast, StableSorted, First, Entries;
    var others := Listed(perms.Keys - {key});
    order := [key] + others;
    assert forall i :: 0 <= i < |others| ==> others[i] in others;
    ListedFirstWins(perms, order, method_, path);
    LookupFindsLeast(Entries(order, perms), method_, path);
  }

  /** The answer to a request does not depend on Go's map order if and only if the candidates of
      least rank require one permission. */
  lemma {:induction false} OrderFreeExactly(perms: map<string, string>, method_: string, path: string)
    requires WellFormed(perms)
    ensures OrderFree(perms, method_, path) <==> LeastAgree(perms, method_, path)
  {
    hide Serves, Cut, Colons, Match, Pattern, Permission;
    if OrderFree(perms, method_, path) {
      forall a, b | Least(perms, a, method_, path) && Least(perms, b, method_, path) ensures perms[a] == perms[b] {
        var one := LeastCanWin(perms, a, method_, path);
        var other := LeastCanWin(perms, b, method_, path);
      }
    }
    if LeastAgree(perms, method_, path) {
      forall one, other | Listing(one, perms) && Listing(other, perms)
        ensures Permission(perms, one, method_, path) == Permission(perms, other, method_, path)
      {
        LookupIsLeast(perms, one, method_, path);
        LookupIsLeast(perms, other, method_, path);
      }
    }
  }

  /** Different keys of one method and one number of colons have patterns that do not overlap. */
  ghost predicate RanksDoNotOverlap(perms: map<string, string>)
    requires WellFormed(perms)
  {
    forall a, b :: a in perms && b in perms && a != b && Cut(a).value.0 == Cut(b).value.0 && KeyRank(a) == KeyRank(b) ==>
                     !Overlap(Cut(a).value.1, Cut(b).value.1)
  }

  /** A table whose equal-rank entries do not overlap answers every request alike in every order. */
  lemma {:induction false} NoOverlapIsOrderFree(perms: map<string, string>, method_: string, path: string)
    requires WellFormed(perms) && RanksDoNotOverlap(perms)
    ensures OrderFree(perms, method_, path)
  {
    hide Cut, Colons, Match, Pattern, OrderFree;
    forall a, b | Least(perms, a, method_, path) && Least(perms, b, method_, path) ensures perms[a] == perms[b] {
      assert KeyRank(a) == KeyRank(b);
      assert Match(Pattern(Cut(a).value.1), path) && Match(Pattern(Cut(b).value.1), path);
    }
    OrderFreeExactly(perms, method_, path);
  }
}
