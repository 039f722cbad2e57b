/** Object store routes: recorded per prefix, and looked up by the longest prefix of a path. */
module Routing {
  import opened Wrappers
  import opened RowLists

  datatype Route = Route(prefix: string, store: nat)

  /** A prefix covers a path if it is empty, the whole path, or the path up to some slash. */
  predicate PathHasPrefix(path: string, prefix: string) {
    prefix == "" || path == prefix || (prefix <= path && path[|prefix|..] != "" && path[|prefix|] == '/')
  }

  // ----- whole segments -----

  function Segments(path: string): (segments: seq<string>)
    ensures segments != []
  {
    if path == "" then [""]
    else
      var rest := Segments(path[1..]);
      if path[0] == '/' then [""] + rest else [[path[0]] + rest[0]] + rest[1..]
  }

  lemma {:induction false} SegmentsOfPrefix(prefix: string, path: string)
    ensures Segments(prefix) <= Segments(path) <==>
      (path == prefix || (prefix <= path && path[|prefix|..] != "" && path[|prefix|] == '/'))
    decreases |prefix|
  {
    if prefix == "" {
      if path != "" {
        assert Segments(path)[0] == "" <==> path[0] == '/';
      }
    } else if path == "" {
      assert Segments(prefix)[0] == "" ==> |Segments(prefix)| > 1;
    } else {
      var p, q := Segments(prefix[1..]), Segments(path[1..]);
      SegmentsOfPrefix(prefix[1..], path[1..]);
      SegmentsStep(prefix, path, p, q);
      assert prefix <= path <==> prefix[0] == path[0] && prefix[1..] <= path[1..];
      assert path == prefix <==> prefix[0] == path[0] && prefix[1..] == path[1..];
    }
  }

  lemma SegmentsStep(prefix: string, path: string, p: seq<string>, q: seq<string>)
    requires prefix != "" && path != "" && p == Segments(prefix[1..]) && q == Segments(path[1..])
    ensures Segments(prefix) <= Segments(path) <==> prefix[0] == path[0] && p <= q
  {
    var a, b := Segments(prefix), Segments(path);
    if prefix[0] == '/' && path[0] == '/' {
      assert a == [""] + p && b == [""] + q;
      assert a[1..] == p && b[1..] == q;
    } else if prefix[0] != '/' && path[0] != '/' {
      assert a[0] == [prefix[0]] + p[0] && b[0] == [path[0]] + q[0];
      assert a[1..] == p[1..] && b[1..] == q[1..];
      assert a[0] == b[0] <==> prefix[0] == path[0] && p[0] == q[0] by {
        assert a[0][1..] == p[0] && b[0][1..] == q[0];
      }
      HeadTail(a, b);
      HeadTail(p, q);
    }
  }

  lemma HeadTail(a: seq<string>, b: seq<string>)
    requires a != [] && b != []
    ensures a <= b <==> a[0] == b[0] && a[1..] <= b[1..]
  {
    assert a == [a[0]] + a[1..] && b == [b[0]] + b[1..];
  }

  /** Covering is by whole segments: a non-empty prefix covers exactly the paths whose segments its own begin. */
  lemma WholeSegments(path: string, prefix: string)
    ensures PathHasPrefix(path, prefix) <==> prefix == "" || Segments(prefix) <= Segments(path)
  {
    SegmentsOfPrefix(prefix, path);
  }

  /** Two prefixes of one length that cover the same path are one prefix. */
  lemma SameLengthSame(path: string, a: string, b: string)
    requires PathHasPrefix(path, a) && PathHasPrefix(path, b) && |a| == |b|
    ensures a == b
  {
    assert a == path[..|a|] && b == path[..|b|];
  }

  // ----- the registry -----

  /** The store most recently recorded under a prefix. */
  function Latest(history: seq<Route>, prefix: string): Option<nat> {
    if history == [] then None
    else if history[|history| - 1].prefix == prefix then Some(history[|history| - 1].store)
    else Latest(history[..|history| - 1], prefix)
  }

  /** One route a prefix, the most recent: what the list of routes holds after that history of recordings. */
  ghost predicate Holds(routes: seq<Route>, history: seq<Route>) {
    && (forall i, j | 0 <= i < j < |routes| :: routes[i].prefix != routes[j].prefix)
    && (forall route :: route in routes <==> Latest(history, route.prefix) == Some(route.store))
  }

  function Others(prefix: string): Route -> bool { (route: Route) => route.prefix != prefix }

  lemma {:induction false} FilterDistinct(routes: seq<Route>, prefix: string)
    requires forall i, j | 0 <= i < j < |routes| :: routes[i].prefix != routes[j].prefix
    ensures var kept := Filter(Others(prefix), routes);
      forall i, j | 0 <= i < j < |kept| :: kept[i].prefix != kept[j].prefix
  {
    if routes != [] {
      hide Filter;
      var front, last := routes[..|routes| - 1], routes[|routes| - 1];
      var kept := Filter(Others(prefix), front);
      FilterDistinct(front, prefix);
      FilterKeeps(Others(prefix), front);
      forall i | 0 <= i < |kept| ensures kept[i].prefix != last.prefix {
        assert kept[i] in kept;
        var j :| 0 <= j < |front| && front[j] == kept[i];
        assert routes[j].prefix != routes[|routes| - 1].prefix;
      }
      assert routes == front + [last];
      FilterLast(Others(prefix), front, last);
    }
  }

  lemma RecordHolds(before: seq<Route>, history: seq<Route>, prefix: string, store: nat)
    requires Holds(before, history)
    ensures Holds(Filter(Others(prefix), before) + [Route(prefix, store)], history + [Route(prefix, store)])
  {
    hide Filter;
    var kept, added := Filter(Others(prefix), before), Route(prefix, store);
    FilterDistinct(before, prefix);
    FilterKeeps(Others(prefix), before);
    var longer := history + [added];
    assert longer[..|history|] == history;
    forall i | 0 <= i < |kept| ensures kept[i].prefix != prefix {
      assert kept[i] in kept;
    }
    forall route ensures route in kept + [added] <==> Latest(longer, route.prefix) == Some(route.store) {
      assert route in before <==> Latest(history, route.prefix) == Some(route.store);
    }
  }

  class ObjectStoreRouteRegistry {
    var routes: map<string, seq<Route>>

    constructor ()
      ensures routes == map[]
    {
      routes := map[];
    }

    /** Recording replaces the store of that prefix and leaves the others, and every other URL, as they were. */
    method RecordStore(url: string, prefix: string, store: nat, ghost history: seq<Route>)
      requires Holds(if url in routes then routes[url] else [], history)
      modifies this
      ensures url in routes && Holds(routes[url], history + [Route(prefix, store)])
      ensures forall other | other != url ::
        (other in routes <==> other in old(routes)) && (other in routes ==> routes[other] == old(routes)[other])
    {
      hide Filter, Holds;
      var before := if url in routes then routes[url] else [];
      var kept := Filter(Others(prefix), before);
      RecordHolds(before, history, prefix, store);
      routes := routes[url := kept + [Route(prefix, store)]];
    }
  }

  // ----- the lookup -----

  /** The longest recorded prefix that covers the path, with the store most recently recorded under it. */
  ghost predicate Routed(history: seq<Route>, path: string, found: Option<Route>) {
    match found
    case Some(route) =>
      && PathHasPrefix(path, route.prefix) && Latest(history, route.prefix) == Some(route.store)
      && forall prefix | PathHasPrefix(path, prefix) && Latest(history, prefix).Some? :: |prefix| <= |route.prefix|
    case None => forall prefix | PathHasPrefix(path, prefix) :: Latest(history, prefix).None?
  }

  /** The answer depends on nothing but the latest store of each prefix: not on the order in which different prefixes
      were recorded, nor on what was recorded under a prefix before. */
  lemma OrderIndependent(before: seq<Route>, after: seq<Route>, path: string, a: Option<Route>, b: Option<Route>)
    requires forall prefix :: Latest(before, prefix) == Latest(after, prefix)
    requires Routed(before, path, a) && Routed(after, path, b)
    ensures a == b
  {
    hide Latest, PathHasPrefix;
    if a.Some? && b.Some? {
      SameLengthSame(path, a.value.prefix, b.value.prefix);
    }
  }

  /** Swapping two neighbouring recordings of different prefixes changes no prefix's latest store. */
  lemma {:induction false} SwapKeepsLatest(front: seq<Route>, a: Route, b: Route, rest: seq<Route>, prefix: string)
    requires a.prefix != b.prefix
    ensures Latest(front + [a, b] + rest, prefix) == Latest(front + [b, a] + rest, prefix)
    decreases |rest|
  {
    var x, y := front + [a, b] + rest, front + [b, a] + rest;
    if rest == [] {
      assert x[..|x| - 1] == front + [a] && y[..|y| - 1] == front + [b];
      assert (front + [a])[..|front|] == front && (front + [b])[..|front|] == front;
    } else {
      var n := |rest| - 1;
      assert x[..|x| - 1] == front + [a, b] + rest[..n] && y[..|y| - 1] == front + [b, a] + rest[..n];
      SwapKeepsLatest(front, a, b, rest[..n], prefix);
    }
  }

  function LongestFirst(): (Route, Route) -> bool { (x: Route, y: Route) => |x.prefix| >= |y.prefix| }

  lemma {:induction false} InsertMember<T(!new)>(leq: (T, T) -> bool, x: T, xs: seq<T>)
    ensures forall y :: y in InsertLast(leq, x, xs) <==> y == x || y in xs
  {
    if xs != [] && !leq(xs[|xs| - 1], x) {
      InsertMember(leq, x, xs[..|xs| - 1]);
    }
  }

  lemma {:induction false} SortMembers<T(!new)>(leq: (T, T) -> bool, xs: seq<T>)
    ensures forall y :: y in StableSort(leq, xs) <==> y in xs
  {
    if xs != [] {
      SortMembers(leq, xs[..|xs| - 1]);
      InsertMember(leq, xs[|xs| - 1], StableSort(leq, xs[..|xs| - 1]));
    }
  }

  class PrefixRoutingObjectStore {
    const routes: seq<Route>

    constructor (routes: seq<Route>)
      ensures this.routes == StableSort(LongestFirst(), routes)
    {
      this.routes := StableSort(LongestFirst(), routes);
    }

    /** The first route in the sorted list that covers the path is the one of the longest prefix. */
    method StoreForLocation(path: string, ghost recorded: seq<Route>, ghost history: seq<Route>)
      returns (found: Option<Route>)
      requires routes == StableSort(LongestFirst(), recorded) && Holds(recorded, history)
      ensures Routed(history, path, found)
    {
      hide PathHasPrefix, StableSort, Latest;
      SortSorts(LongestFirst(), recorded);
      SortMembers(LongestFirst(), recorded);
      for i := 0 to |routes|
        invariant forall j | 0 <= j < i :: !PathHasPrefix(path, routes[j].prefix)
      {
        if PathHasPrefix(path, routes[i].prefix) {
          found := Some(routes[i]);
          assert routes[i] in routes;
          forall prefix | PathHasPrefix(path, prefix) && Latest(history, prefix).Some?
            ensures |prefix| <= |routes[i].prefix|
          {
            assert Route(prefix, Latest(history, prefix).value) in routes;
            var j :| 0 <= j < |routes| && routes[j] == Route(prefix, Latest(history, prefix).value);
            assert j > i ==> LongestFirst()(routes[i], routes[j]);
          }
          return;
        }
      }
      found := None;
      forall prefix, store | Latest(history, prefix) == Some(store) ensures !PathHasPrefix(path, prefix) {
        assert Route(prefix, store) in routes;
      }
    }
  }
}
