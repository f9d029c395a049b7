/**
 Lineage queries: QueryLineageGraph expands the query artifacts hop by hop along events, within a
 boundary and a node quota. The result is the subgraph of all nodes within reach.
 */
module Lineage {
  import opened Statuses

  datatype Node = ArtifactNode(id: int) | ExecutionNode(id: int)

  datatype Event = Event(artifactId: int, executionId: int, eventType: int)

  /** The boundary conditions, as a predicate on nodes. */
  type Boundary = Node -> bool

  function ArtifactOf(e: Event): Node {
    ArtifactNode(e.artifactId)
  }

  function ExecutionOf(e: Event): Node {
    ExecutionNode(e.executionId)
  }

  /******* The reference *******/

  predicate Linked(g: seq<Event>, m: Node, n: Node) {
    exists e :: e in g && ((ArtifactOf(e) == m && ExecutionOf(e) == n) || (ArtifactOf(e) == n && ExecutionOf(e) == m))
  }

  /** A walk from a query node over events, whose further nodes all lie within the boundary. */
  predicate IsWalk(g: seq<Event>, ok: Boundary, query: set<Node>, walk: seq<Node>) {
    && walk != [] && walk[0] in query
    && (forall i | 0 < i < |walk| :: ok(walk[i]))
    && (forall i | 0 < i < |walk| :: Linked(g, walk[i - 1], walk[i]))
  }

  /** The nodes at most `hops` away from the query nodes. */
  ghost predicate Near(g: seq<Event>, ok: Boundary, query: set<Node>, hops: nat, n: Node) {
    exists walk :: IsWalk(g, ok, query, walk) && |walk| <= hops + 1 && walk[|walk| - 1] == n
  }

  lemma NearQuery(g: seq<Event>, ok: Boundary, query: set<Node>, n: Node)
    ensures Near(g, ok, query, 0, n) <==> n in query
  {
    if n in query { assert IsWalk(g, ok, query, [n]); }
  }

  lemma NearLater(g: seq<Event>, ok: Boundary, query: set<Node>, hops: nat, more: nat, n: Node)
    requires Near(g, ok, query, hops, n) && hops <= more
    ensures Near(g, ok, query, more, n)
  {
  }

  /** One hop more. */
  lemma NearNext(g: seq<Event>, ok: Boundary, query: set<Node>, hops: nat, m: Node, n: Node)
    requires Near(g, ok, query, hops, m) && Linked(g, m, n) && ok(n)
    ensures Near(g, ok, query, hops + 1, n)
  {
    var walk :| IsWalk(g, ok, query, walk) && |walk| <= hops + 1 && walk[|walk| - 1] == m;
    var longer := walk + [n];
    forall i | 0 < i < |longer| ensures Linked(g, longer[i - 1], longer[i]) {
      assert longer[i - 1] == walk[i - 1];
    }
    assert IsWalk(g, ok, query, longer);
  }

  /** What is within one hop more is near already, or one hop from something near. */
  lemma NearLast(g: seq<Event>, ok: Boundary, query: set<Node>, hops: nat, n: Node) returns (m: Node)
    requires Near(g, ok, query, hops + 1, n)
    ensures Near(g, ok, query, hops, n) || (Near(g, ok, query, hops, m) && Linked(g, m, n) && ok(n))
  {
    var walk :| IsWalk(g, ok, query, walk) && |walk| <= hops + 2 && walk[|walk| - 1] == n;
    m := n;
    if |walk| == hops + 2 {
      var shorter := walk[..|walk| - 1];
      m := shorter[|shorter| - 1];
      assert IsWalk(g, ok, query, shorter);
      assert Linked(g, walk[|walk| - 2], walk[|walk| - 1]);
    }
  }

  lemma NearGrows(g: seq<Event>, h: seq<Event>, ok: Boundary, query: set<Node>, hops: nat, n: Node)
    requires Near(g, ok, query, hops, n) && forall e | e in g :: e in h
    ensures Near(h, ok, query, hops, n)
  {
    var walk :| IsWalk(g, ok, query, walk) && |walk| <= hops + 1 && walk[|walk| - 1] == n;
    forall i | 0 < i < |walk| ensures Linked(h, walk[i - 1], walk[i]) { assert Linked(g, walk[i - 1], walk[i]); }
    assert IsWalk(h, ok, query, walk);
  }

  function Filter(g: seq<Event>, p: Event -> bool): seq<Event> {
    if g == [] then [] else (if p(g[0]) then [g[0]] else []) + Filter(g[1..], p)
  }

  lemma FilterMembers(g: seq<Event>, p: Event -> bool)
    ensures forall e :: e in Filter(g, p) <==> e in g && p(e)
  {
  }

  lemma FilterNone(p: Event -> bool)
    ensures Filter([], p) == []
  {
  }

  lemma FilterAppend(g: seq<Event>, e: Event, p: Event -> bool)
    ensures Filter(g + [e], p) == if p(e) then Filter(g, p) + [e] else Filter(g, p)
  {
    if g == [] {
      assert g + [e] == [e];
    } else {
      assert (g + [e])[1..] == g[1..] + [e];
      FilterAppend(g[1..], e, p);
    }
  }

  lemma FilterTwice(g: seq<Event>, p: Event -> bool, q: Event -> bool, both: Event -> bool)
    requires forall e :: both(e) <==> p(e) && q(e)
    ensures Filter(Filter(g, p), q) == Filter(g, both)
  {
    if g != [] {
      FilterTwice(g[1..], p, q, both);
      if p(g[0]) {
        assert Filter(g, p)[1..] == Filter(g[1..], p);
      } else {
        assert Filter(g, p) == Filter(g[1..], p);
      }
    }
  }

  predicate Distinct<T(==)>(s: seq<T>) {
    forall i, j | 0 <= i < j < |s| :: s[i] != s[j]
  }

  /** Both ends of the event are among the nodes. */
  function Within(nodes: set<Node>): Event -> bool {
    e => ArtifactOf(e) in nodes && ExecutionOf(e) in nodes
  }

  /******* Expansion *******/

  /** The end of the event opposite to the given kind of node. */
  function Opposite(e: Event, fromArtifacts: bool): Node {
    if fromArtifacts then ExecutionOf(e) else ArtifactOf(e)
  }

  /** The events of the given nodes. */
  function Touching(inputs: set<Node>, fromArtifacts: bool): Event -> bool {
    e => Opposite(e, !fromArtifacts) in inputs
  }

  function Crossing(inputs: set<Node>, found: set<Node>, fromArtifacts: bool): Event -> bool {
    e => Opposite(e, !fromArtifacts) in inputs && Opposite(e, fromArtifacts) in found
  }

  /** The nodes within the boundary, not seen before, that an event links to an input. */
  function Frontier(g: seq<Event>, inputs: set<Node>, fromArtifacts: bool, ok: Boundary, visited: set<Node>): set<Node> {
    set e | e in g && Opposite(e, !fromArtifacts) in inputs && Opposite(e, fromArtifacts) !in visited && ok(Opposite(e, fromArtifacts)) ::
      Opposite(e, fromArtifacts)
  }

  /** The opposite ends that are new. */
  method Unvisited(events: seq<Event>, fromArtifacts: bool, visited: set<Node>) returns (unvisited: set<Node>)
    ensures unvisited == set e | e in events && Opposite(e, fromArtifacts) !in visited :: Opposite(e, fromArtifacts)
  {
    unvisited := {};
    for i := 0 to |events|
      invariant unvisited == set e | e in events[..i] && Opposite(e, fromArtifacts) !in visited :: Opposite(e, fromArtifacts)
    {
      assert events[..i + 1] == events[..i] + [events[i]];
      if Opposite(events[i], fromArtifacts) !in visited {
        unvisited := unvisited + {Opposite(events[i], fromArtifacts)};
      }
    }
    assert events[..|events|] == events;
  }

  /** Extra nodes are dropped at random. */
  method DropExtra(nodes: set<Node>, max: nat) returns (kept: set<Node>)
    ensures kept <= nodes && |kept| == if |nodes| <= max then |nodes| else max
    ensures |nodes| <= max ==> kept == nodes
  {
    kept := nodes;
    while |kept| > max
      invariant kept <= nodes && (kept == nodes || |kept| >= max)
      invariant |nodes| <= max ==> kept == nodes
      decreases |kept|
    {
      var n :| n in kept;
      kept := kept - {n};
    }
  }

  function Leading(found: set<Node>, fromArtifacts: bool): Event -> bool {
    e => Opposite(e, fromArtifacts) in found
  }

  /** The events that lead to the nodes found. */
  method CollectEvents(events: seq<Event>, found: set<Node>, fromArtifacts: bool) returns (links: seq<Event>)
    ensures links == Filter(events, Leading(found, fromArtifacts))
  {
    hide Filter;
    links := [];
    FilterNone(Leading(found, fromArtifacts));
    for i := 0 to |events|
      invariant links == Filter(events[..i], Leading(found, fromArtifacts))
    {
      FilterAppend(events[..i], events[i], Leading(found, fromArtifacts));
      assert events[..i + 1] == events[..i] + [events[i]];
      if Opposite(events[i], fromArtifacts) in found {
        links := links + [events[i]];
      }
    }
    assert events[..|events|] == events;
  }

  method ToSeq(nodes: set<Node>) returns (s: seq<Node>)
    ensures Elements(s) == nodes && Distinct(s) && |s| == |nodes|
  {
    s := [];
    var todo := nodes;
    while todo != {}
      invariant Elements(s) + todo == nodes && Elements(s) !! todo && Distinct(s) && |s| + |todo| == |nodes|
      decreases |todo|
    {
      var n :| n in todo;
      todo := todo - {n};
      assert n !in Elements(s);
      s := s + [n];
    }
  }

  /**
   What goes wrong in one hop: nothing, the query for events, the one for their paths, the one for nodes
   outside the boundary, or the one for the nodes themselves.
   */
  datatype Answer = Served | NoEvents | NoPaths | NoBoundary(error: Error) | NoNodes(error: Error)

  /** Errors that end the request. */
  predicate Breaks(a: Answer) {
    a.NoBoundary? || a.NoNodes?
  }

  datatype Subgraph = Subgraph(nodes: seq<Node>, events: seq<Event>)

  /**
   ExpandLineageGraphImpl, from artifacts or from executions. When the query for events fails, the error is
   not looked at and no events are found; when only that for their paths fails, the events are found. The
   other queries are not sent for an empty set.
   */
  method Expand(
    g: seq<Event>, inputs: set<Node>, fromArtifacts: bool, maxNodes: nat, ok: Boundary, visited: set<Node>, answer: Answer)
    returns (r: Result<Subgraph>)
    ensures r.Failure? ==> Breaks(answer) && r.error == answer.error
    ensures answer.NoEvents? ==> r == Success(Subgraph([], []))
    ensures r.Success? && !answer.NoEvents? ==>
              var all, found := Frontier(g, inputs, fromArtifacts, ok, visited), r.value.nodes;
              && Distinct(found) && Elements(found) <= all && |found| <= maxNodes
              && (|found| < maxNodes ==> Elements(found) == all)
              && r.value.events == Filter(g, Crossing(inputs, Elements(found), fromArtifacts))
              && (answer.NoNodes? ==> found == []) && (answer.NoBoundary? ==> all == {})
  {
    if answer.NoEvents? {
      return Success(Subgraph([], []));
    }
    var events := Filter(g, Touching(inputs, fromArtifacts));
    var unvisited := Unvisited(events, fromArtifacts, visited);
    if answer.NoBoundary? && unvisited != {} {
      return Failure(answer.error);
    }
    FilterMembers(g, Touching(inputs, fromArtifacts));
    var inside := (set n | n in unvisited && ok(n));
    assert inside == Frontier(g, inputs, fromArtifacts, ok, visited);
    var kept := DropExtra(inside, maxNodes);
    var links := CollectEvents(events, kept, fromArtifacts);
    FilterTwice(g, Touching(inputs, fromArtifacts), Leading(kept, fromArtifacts), Crossing(inputs, kept, fromArtifacts));
    if answer.NoNodes? && kept != {} {
      return Failure(answer.error);
    }
    var found := ToSeq(kept);
    return Success(Subgraph(found, links));
  }

  /******* The traversal *******/

  /** The kind of node at an even or odd distance. */
  predicate OnSide(nodes: set<Node>, artifacts: bool) {
    forall n | n in nodes :: n.ArtifactNode? == artifacts
  }

  /** Everything within the boundary and linked to `done` is in `all`. */
  predicate Closed(g: seq<Event>, ok: Boundary, done: set<Node>, all: set<Node>) {
    forall e | e in g ::
      && (ArtifactOf(e) in done && ok(ExecutionOf(e)) ==> ExecutionOf(e) in all)
      && (ExecutionOf(e) in done && ok(ArtifactOf(e)) ==> ArtifactOf(e) in all)
  }

  /** `nodes` are the nodes within `hops`. */
  ghost predicate IsBall(g: seq<Event>, ok: Boundary, query: set<Node>, hops: nat, nodes: set<Node>) {
    forall n :: n in nodes <==> Near(g, ok, query, hops, n)
  }

  lemma FilterCount(g: seq<Event>, p: Event -> bool)
    requires g != []
    ensures multiset(Filter(g, p)) == (if p(g[0]) then multiset{g[0]} else multiset{}) + multiset(Filter(g[1..], p))
  {
  }

  lemma FilterSplit(g: seq<Event>, p: Event -> bool, q: Event -> bool, r: Event -> bool)
    requires forall e | e in g :: (r(e) <==> p(e) || q(e)) && !(p(e) && q(e))
    ensures multiset(Filter(g, r)) == multiset(Filter(g, p)) + multiset(Filter(g, q))
  {
    if g != [] {
      assert forall e | e in g[1..] :: e in g;
      FilterSplit(g[1..], p, q, r);
      assert g[0] in g;
      FilterCount(g, p);
      FilterCount(g, q);
      FilterCount(g, r);
    }
  }

  /** The invariant of the loop at distance `hops`; `current` was found last and has not been expanded. */
  ghost predicate Traversed(
    g: seq<Event>, ok: Boundary, query: set<Node>, hops: nat, visited: set<Node>, current: set<Node>, links: seq<Event>)
  {
    && OnSide(current, hops % 2 == 0) && visited !! current
    && IsBall(g, ok, query, hops, visited + current) && Closed(g, ok, visited, visited + current)
    && multiset(links) == multiset(Filter(g, Within(visited + current)))
    && (forall n | n in visited + current :: Near(links, ok, query, hops, n))
  }

  /** What a hop that may have been cut short leaves. */
  ghost predicate Extended(g: seq<Event>, ok: Boundary, query: set<Node>, hops: nat, nodes: set<Node>, links: seq<Event>) {
    && (forall n | n in nodes :: Near(g, ok, query, hops, n))
    && multiset(links) == multiset(Filter(g, Within(nodes)))
    && (forall n | n in nodes :: Near(links, ok, query, hops, n))
  }

  /** The events added are those within the larger set of nodes. */
  lemma LinksAdded(
    g: seq<Event>, ok: Boundary, visited: set<Node>, current: set<Node>, fromArtifacts: bool, found: set<Node>)
    requires OnSide(current, fromArtifacts) && Closed(g, ok, visited, visited + current)
    requires found <= Frontier(g, current, fromArtifacts, ok, visited + current)
    ensures multiset(Filter(g, Within(visited + current + found))) ==
            multiset(Filter(g, Within(visited + current))) + multiset(Filter(g, Crossing(current, found, fromArtifacts)))
  {
    forall e | e in g
      ensures Within(visited + current + found)(e) <==> Within(visited + current)(e) || Crossing(current, found, fromArtifacts)(e)
      ensures !(Within(visited + current)(e) && Crossing(current, found, fromArtifacts)(e))
    {
      assert forall n | n in found :: ok(n) && n !in visited + current && n.ArtifactNode? == !fromArtifacts;
    }
    FilterSplit(g, Within(visited + current), Crossing(current, found, fromArtifacts), Within(visited + current + found));
  }

  /** Each found node is one hop further, also in the graph that is returned. */
  lemma FoundNear(
    g: seq<Event>, ok: Boundary, query: set<Node>, hops: nat, nodes: set<Node>, current: set<Node>, fromArtifacts: bool,
    visited: set<Node>, found: set<Node>, n: Node)
    requires forall m | m in nodes :: Near(g, ok, query, hops, m)
    requires current <= nodes && n in found && found <= Frontier(g, current, fromArtifacts, ok, visited)
    ensures Near(g, ok, query, hops + 1, n)
    ensures exists e :: e in Filter(g, Crossing(current, found, fromArtifacts)) && Opposite(e, fromArtifacts) == n
  {
    var e :| e in g && Opposite(e, !fromArtifacts) in current && Opposite(e, fromArtifacts) == n && ok(n);
    assert Linked(g, Opposite(e, !fromArtifacts), n);
    NearNext(g, ok, query, hops, Opposite(e, !fromArtifacts), n);
    FilterMembers(g, Crossing(current, found, fromArtifacts));
  }

  lemma LinksSplit(links: seq<Event>, added: seq<Event>, g: seq<Event>, p: Event -> bool, q: Event -> bool, r: Event -> bool)
    requires multiset(links) == multiset(Filter(g, p)) && added == Filter(g, q)
    requires multiset(Filter(g, r)) == multiset(Filter(g, p)) + multiset(Filter(g, q))
    ensures multiset(links + added) == multiset(Filter(g, r))
  {
  }

  /** A hop, cut short or not. */
  lemma HopExtends(
    g: seq<Event>, ok: Boundary, query: set<Node>, hops: nat, visited: set<Node>, current: set<Node>, links: seq<Event>, found: set<Node>)
    requires Traversed(g, ok, query, hops, visited, current, links)
    requires found <= Frontier(g, current, hops % 2 == 0, ok, visited + current)
    ensures Extended(g, ok, query, hops + 1, visited + current + found, links + Filter(g, Crossing(current, found, hops % 2 == 0)))
  {
    hide Near, Frontier;
    var side, nodes, added := hops % 2 == 0, visited + current, Filter(g, Crossing(current, found, hops % 2 == 0));
    LinksAdded(g, ok, visited, current, side, found);
    LinksSplit(links, added, g, Within(nodes), Crossing(current, found, side), Within(nodes + found));
    forall n | n in nodes + found
      ensures Near(g, ok, query, hops + 1, n) && Near(links + added, ok, query, hops + 1, n)
    {
      if n in nodes {
        NearLater(g, ok, query, hops, hops + 1, n);
        NearGrows(links, links + added, ok, query, hops, n);
        NearLater(links + added, ok, query, hops, hops + 1, n);
      } else {
        FoundNear(g, ok, query, hops, nodes, current, side, nodes, found, n);
        FoundLinked(g, ok, query, hops, nodes, current, side, found, links, n);
      }
    }
  }

  lemma FoundLinked(
    g: seq<Event>, ok: Boundary, query: set<Node>, hops: nat, nodes: set<Node>, current: set<Node>, fromArtifacts: bool,
    found: set<Node>, links: seq<Event>, n: Node)
    requires forall m | m in nodes :: Near(links, ok, query, hops, m)
    requires current <= nodes && n in found && found <= Frontier(g, current, fromArtifacts, ok, nodes)
    ensures Near(links + Filter(g, Crossing(current, found, fromArtifacts)), ok, query, hops + 1, n)
  {
    var added := Filter(g, Crossing(current, found, fromArtifacts));
    var e :| e in g && Opposite(e, !fromArtifacts) in current && Opposite(e, fromArtifacts) == n && ok(n);
    FilterMembers(g, Crossing(current, found, fromArtifacts));
    assert e in links + added && Linked(links + added, Opposite(e, !fromArtifacts), n);
    NearGrows(links, links + added, ok, query, hops, Opposite(e, !fromArtifacts));
    NearNext(links + added, ok, query, hops, Opposite(e, !fromArtifacts), n);
  }

  lemma FrontierCloses(g: seq<Event>, ok: Boundary, visited: set<Node>, current: set<Node>, fromArtifacts: bool)
    requires OnSide(current, fromArtifacts) && Closed(g, ok, visited, visited + current)
    ensures var nodes := visited + current;
            Closed(g, ok, nodes, nodes + Frontier(g, current, fromArtifacts, ok, nodes))
  {
    var nodes := visited + current;
    forall e | e in g
      ensures ArtifactOf(e) in nodes && ok(ExecutionOf(e)) ==> ExecutionOf(e) in nodes + Frontier(g, current, fromArtifacts, ok, nodes)
      ensures ExecutionOf(e) in nodes && ok(ArtifactOf(e)) ==> ArtifactOf(e) in nodes + Frontier(g, current, fromArtifacts, ok, nodes)
    {
    }
  }

  /** If `all` closes the nodes within `hops`, it has every node one hop further. */
  lemma NextWithin(g: seq<Event>, ok: Boundary, query: set<Node>, hops: nat, nodes: set<Node>, all: set<Node>, n: Node)
    requires IsBall(g, ok, query, hops, nodes) && Closed(g, ok, nodes, all) && nodes <= all && Near(g, ok, query, hops + 1, n)
    ensures n in all
  {
    var m := NearLast(g, ok, query, hops, n);
    if !Near(g, ok, query, hops, n) {
      assert m in nodes;
      var e :| e in g && ((ArtifactOf(e) == m && ExecutionOf(e) == n) || (ArtifactOf(e) == n && ExecutionOf(e) == m));
    }
  }

  /** A hop that took in the whole frontier. */
  lemma HopTraverses(
    g: seq<Event>, ok: Boundary, query: set<Node>, hops: nat, visited: set<Node>, current: set<Node>, links: seq<Event>, found: set<Node>)
    requires Traversed(g, ok, query, hops, visited, current, links)
    requires found == Frontier(g, current, hops % 2 == 0, ok, visited + current)
    ensures Traversed(g, ok, query, hops + 1, visited + current, found, links + Filter(g, Crossing(current, found, hops % 2 == 0)))
  {
    hide Frontier, Near, Closed, Filter;
    HopExtends(g, ok, query, hops, visited, current, links, found);
    var nodes := visited + current;
    FrontierCloses(g, ok, visited, current, hops % 2 == 0);
    forall n | Near(g, ok, query, hops + 1, n) ensures n in nodes + found {
      NextWithin(g, ok, query, hops, nodes, nodes + found, n);
    }
    FrontierSide(g, current, hops % 2 == 0, ok, nodes);
  }

  lemma FrontierSide(g: seq<Event>, inputs: set<Node>, fromArtifacts: bool, ok: Boundary, visited: set<Node>)
    ensures OnSide(Frontier(g, inputs, fromArtifacts, ok, visited), !fromArtifacts)
    ensures Frontier(g, inputs, fromArtifacts, ok, visited) !! visited
  {
  }

  /** When a hop finds nothing new, no further hop does. */
  lemma NothingFurther(g: seq<Event>, ok: Boundary, query: set<Node>, hops: nat, more: nat, nodes: set<Node>)
    requires IsBall(g, ok, query, hops, nodes) && Closed(g, ok, nodes, nodes) && hops <= more
    ensures IsBall(g, ok, query, more, nodes)
    decreases more - hops
  {
    if hops < more {
      forall n ensures n in nodes <==> Near(g, ok, query, hops + 1, n) {
        if n in nodes {
          NearLater(g, ok, query, hops, hops + 1, n);
        } else if Near(g, ok, query, hops + 1, n) {
          NextWithin(g, ok, query, hops, nodes, nodes, n);
        }
      }
      NothingFurther(g, ok, query, hops + 1, more, nodes);
    }
  }

  lemma ExtendedLater(g: seq<Event>, ok: Boundary, query: set<Node>, hops: nat, more: nat, nodes: set<Node>, links: seq<Event>)
    requires Extended(g, ok, query, hops, nodes, links) && hops <= more
    ensures Extended(g, ok, query, more, nodes, links)
  {
    hide Near;
    forall n | n in nodes ensures Near(g, ok, query, more, n) && Near(links, ok, query, more, n) {
      NearLater(g, ok, query, hops, more, n);
      NearLater(links, ok, query, hops, more, n);
    }
  }

  lemma Start(g: seq<Event>, ok: Boundary, query: set<Node>)
    requires OnSide(query, true)
    ensures Traversed(g, ok, query, 0, {}, query, []) && Extended(g, ok, query, 0, query, [])
  {
    forall n ensures Near(g, ok, query, 0, n) <==> n in query { NearQuery(g, ok, query, n); }
    forall n ensures Near([], ok, query, 0, n) <==> n in query { NearQuery([], ok, query, n); }
    hide Near;
    assert {} + query == query;
    NoneWithin(g, query);
  }

  lemma NoneWithin(g: seq<Event>, query: set<Node>)
    requires OnSide(query, true)
    ensures Filter(g, Within(query)) == []
  {
    if g != [] { NoneWithin(g[1..], query); }
  }

  const INT64_MAX := 0x7fff_ffff_ffff_ffff

  /** The largest number of nodes that may be returned. */
  function Limit(maxNodes: Option<int>, queried: nat): int {
    if maxNodes.None? then INT64_MAX + queried else maxNodes.value
  }

  lemma AppendDistinct(a: seq<Node>, b: seq<Node>)
    requires Distinct(a) && Distinct(b) && Elements(a) !! Elements(b)
    ensures Distinct(a + b) && Elements(a + b) == Elements(a) + Elements(b)
  {
    forall i, j | 0 <= i < j < |a + b| ensures (a + b)[i] != (a + b)[j] {
      if i < |a| <= j { assert a[i] in Elements(a) && b[j - |a|] in Elements(b); }
    }
  }

  /** The first hop, from `hop` on, whose query for events fails, or else `maxHops`. */
  function Reach(answers: nat -> Answer, hop: nat, maxHops: nat): (r: nat)
    requires hop <= maxHops
    ensures hop <= r <= maxHops && (forall i | hop <= i < r :: !answers(i).NoEvents?) && (r < maxHops ==> answers(r).NoEvents?)
    decreases maxHops - hop
  {
    if hop == maxHops || answers(hop).NoEvents? then hop else Reach(answers, hop + 1, maxHops)
  }

  /**
   QueryLineageGraph fails only with the error of one of its queries. Otherwise it returns each node once:
   all nodes within `maxHops` of the query nodes, or those before the first failing query for events,
   unless the quota is used up; and in any case all events between the nodes returned, which connect every
   node to the query nodes.
   */
  method QueryLineageGraph(
    g: seq<Event>, query: seq<Node>, maxHops: nat, maxNodes: Option<int>, ok: Boundary, answers: nat -> Answer)
    returns (r: Result<Subgraph>)
    requires Distinct(query) && OnSide(Elements(query), true)
    ensures r.Failure? ==> exists i :: 0 <= i < Reach(answers, 0, maxHops) && Breaks(answers(i)) && answers(i).error == r.error
    ensures r.Success? ==>
              var nodes, reach := r.value.nodes, Reach(answers, 0, maxHops);
              && query <= nodes && Distinct(nodes)
              && Extended(g, ok, Elements(query), reach, Elements(nodes), r.value.events)
              && (|nodes| < Limit(maxNodes, |query|) ==> IsBall(g, ok, Elements(query), reach, Elements(nodes)))
              && (|nodes| <= |query| || |nodes| <= Limit(maxNodes, |query|))
  {
    hide Traversed, Extended, IsBall, Frontier, Near, Filter;
    var nodes, links: seq<Event> := query, [];
    var visited, current: set<Node>, distance := {}, Elements(query), 0;
    var quota := Limit(maxNodes, |query|) - |query|;
    ghost var start, reach := Elements(query), Reach(answers, 0, maxHops);
    Start(g, ok, start);
    while distance < maxHops && quota > 0
      invariant distance <= reach && quota == Limit(maxNodes, |query|) - |nodes|
      invariant query <= nodes && Distinct(nodes) && (nodes == query || quota >= 0)
      invariant Elements(nodes) == visited + current
      invariant Extended(g, ok, start, distance, Elements(nodes), links)
      invariant quota > 0 ==> Traversed(g, ok, start, distance, visited, current, links)
      decreases maxHops - distance
    {
      var fromArtifacts := distance % 2 == 0;
      var hop := Expand(g, current, fromArtifacts, quota, ok, visited + current, answers(distance));
      if hop.Failure? {
        return Failure(hop.error);
      }
      var found := hop.value.nodes;
      if found == [] {
        if answers(distance).NoEvents? {
          TraversedBall(g, ok, start, distance, visited, current, links);
        } else {
          Exhausted(g, ok, start, distance, reach, visited, current, links);
        }
        ExtendedLater(g, ok, start, distance, reach, Elements(nodes), links);
        return Success(Subgraph(nodes, links));
      }
      HopExtends(g, ok, start, distance, visited, current, links, Elements(found));
      if |found| < quota { HopTraverses(g, ok, start, distance, visited, current, links, Elements(found)); }
      FrontierSide(g, current, fromArtifacts, ok, visited + current);
      AppendDistinct(nodes, found);
      links := links + hop.value.events;
      nodes := nodes + found;
      visited, current := visited + current, Elements(found);
      quota := quota - |found|;
      distance := distance + 1;
    }
    ExtendedLater(g, ok, start, distance, reach, Elements(nodes), links);
    if quota > 0 { TraversedBall(g, ok, start, distance, visited, current, links); }
    return Success(Subgraph(nodes, links));
  }

  /**
   A graph cut short by a failing query is nevertheless complete if and only if nothing within the
   boundary is linked to its nodes.
   */
  lemma TruncatedExactly(g: seq<Event>, ok: Boundary, query: set<Node>, reach: nat, maxHops: nat, nodes: set<Node>)
    requires reach < maxHops && IsBall(g, ok, query, reach, nodes)
    ensures IsBall(g, ok, query, maxHops, nodes) <==> Closed(g, ok, nodes, nodes)
  {
    hide Near, Linked;
    if Closed(g, ok, nodes, nodes) { NothingFurther(g, ok, query, reach, maxHops, nodes); }
    if IsBall(g, ok, query, maxHops, nodes) {
      forall e | e in g
        ensures ArtifactOf(e) in nodes && ok(ExecutionOf(e)) ==> ExecutionOf(e) in nodes
        ensures ExecutionOf(e) in nodes && ok(ArtifactOf(e)) ==> ArtifactOf(e) in nodes
      {
        NextReached(g, ok, query, reach, maxHops, ArtifactOf(e), ExecutionOf(e), e);
        NextReached(g, ok, query, reach, maxHops, ExecutionOf(e), ArtifactOf(e), e);
      }
    }
  }

  lemma NextReached(g: seq<Event>, ok: Boundary, query: set<Node>, hops: nat, more: nat, m: Node, n: Node, e: Event)
    requires e in g && {m, n} == {ArtifactOf(e), ExecutionOf(e)} && m != n && hops < more
    ensures Near(g, ok, query, hops, m) && ok(n) ==> Near(g, ok, query, more, n)
  {
    if Near(g, ok, query, hops, m) && ok(n) {
      assert n in {ArtifactOf(e), ExecutionOf(e)} && m in {ArtifactOf(e), ExecutionOf(e)};
      assert Linked(g, m, n);
      NearNext(g, ok, query, hops, m, n);
      NearLater(g, ok, query, hops + 1, more, n);
    }
  }

  lemma TraversedBall(
    g: seq<Event>, ok: Boundary, query: set<Node>, hops: nat, visited: set<Node>, current: set<Node>, links: seq<Event>)
    requires Traversed(g, ok, query, hops, visited, current, links)
    ensures IsBall(g, ok, query, hops, visited + current)
  {
  }

  lemma Exhausted(
    g: seq<Event>, ok: Boundary, query: set<Node>, hops: nat, more: nat, visited: set<Node>, current: set<Node>, links: seq<Event>)
    requires Traversed(g, ok, query, hops, visited, current, links) && hops <= more
    requires Frontier(g, current, hops % 2 == 0, ok, visited + current) == {}
    ensures IsBall(g, ok, query, more, visited + current)
  {
    var nodes := visited + current;
    forall e | e in g
      ensures ArtifactOf(e) in nodes && ok(ExecutionOf(e)) ==> ExecutionOf(e) in nodes
      ensures ExecutionOf(e) in nodes && ok(ArtifactOf(e)) ==> ArtifactOf(e) in nodes
    {
      var side := hops % 2 == 0;
      assert Opposite(e, side) !in Frontier(g, current, side, ok, nodes);
    }
    NothingFurther(g, ok, query, hops, more, nodes);
  }

  const MAX_DISTANCE := 20

  function Hops(maxHops: Option<int>): int {
    if maxHops.Some? && maxHops.value < MAX_DISTANCE then maxHops.value else MAX_DISTANCE
  }

  /** The listed artifacts from which the traversal starts. */
  function Queried(listed: seq<Node>, maxNodeSize: int): seq<Node> {
    if 0 < maxNodeSize < |listed| then listed[..maxNodeSize] else listed
  }

  /** GetLineageGraph; `listed` is what its artifacts_options select, if they are given. */
  method GetLineageGraph(
    g: seq<Event>, listed: Option<seq<Node>>, maxHops: Option<int>, maxNodeSize: int, ok: Boundary, answers: nat -> Answer)
    returns (r: Result<Subgraph>)
    requires listed.Some? ==> Distinct(listed.value) && OnSide(Elements(listed.value), true)
    ensures if listed.None? || (maxHops.Some? && maxHops.value < 0) then r == Failure(InvalidArgument)
            else if listed.value == [] then r == Failure(NotFound)
            else r.Failure? ==>
                   exists i :: 0 <= i < Reach(answers, 0, Hops(maxHops)) && Breaks(answers(i)) && answers(i).error == r.error
    ensures r.Success? ==>
              var query, nodes, reach := Queried(listed.value, maxNodeSize), r.value.nodes, Reach(answers, 0, Hops(maxHops));
              && query <= nodes && Distinct(nodes)
              && Extended(g, ok, Elements(query), reach, Elements(nodes), r.value.events)
              && (maxNodeSize > 0 ==> |nodes| <= maxNodeSize)
              && ((maxNodeSize <= 0 && |nodes| < INT64_MAX) || |nodes| < maxNodeSize ==>
                    IsBall(g, ok, Elements(query), reach, Elements(nodes)))
  {
    hide Extended, IsBall;
    if listed.None? {
      return Failure(InvalidArgument);
    }
    var hops := MAX_DISTANCE;
    if maxHops.Some? {
      if maxHops.value < 0 {
        return Failure(InvalidArgument);
      }
      hops := if maxHops.value < hops then maxHops.value else hops;
    }
    if listed.value == [] {
      return Failure(NotFound);
    }
    var query := listed.value;
    if maxNodeSize > 0 && |query| > maxNodeSize {
      query := query[..maxNodeSize];
    }
    assert forall n | n in Elements(query) :: n in Elements(listed.value);
    r := QueryLineageGraph(g, query, hops, if maxNodeSize > 0 then Some(maxNodeSize) else None, ok, answers);
  }
}
