/**
 CheckCyClicDependency: before a parent link between types or contexts is stored, a depth-first
 search from the parent looks for the child among its ancestors.
 */
module Cycles {
  import opened Statuses

  /** (child, parent) pairs, as in the ParentType and ParentContext tables. */
  type Links = set<(int, int)>

  /** `path` follows parent links from `a` to `b`. */
  predicate IsPath(links: Links, path: seq<int>, a: int, b: int) {
    && path != [] && path[0] == a && path[|path| - 1] == b
    && forall i | 0 <= i < |path| - 1 :: (path[i], path[i + 1]) in links
  }

  /** `b` is `a` or an ancestor of `a`. */
  ghost predicate Reaches(links: Links, a: int, b: int) {
    exists path :: IsPath(links, path, a, b)
  }

  /** No node is its own proper ancestor. */
  ghost predicate Acyclic(links: Links) {
    forall l | l in links :: !Reaches(links, l.1, l.0)
  }

  lemma ReachesSelf(links: Links, a: int)
    ensures Reaches(links, a, a)
  {
    assert IsPath(links, [a], a, a);
  }

  lemma ReachesStep(links: Links, a: int, b: int, c: int)
    requires Reaches(links, a, b) && (b, c) in links
    ensures Reaches(links, a, c)
  {
    var path :| IsPath(links, path, a, b);
    assert IsPath(links, path + [c], a, c);
  }

  /** Anything reached from inside a set that is closed under parents lies inside it. */
  lemma ClosedContains(links: Links, inside: set<int>, path: seq<int>, a: int, b: int)
    requires a in inside && IsPath(links, path, a, b)
    requires forall l | l in links && l.0 in inside :: l.1 in inside
    ensures b in inside
    decreases |path|
  {
    if |path| > 1 {
      assert (path[0], path[1]) in links;
      ClosedContains(links, inside, path[1..], path[1], b);
    }
  }

  /** AddAncestors: the parents of a node, in some order. */
  method Parents(links: Links, x: int) returns (parents: seq<int>)
    ensures forall y :: y in parents <==> (x, y) in links
  {
    parents := [];
    var todo := set l | l in links && l.0 == x;
    while todo != {}
      invariant todo <= links && forall l | l in todo :: l.0 == x
      invariant forall y :: (x, y) in links <==> y in parents || (x, y) in todo
      decreases todo
    {
      var l :| l in todo;
      parents := parents + [l.1];
      todo := todo - {l};
    }
  }

  /** The search reports a cycle exactly when the child is the parent or one of its ancestors. */
  method CheckCyclicDependency(links: Links, child: int, parent: int) returns (status: Status)
    ensures status == if Reaches(links, parent, child) then InvalidArgument else Ok
  {
    var stack := [parent];
    var visited: set<int> := {};
    ghost var nodes := {parent} + set l | l in links :: l.1;
    ReachesSelf(links, parent);
    while stack != []
      invariant forall x | x in stack :: x in nodes && Reaches(links, parent, x)
      invariant visited <= nodes && child !in visited
      invariant forall x | x in visited :: Reaches(links, parent, x)
      invariant parent in visited || parent in stack
      invariant forall l | l in links && l.0 in visited :: l.1 in visited || l.1 in stack
      decreases nodes - visited, |stack|
    {
      var top := stack[|stack| - 1];
      if top == child {
        return InvalidArgument;
      }
      ghost var before := stack;
      stack := stack[..|stack| - 1];
      assert forall x :: x in before <==> x in stack || x == top;
      if top !in visited {
        assert nodes - (visited + {top}) < nodes - visited by { assert top in nodes - visited; }
        visited := visited + {top};
        var parents := Parents(links, top);
        forall x | x in parents ensures x in nodes && Reaches(links, parent, x) {
          assert (top, x) in links;
          ReachesStep(links, parent, top, x);
        }
        stack := stack + parents;
      }
    }
    if Reaches(links, parent, child) {
      var path :| IsPath(links, path, parent, child);
      ClosedContains(links, visited, path, parent, child);
    }
    return Ok;
  }

  /** A path that uses the new link reaches the new link's child without it. */
  lemma PathWithout(links: Links, child: int, parent: int, path: seq<int>, a: int, b: int)
    requires IsPath(links + {(child, parent)}, path, a, b)
    ensures Reaches(links, a, b) || (Reaches(links, a, child) && Reaches(links, parent, b))
    decreases |path|
  {
    if |path| == 1 {
      ReachesSelf(links, a);
    } else {
      var init := path[..|path| - 1];
      var before := init[|init| - 1];
      assert IsPath(links + {(child, parent)}, init, a, before);
      PathWithout(links, child, parent, init, a, before);
      assert (before, b) in links + {(child, parent)};
      if (before, b) in links {
        if Reaches(links, a, before) { ReachesStep(links, a, before, b); }
        if Reaches(links, parent, before) { ReachesStep(links, parent, before, b); }
      } else {
        ReachesSelf(links, parent);
      }
    }
  }

  lemma ReachesMore(links: Links, more: Links, a: int, b: int)
    requires links <= more && Reaches(links, a, b)
    ensures Reaches(more, a, b)
  {
    var path :| IsPath(links, path, a, b);
    assert IsPath(more, path, a, b);
  }

  lemma ReachesTransitive(links: Links, a: int, b: int, c: int)
    requires Reaches(links, a, b) && Reaches(links, b, c)
    ensures Reaches(links, a, c)
  {
    var p :| IsPath(links, p, a, b);
    var q :| IsPath(links, q, b, c);
    var path := p + q[1..];
    forall i | 0 <= i < |path| - 1 ensures (path[i], path[i + 1]) in links {
      if i >= |p| - 1 { assert path[i] == q[i - |p| + 1] && path[i + 1] == q[i - |p| + 2]; }
    }
    assert IsPath(links, path, a, c);
  }

  /** Storing a link keeps the links acyclic exactly when the search reports none. */
  lemma LinkKeepsAcyclic(links: Links, child: int, parent: int)
    requires Acyclic(links)
    ensures Acyclic(links + {(child, parent)}) <==> !Reaches(links, parent, child)
  {
    var more := links + {(child, parent)};
    if Reaches(links, parent, child) {
      ReachesMore(links, more, parent, child);
      assert (child, parent) in more;
    } else {
      forall l | l in more ensures !Reaches(more, l.1, l.0) {
        if Reaches(more, l.1, l.0) {
          var path :| IsPath(more, path, l.1, l.0);
          PathWithout(links, child, parent, path, l.1, l.0);
          if l in links && Reaches(links, l.1, child) && Reaches(links, parent, l.0) {
            ReachesStep(links, parent, l.0, l.1);
            ReachesTransitive(links, parent, l.1, child);
          }
        }
      }
    }
  }

  /** CreateParentContext, as far as the links are concerned. */
  ghost function StoreLink(links: Links, l: (int, int)): Links {
    if Reaches(links, l.1, l.0) then links else links + {l}
  }

  ghost function StoreLinks(links: Links, requests: seq<(int, int)>): Links
    decreases |requests|
  {
    if requests == [] then links else StoreLinks(StoreLink(links, requests[0]), requests[1..])
  }

  /** Whatever links are requested, in whatever order, the stored ones never form a cycle. */
  lemma StoredLinksAcyclic(links: Links, requests: seq<(int, int)>)
    requires Acyclic(links)
    ensures Acyclic(StoreLinks(links, requests))
    decreases |requests|
  {
    if requests != [] {
      LinkKeepsAcyclic(links, requests[0].0, requests[0].1);
      StoredLinksAcyclic(StoreLink(links, requests[0]), requests[1..]);
    }
  }
}
