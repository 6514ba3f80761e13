/** Reachability of artifacts from the garbage-collection roots: the worklist of
    `_rooted_ids`, against the set of artifacts a provenance path leads to. */
module ArtifactRoots {
  import opened Listings

  type Id = nat

  /** What an artifact was derived from; an artifact without an entry has no sources. */
  type Edges = map<Id, seq<Id>>

  function Sources(edges: Edges, x: Id): seq<Id> {
    if x in edges then edges[x] else []
  }

  /** `p` leads from a direct root to its last element along provenance edges. */
  ghost predicate IsPath(edges: Edges, direct: set<Id>, p: seq<Id>) {
    && |p| > 0
    && p[0] in direct
    && forall i :: 0 <= i < |p| - 1 ==> p[i + 1] in Sources(edges, p[i])
  }

  ghost predicate Reachable(edges: Edges, direct: set<Id>, x: Id) {
    exists p :: IsPath(edges, direct, p) && p[|p| - 1] == x
  }

  ghost predicate Closed(edges: Edges, s: set<Id>) {
    forall x, y :: x in s && y in Sources(edges, x) ==> y in s
  }

  /** Everything an id set can grow to: the roots and every edge target. */
  ghost function Universe(edges: Edges, direct: set<Id>): set<Id> {
    direct + set x, y | x in edges && y in edges[x] :: y
  }

  /** The artifacts that a collection must spare. */
  ghost function Rooted(edges: Edges, direct: set<Id>): (r: set<Id>)
    ensures forall x :: x in r <==> Reachable(edges, direct, x)
  {
    UniverseCoversReachable(edges, direct);
    set x | x in Universe(edges, direct) && Reachable(edges, direct, x)
  }

  lemma UniverseCoversReachable(edges: Edges, direct: set<Id>)
    ensures forall x :: Reachable(edges, direct, x) ==> x in Universe(edges, direct)
  {
    forall x | Reachable(edges, direct, x)
      ensures x in Universe(edges, direct)
    {
      var p :| IsPath(edges, direct, p) && p[|p| - 1] == x;
      if |p| > 1 {
        assert p[|p| - 2 + 1] in Sources(edges, p[|p| - 2]);
      }
    }
  }

  /** Reachable sets are closed: a path extends along every edge of its last element. */
  lemma RootedIsClosed(edges: Edges, direct: set<Id>)
    ensures direct <= Rooted(edges, direct)
    ensures Closed(edges, Rooted(edges, direct))
  {
    forall x | x in direct
      ensures Reachable(edges, direct, x)
    {
      assert IsPath(edges, direct, [x]);
    }
    forall x, y | x in Rooted(edges, direct) && y in Sources(edges, x)
      ensures Reachable(edges, direct, y)
    {
      var p :| IsPath(edges, direct, p) && p[|p| - 1] == x;
      assert IsPath(edges, direct, p + [y]);
      assert (p + [y])[|p + [y]| - 1] == y;
    }
  }

  /** A closed set that holds the roots holds every element of every path. */
  lemma {:induction false} PathStaysInside(edges: Edges, direct: set<Id>, p: seq<Id>, s: set<Id>, i: nat)
    requires IsPath(edges, direct, p)
    requires direct <= s && Closed(edges, s)
    requires i < |p|
    ensures p[i] in s
  {
    if i > 0 {
      PathStaysInside(edges, direct, p, s, i - 1);
      assert p[i - 1 + 1] in Sources(edges, p[i - 1]);
    }
  }

  /** The rooted set is the least closed superset of the roots. */
  lemma RootedIsLeast(edges: Edges, direct: set<Id>, s: set<Id>)
    requires direct <= s && Closed(edges, s)
    ensures Rooted(edges, direct) <= s
  {
    forall x | x in Rooted(edges, direct)
      ensures x in s
    {
      var p :| IsPath(edges, direct, p) && p[|p| - 1] == x;
      PathStaysInside(edges, direct, p, s, |p| - 1);
    }
  }

  /** More roots never root fewer artifacts. */
  lemma RootedMonotone(edges: Edges, direct: set<Id>, more: set<Id>)
    requires direct <= more
    ensures Rooted(edges, direct) <= Rooted(edges, more)
  {
    RootedIsClosed(edges, more);
    RootedIsLeast(edges, direct, Rooted(edges, more));
  }

  /** What the worklist keeps: only reachable ids are rooted, and a rooted id that is no
      longer pending has had its sources rooted. */
  ghost predicate Progress(edges: Edges, direct: set<Id>, rooted: set<Id>, pending: seq<Id>) {
    && direct <= rooted <= Rooted(edges, direct)
    && (forall x :: x in pending ==> x in rooted)
    && forall x, y :: x in rooted && x !in pending && y in Sources(edges, x) ==> y in rooted
  }

  /** The inner loop: root the sources of one popped artifact. */
  method AddSources(sources: seq<Id>, rooted: set<Id>, pending: seq<Id>) returns (rooted': set<Id>, pending': seq<Id>)
    ensures rooted' == rooted + set y | y in sources
    ensures forall x :: x in pending' <==> x in pending || (x in sources && x !in rooted)
    ensures rooted' == rooted ==> pending' == pending
  {
    rooted', pending' := rooted, pending;
    for i := 0 to |sources|
      invariant rooted' == rooted + set y | y in sources[..i]
      invariant forall x :: x in pending' <==> x in pending || (x in sources[..i] && x !in rooted)
      invariant rooted' == rooted ==> pending' == pending
    {
      assert sources[..i + 1] == sources[..i] + [sources[i]];
      if sources[i] !in rooted' {
        rooted' := rooted' + {sources[i]};
        pending' := pending' + [sources[i]];
      }
    }
    assert sources[..|sources|] == sources;
  }

  lemma ProgressKept(
    edges: Edges, direct: set<Id>, rooted: set<Id>, pending: seq<Id>, x: Id, rooted': set<Id>, pending': seq<Id>)
    requires Progress(edges, direct, rooted, pending + [x])
    requires rooted' == rooted + set y | y in Sources(edges, x)
    requires forall z :: z in pending' <==> z in pending || (z in Sources(edges, x) && z !in rooted)
    ensures Progress(edges, direct, rooted', pending')
  {
    assert x in pending + [x];
    RootedIsClosed(edges, direct);
    forall z, y | z in rooted' && z !in pending' && y in Sources(edges, z)
      ensures y in rooted'
    {
      if z != x {
        assert z in rooted && z !in pending + [x];
      }
    }
  }

  /** The worklist loop; `pending` is the Python list, popped from its end. It stops on
      every finite edge map, cycles included, with exactly the reachable artifacts. */
  method RootedIds(edges: Edges, roots: set<Id>) returns (rooted: set<Id>)
    ensures rooted == Rooted(edges, roots)
  {
    rooted := roots;
    var pending := Listing(roots);
    RootedIsClosed(edges, roots);
    while pending != []
      invariant Progress(edges, roots, rooted, pending)
      decreases Rooted(edges, roots) - rooted, |pending|
    {
      var artifactId := pending[|pending| - 1];
      ghost var before := rooted;
      var popped := pending[..|pending| - 1];
      assert pending == popped + [artifactId];
      rooted, pending := AddSources(Sources(edges, artifactId), rooted, popped);
      ProgressKept(edges, roots, before, popped, artifactId, rooted, pending);
      if rooted != before {
        ghost var added :| added in rooted && added !in before;
        assert added in Rooted(edges, roots) - before && added !in Rooted(edges, roots) - rooted;
      }
    }
    RootedIsLeast(edges, roots, rooted);
  }
}
