/** What any archive that is restored leaves: a tree of its own members, within the bound, and nothing outside. */
module ProfileRestores {
  import opened Outcomes
  import opened ProfileArchive

  /** Every path is below directories of the tree and never leads upwards. */
  ghost predicate Enclosed(tree: Tree) {
    && [] in tree && tree[[]] == Directory
    && forall q :: q in tree && q != [] ==>
         && ".." !in q && q[..|q| - 1] in tree && tree[q[..|q| - 1]] == Directory
  }

  ghost predicate Extends(tree: Tree, tree': Tree) { forall q :: q in tree ==> q in tree' && tree'[q] == tree[q] }

  /** What is new are directories on the way to `path`. */
  ghost predicate OnlyDirectoriesTo(tree: Tree, tree': Tree, path: Path) {
    forall q :: q in tree' && q !in tree ==> q <= path && q != [] && tree'[q] == Directory
  }

  lemma {:induction false} DirectoriesAreMade(tree: Tree, path: Path, n: nat)
    requires n <= |path| && Enclosed(tree) && ".." !in path && MakeDirectories(tree, path, n).Ok?
    ensures var made := MakeDirectories(tree, path, n).value;
            && Extends(tree, made) && OnlyDirectoriesTo(tree, made, path[..n]) && Enclosed(made)
            && path[..n] in made && made[path[..n]] == Directory
  {
    if n > 0 {
      DirectoriesAreMade(tree, path, n - 1);
      var before, made := MakeDirectories(tree, path, n - 1).value, MakeDirectories(tree, path, n).value;
      assert path[..n][..n - 1] == path[..n - 1];
      assert path[..n - 1] <= path[..n];
      forall q | q in made && q != []
        ensures ".." !in q && q[..|q| - 1] in made && made[q[..|q| - 1]] == Directory
      {
        if q == path[..n] { assert forall i :: 0 <= i < n ==> path[..n][i] == path[i]; }
      }
    }
  }

  /** The member is there as it was archived, and what else is new are directories above it. */
  ghost predicate Holds(tree: Tree, tree': Tree, m: Member) {
    && m.path in tree' && tree'[m.path] == (if m.content == None then Directory else Regular(m.content.value))
    && Extends(tree, tree')
    && forall q :: q in tree' && q !in tree ==> q <= m.path && (q != m.path ==> tree'[q] == Directory)
  }

  function MemberBytes(m: Member): nat { if m.content == None then 0 else |m.content.value| }

  function ArchiveBytes(ms: seq<Member>): nat { if ms == [] then 0 else MemberBytes(ms[0]) + ArchiveBytes(ms[1..]) }

  lemma NoUpwardParts(path: Path)
    requires SafePath(path)
    ensures ".." !in path
  {}

  lemma MemberIsRestored(tree: Tree, extracted: nat, m: Member, max: nat)
    requires Enclosed(tree) && extracted <= max && RestoreMember(tree, extracted, m, max).Ok?
    ensures var (tree', extracted') := RestoreMember(tree, extracted, m, max).value;
            && Enclosed(tree') && Holds(tree, tree', m)
            && extracted' == extracted + MemberBytes(m) && extracted' <= max && ".." !in m.path
            && (m.content.Some? ==> m.path !in tree)
  {
    NoUpwardParts(m.path);
    if m.content == None {
      DirectoriesAreMade(tree, m.path, |m.path|);
      assert m.path[..|m.path|] == m.path;
    } else {
      DirectoriesAreMade(tree, m.path, |m.path| - 1);
      FileIsAdded(tree, MakeDirectories(tree, m.path, |m.path| - 1).value, m.path, m.content.value);
    }
  }

  lemma FileIsAdded(tree: Tree, made: Tree, path: Path, data: Bytes)
    requires path != [] && ".." !in path && Enclosed(made) && Extends(tree, made) && path !in made
    requires OnlyDirectoriesTo(tree, made, path[..|path| - 1])
    requires path[..|path| - 1] in made && made[path[..|path| - 1]] == Directory
    ensures Enclosed(made[path := Regular(data)]) && Holds(tree, made[path := Regular(data)], Member(path, Some(data)))
  {
    var tree' := made[path := Regular(data)];
    forall q | q in tree' && q !in tree ensures q <= path && (q != path ==> tree'[q] == Directory) {
      if q != path { assert path[..|path| - 1] <= path; }
    }
  }

  /** All members are there as archived, their directories too, and nothing else; together they are within the bound. */
  ghost predicate Restored(tree: Tree, tree': Tree, members: seq<Member>) {
    && Extends(tree, tree')
    && (forall m :: m in members ==>
          m.path in tree' && tree'[m.path] == if m.content == None then Directory else Regular(m.content.value))
    && (forall q :: q in tree' && q !in tree ==>
          exists m :: m in members && q <= m.path && (q != m.path ==> tree'[q] == Directory))
    && (forall m :: m in members ==> ".." !in m.path)
  }

  lemma RestoredFirst(tree: Tree, mid: Tree, tree': Tree, members: seq<Member>)
    requires members != [] && Holds(tree, mid, members[0]) && Restored(mid, tree', members[1..])
    requires ".." !in members[0].path
    ensures Restored(tree, tree', members)
  {
    assert members == [members[0]] + members[1..];
    forall q | q in tree' && q !in tree
      ensures exists m :: m in members && q <= m.path && (q != m.path ==> tree'[q] == Directory)
    {
      if q in mid {
        assert members[0] in members;
      } else {
        var m :| m in members[1..] && q <= m.path && (q != m.path ==> tree'[q] == Directory);
        assert m in members;
      }
    }
  }

  lemma {:induction false} AllAreRestored(tree: Tree, extracted: nat, members: seq<Member>, max: nat)
    requires Enclosed(tree) && extracted <= max && RestoreAll(tree, extracted, members, max).Ok?
    ensures var (tree', extracted') := RestoreAll(tree, extracted, members, max).value;
            && Enclosed(tree') && Restored(tree, tree', members)
            && extracted' == extracted + ArchiveBytes(members) && extracted' <= max
    decreases |members|
  {
    if members != [] {
      MemberIsRestored(tree, extracted, members[0], max);
      var (mid, now) := RestoreMember(tree, extracted, members[0], max).value;
      AllAreRestored(mid, now, members[1..], max);
      RestoredFirst(tree, mid, RestoreAll(tree, extracted, members, max).value.0, members);
    }
  }

  /** Whatever archive is restored, however it was made: into a directory that was not there, and within the bound;
      the tree holds its members, the directories that lead to them and nothing else, and no path leads upwards. */
  lemma RestoresStayInside(members: seq<Member>, max: nat, encoded: seq<Member> -> nat, present: bool)
    requires RestoreProfile(members, max, encoded, present).Ok?
    ensures var tree := RestoreProfile(members, max, encoded, present).value;
            && !present && encoded(members) <= max && ArchiveBytes(members) <= max
            && Enclosed(tree) && Restored(ROOT, tree, members)
  {
    assert Enclosed(ROOT);
    AllAreRestored(ROOT, 0, members, max);
  }

  /* ---------- which archives are restored ---------- */

  /** What a directory may be called. */
  predicate Usable(part: string) { part != "" && part != "." && part != ".." && '/' !in part }

  /** The member has a path that leads nowhere else, through directories that can be called so. */
  predicate Admissible(m: Member) {
    && m.path != [] && ".." !in m.path
    && forall i :: 0 <= i < |m.path| - (if m.content == None then 0 else 1) ==> Usable(m.path[i])
  }

  /** A file takes a path that is not there yet, and whatever there is on the way to a member is a directory. */
  ghost predicate Clear(tree: Tree, m: Member) {
    && (m.content.Some? ==> m.path !in tree)
    && forall n :: 0 <= n <= |m.path| && m.path[..n] in tree ==> tree[m.path[..n]] == Directory
  }

  /** No file is at the other member's path, or above it. */
  predicate Compatible(m: Member, x: Member) {
    (m.content.Some? ==> !(m.path <= x.path)) && (x.content.Some? ==> !(x.path <= m.path))
  }

  ghost predicate WayIsFree(tree: Tree, path: Path, n: nat)
    requires n <= |path|
  {
    && (forall i :: 0 <= i < n ==> Usable(path[i]))
    && forall k :: 1 <= k <= n && path[..k] in tree ==> tree[path[..k]] == Directory
  }

  lemma OneMoreDirectory(tree: Tree, path: Path, n: nat)
    requires 0 < n <= |path| && Enclosed(tree) && ".." !in path && MakeDirectories(tree, path, n - 1).Ok?
    ensures MakeDirectories(tree, path, n).Ok? <==>
            Usable(path[n - 1]) && (path[..n] in tree ==> tree[path[..n]] == Directory)
  {
    DirectoriesAreMade(tree, path, n - 1);
    assert !(path[..n] <= path[..n - 1]);
    assert Usable(path[n - 1]) <==> SafePart(path[n - 1]);
  }

  lemma {:induction false} DirectoriesExactly(tree: Tree, path: Path, n: nat)
    requires n <= |path| && Enclosed(tree) && ".." !in path
    ensures MakeDirectories(tree, path, n).Ok? <==> WayIsFree(tree, path, n)
  {
    if n > 0 {
      DirectoriesExactly(tree, path, n - 1);
      WayGoesOn(tree, path, n);
      if MakeDirectories(tree, path, n - 1).Ok? { OneMoreDirectory(tree, path, n); }
    }
  }

  lemma WayGoesOn(tree: Tree, path: Path, n: nat)
    requires 0 < n <= |path|
    ensures WayIsFree(tree, path, n) <==>
            && WayIsFree(tree, path, n - 1) && Usable(path[n - 1])
            && (path[..n] in tree ==> tree[path[..n]] == Directory)
  {}

  lemma UpwardParts(path: Path)
    ensures SafePath(path) <==> path != [] && ".." !in path
  {
    if ".." in path { var i :| 0 <= i < |path| && path[i] == ".."; }
  }

  lemma MemberExactly(tree: Tree, extracted: nat, m: Member, max: nat)
    requires Enclosed(tree) && extracted <= max
    ensures RestoreMember(tree, extracted, m, max).Ok? <==>
            Admissible(m) && Clear(tree, m) && extracted + MemberBytes(m) <= max
  {
    UpwardParts(m.path);
    if SafePath(m.path) {
      var n := if m.content == None then |m.path| else |m.path| - 1;
      DirectoriesExactly(tree, m.path, n);
      ClearWay(tree, m, n);
      if m.content.Some? && MakeDirectories(tree, m.path, n).Ok? {
        DirectoriesAreMade(tree, m.path, n);
        assert !(m.path <= m.path[..n]);
        assert m.path in MakeDirectories(tree, m.path, n).value <==> m.path in tree;
      }
    }
  }

  lemma ClearWay(tree: Tree, m: Member, n: nat)
    requires Enclosed(tree) && m.path != [] && ".." !in m.path
    requires n == if m.content == None then |m.path| else |m.path| - 1
    ensures Admissible(m) && Clear(tree, m) <==>
            WayIsFree(tree, m.path, n) && (m.content.Some? ==> m.path !in tree)
  {
    assert m.path[..0] == [] && m.path[..|m.path|] == m.path;
    if WayIsFree(tree, m.path, n) && (m.content.Some? ==> m.path !in tree) {
      assert forall k :: n < k <= |m.path| ==> m.path[..k] == m.path;
    }
  }

  lemma {:induction false} PrefixesAreThere(tree: Tree, q: Path, n: nat)
    requires Enclosed(tree) && q in tree && n <= |q|
    ensures q[..n] in tree
    decreases |q| - n
  {
    if n == |q| {
      assert q[..n] == q;
    } else {
      PrefixesAreThere(tree, q, n + 1);
      assert q[..n + 1][..n] == q[..n];
    }
  }

  lemma ClearAfter(tree: Tree, tree': Tree, m: Member, x: Member)
    requires Enclosed(tree') && Holds(tree, tree', m)
    ensures Clear(tree', x) <==> Clear(tree, x) && Compatible(m, x)
  {
    if m.path <= x.path { assert x.path[..|m.path|] == m.path; }
    if x.path <= m.path {
      PrefixesAreThere(tree', m.path, |x.path|);
      assert m.path[..|x.path|] == x.path;
    }
    if Clear(tree, x) && Compatible(m, x) {
      forall n | 0 <= n <= |x.path| && x.path[..n] in tree' ensures tree'[x.path[..n]] == Directory {
        assert x.path[..n] <= x.path;
      }
    }
  }

  predicate AllAdmissible(ms: seq<Member>) { forall i :: 0 <= i < |ms| ==> Admissible(ms[i]) }

  ghost predicate AllClear(tree: Tree, ms: seq<Member>) { forall i :: 0 <= i < |ms| ==> Clear(tree, ms[i]) }

  predicate AllCompatible(ms: seq<Member>) { forall i, j :: 0 <= i < j < |ms| ==> Compatible(ms[i], ms[j]) }

  lemma FirstIsClear(tree: Tree, mid: Tree, ms: seq<Member>)
    requires ms != [] && Enclosed(mid) && Holds(tree, mid, ms[0]) && Clear(tree, ms[0])
    ensures AllClear(mid, ms[1..]) && AllCompatible(ms[1..]) <==> AllClear(tree, ms) && AllCompatible(ms)
  {
    forall i | 1 <= i < |ms| ensures Clear(mid, ms[i]) <==> Clear(tree, ms[i]) && Compatible(ms[0], ms[i]) {
      ClearAfter(tree, mid, ms[0], ms[i]);
    }
    assert forall i :: 0 <= i < |ms[1..]| ==> ms[1..][i] == ms[i + 1];
    if AllClear(mid, ms[1..]) && AllCompatible(ms[1..]) {
      forall i | 1 <= i < |ms| ensures Clear(tree, ms[i]) && Compatible(ms[0], ms[i]) {
        assert ms[i] == ms[1..][i - 1];
      }
      forall i, j | 0 <= i < j < |ms| ensures Compatible(ms[i], ms[j]) {
        if i > 0 { assert Compatible(ms[1..][i - 1], ms[1..][j - 1]); }
      }
    }
  }

  lemma {:induction false} RestoreAllExactly(tree: Tree, extracted: nat, ms: seq<Member>, max: nat)
    requires Enclosed(tree) && extracted <= max
    ensures RestoreAll(tree, extracted, ms, max).Ok? <==>
            AllAdmissible(ms) && AllClear(tree, ms) && AllCompatible(ms) && extracted + ArchiveBytes(ms) <= max
    decreases |ms|
  {
    if ms != [] {
      MemberExactly(tree, extracted, ms[0], max);
      if RestoreMember(tree, extracted, ms[0], max).Ok? {
        MemberIsRestored(tree, extracted, ms[0], max);
        var (mid, now) := RestoreMember(tree, extracted, ms[0], max).value;
        RestoreAllExactly(mid, now, ms[1..], max);
        FirstIsClear(tree, mid, ms);
        assert AllAdmissible(ms) <==> AllAdmissible(ms[1..]) by {
          if AllAdmissible(ms[1..]) {
            forall i | 1 <= i < |ms| ensures Admissible(ms[i]) { assert ms[i] == ms[1..][i - 1]; }
          }
        }
      }
    }
  }

  /** Which archives are restored, however they were made: those within the bound whose members all have admissible
      paths and no file at or above another's path. The working directory must not be there. */
  lemma RestoresExactly(members: seq<Member>, max: nat, encoded: seq<Member> -> nat, present: bool)
    ensures var r := RestoreProfile(members, max, encoded, present);
            && (r.Ok? <==>
                  && !present && encoded(members) <= max && ArchiveBytes(members) <= max
                  && AllAdmissible(members) && AllCompatible(members))
            && (r.Refused? ==> r.code == if present then RunInterrupted else BrowserError)
  {
    assert Enclosed(ROOT);
    RestoreAllExactly(ROOT, 0, members, max);
    if AllAdmissible(members) {
      forall i | 0 <= i < |members| ensures Clear(ROOT, members[i]) {
        assert Admissible(members[i]);
      }
    }
    RefusedWith(ROOT, 0, members, max);
  }

  lemma {:induction false} RefusedWith(tree: Tree, extracted: nat, ms: seq<Member>, max: nat)
    ensures RestoreAll(tree, extracted, ms, max).Refused? ==> RestoreAll(tree, extracted, ms, max).code == BrowserError
    decreases |ms|
  {
    if ms != [] {
      DirectoriesRefuseWith(tree, ms[0].path, |ms[0].path|);
      if ms[0].path != [] { DirectoriesRefuseWith(tree, ms[0].path, |ms[0].path| - 1); }
      var next := RestoreMember(tree, extracted, ms[0], max);
      if next.Ok? { RefusedWith(next.value.0, next.value.1, ms[1..], max); }
    }
  }

  lemma {:induction false} DirectoriesRefuseWith(tree: Tree, path: Path, n: nat)
    requires n <= |path|
    ensures MakeDirectories(tree, path, n).Refused? ==> MakeDirectories(tree, path, n).code == BrowserError
  {
    if n > 0 { DirectoriesRefuseWith(tree, path, n - 1); }
  }

  /* ---------- what is archived ---------- */

  /** The node that the positions lead to, directory by directory. */
  function NodeAt(items: seq<Item>, at: seq<nat>): Option<Node>
    decreases |at|
  {
    if at == [] || at[0] >= |items| then None
    else if |at| == 1 then Some(items[at[0]].node)
    else if items[at[0]].node.Dir? then NodeAt(items[at[0]].node.items, at[1..])
    else None
  }

  lemma {:induction false} SupportedHasNoOther(items: seq<Item>, at: seq<nat>)
    requires Supported(items)
    ensures NodeAt(items, at) != Some(Other)
    decreases |at|
  {
    if at != [] && at[0] < |items| {
      SupportedNode(items, at[0]);
      if |at| > 1 && items[at[0]].node.Dir? { SupportedHasNoOther(items[at[0]].node.items, at[1..]); }
    }
  }

  lemma {:induction false} SupportedNode(items: seq<Item>, i: nat)
    requires Supported(items) && i < |items|
    ensures NodeSupported(items[i].node)
  {
    if i > 0 { SupportedNode(items[1..], i - 1); }
  }

  lemma {:induction false} OtherIsSomewhere(items: seq<Item>) returns (at: seq<nat>)
    requires !Supported(items)
    ensures NodeAt(items, at) == Some(Other)
    decreases items
  {
    if NodeSupported(items[0].node) {
      var later := OtherIsSomewhere(items[1..]);
      at := [later[0] + 1] + later[1..];
      if |later| > 1 { assert at[1..] == later[1..]; }
    } else if items[0].node.Other? {
      at := [0];
    } else {
      var below := OtherIsSomewhere(items[0].node.items);
      at := [0] + below;
      assert at[1..] == below;
    }
  }

  lemma {:induction false} BytesAdd(ms: seq<Member>, more: seq<Member>)
    ensures ArchiveBytes(ms + more) == ArchiveBytes(ms) + ArchiveBytes(more)
  {
    if ms == [] {
      assert ms + more == more;
    } else {
      assert (ms + more)[1..] == ms[1..] + more;
      BytesAdd(ms[1..], more);
    }
  }

  lemma {:induction false} BytesOfItems(items: seq<Item>, prefix: Path)
    ensures ArchiveBytes(Members(items, prefix)) == TotalBytes(items)
    decreases items
  {
    if items != [] {
      BytesOfNode(items[0].node, prefix + [items[0].name]);
      BytesOfItems(items[1..], prefix);
      BytesAdd(NodeMembers(items[0].node, prefix + [items[0].name]), Members(items[1..], prefix));
    }
  }

  lemma {:induction false} BytesOfNode(node: Node, path: Path)
    ensures ArchiveBytes(NodeMembers(node, path)) == NodeBytes(node)
    decreases node
  {
    if node.Dir? {
      BytesOfItems(node.items, path);
      BytesAdd([Member(path, None)], Members(node.items, path));
    }
  }

  /** A tree is archived exactly when nothing in it, at whatever depth, is neither a file nor a directory, and both
      the bytes of its members and their encoding are within the bound. */
  lemma SnapshotsExactly(items: seq<Item>, max: nat, encoded: seq<Member> -> nat)
    ensures var members := Members(items, []);
            Snapshot(items, max, encoded).Ok? <==>
            && (forall at :: NodeAt(items, at) != Some(Other))
            && ArchiveBytes(members) <= max && encoded(members) <= max
    ensures Snapshot(items, max, encoded) in {Ok(Members(items, [])), Refused(BrowserError)}
  {
    BytesOfItems(items, []);
    if Supported(items) {
      forall at ensures NodeAt(items, at) != Some(Other) { SupportedHasNoOther(items, at); }
    } else {
      var at := OtherIsSomewhere(items);
    }
  }
}
