/** Browser profile snapshots: a directory tree is written out as archive members, and the
    members are written back as a tree. Of the tar encoding of a member list only the size matters. */
module ProfileArchive {
  import opened Outcomes

  type Bytes = seq<bv8>
  type Path = seq<string>

  /** A directory is the list of its entries, in the order of the sorted directory listing. */
  datatype Node = File(data: Bytes) | Dir(items: seq<Item>) | Other
  datatype Item = Item(name: string, node: Node)

  datatype Member = Member(path: Path, content: Option<Bytes>)

  datatype Entry = Directory | Regular(data: Bytes)

  type Tree = map<Path, Entry>

  /* ---------- trees ---------- */

  function Names(items: seq<Item>): set<string> { set i | i in items :: i.name }

  predicate SafePart(part: string) { part !in {"", ".", ".."} && '/' !in part }

  /** What a file system guarantees of a directory: usable names, each at most once. */
  ghost predicate WellFormed(items: seq<Item>)
    decreases items
  {
    && (forall i :: 0 <= i < |items| ==> SafePart(items[i].name))
    && (forall i, j :: 0 <= i < j < |items| ==> items[i].name != items[j].name)
    && (forall i :: 0 <= i < |items| && items[i].node.Dir? ==> WellFormed(items[i].node.items))
  }

  /** The entry at a path below a directory. */
  function Find(items: seq<Item>, path: Path): Option<Entry>
    requires path != []
    decreases |path|, |items|
  {
    if items == [] then None
    else if items[0].name != path[0] then Find(items[1..], path)
    else
      match items[0].node
      case File(data) => if |path| == 1 then Some(Regular(data)) else None
      case Dir(children) => if |path| == 1 then Some(Directory) else Find(children, path[1..])
      case Other => None
  }

  function TotalBytes(items: seq<Item>): nat
    decreases items
  {
    if items == [] then 0 else NodeBytes(items[0].node) + TotalBytes(items[1..])
  }

  function NodeBytes(node: Node): nat
    decreases node
  {
    match node
    case File(data) => |data|
    case Dir(items) => TotalBytes(items)
    case Other => 0
  }

  predicate Supported(items: seq<Item>)
    decreases items
  {
    items == [] || (NodeSupported(items[0].node) && Supported(items[1..]))
  }

  predicate NodeSupported(node: Node)
    decreases node
  {
    match node
    case File(_) => true
    case Dir(items) => Supported(items)
    case Other => false
  }

  /* ---------- snapshot ---------- */

  function Members(items: seq<Item>, prefix: Path): seq<Member>
    decreases items
  {
    if items == [] then [] else NodeMembers(items[0].node, prefix + [items[0].name]) + Members(items[1..], prefix)
  }

  function NodeMembers(node: Node, path: Path): seq<Member>
    decreases node
  {
    match node
    case File(data) => [Member(path, Some(data))]
    case Dir(items) => [Member(path, None)] + Members(items, path)
    case Other => []
  }

  const CHUNK := 65_536

  /** The bounded read of one file: the whole file, or nothing once it exceeds the budget. Each
      read returns at least one byte and no more than was asked for. */
  method ReadBounded(data: Bytes, budget: nat) returns (r: Option<Bytes>)
    ensures r == if |data| <= budget then Some(data) else None
  {
    var received: Bytes := [];
    while |received| < |data|
      invariant |received| <= |data| && |received| <= budget
      invariant received == data[..|received|]
      decreases |data| - |received|
    {
      var asked := if CHUNK < budget - |received| + 1 then CHUNK else budget - |received| + 1;
      var left := |data| - |received|;
      var got: nat :| 1 <= got <= asked && got <= left;
      received := received + data[|received|..|received| + got];
      if |received| > budget { return None; }
    }
    assert data[..|received|] == data;
    return Some(received);
  }

  /** The recursive visit, with the running byte total: it succeeds exactly on supported trees
      within the bound, and then lists every entry. */
  method Visit(items: seq<Item>, prefix: Path, total: nat, max: nat) returns (r: Result<(seq<Member>, nat)>)
    requires total <= max
    ensures r.Ok? <==> Supported(items) && total + TotalBytes(items) <= max
    ensures r.Ok? ==> r.value == (Members(items, prefix), total + TotalBytes(items))
    decreases items
  {
    var members: seq<Member> := [];
    var sum: nat := total;
    var rest := items;
    while rest != []
      invariant sum <= max
      invariant forall i :: i in rest ==> i in items
      invariant Supported(items) <==> Supported(rest)
      invariant sum + TotalBytes(rest) == total + TotalBytes(items)
      invariant members + Members(rest, prefix) == Members(items, prefix)
      decreases |rest|
    {
      assert rest[0] in items && forall i :: i in rest[1..] ==> i in rest;
      var added, now := VisitItem(rest[0].node, prefix + [rest[0].name], sum, max);
      if added == None { return Refused(BrowserError); }
      members, sum, rest := members + added.value, now, rest[1..];
    }
    assert members + Members(rest, prefix) == members;
    return Ok((members, sum));
  }

  /** One directory entry; anything but a file or a directory is refused. */
  method VisitItem(node: Node, path: Path, total: nat, max: nat) returns (added: Option<seq<Member>>, now: nat)
    requires total <= max
    ensures added.Some? <==> NodeSupported(node) && total + NodeBytes(node) <= max
    ensures added.Some? ==> added.value == NodeMembers(node, path) && now == total + NodeBytes(node)
    decreases node
  {
    now := total;
    match node {
      case Other => return None, total;
      case File(data) =>
        var read := ReadBounded(data, max - total);
        if read == None { return None, total; }
        return Some([Member(path, read)]), total + |data|;
      case Dir(items) =>
        var nested := Visit(items, path, total, max);
        if nested.Refused? { return None, total; }
        return Some([Member(path, None)] + nested.value.0), nested.value.1;
    }
  }

  /** What a snapshot archives: a supported tree whose files, and whose encoding, are within the bound. */
  function Snapshot(items: seq<Item>, max: nat, encoded: seq<Member> -> nat): Result<seq<Member>> {
    if Supported(items) && TotalBytes(items) <= max && encoded(Members(items, [])) <= max then Ok(Members(items, []))
    else Refused(BrowserError)
  }

  method ArchiveDirectory(items: seq<Item>, max: nat, encoded: seq<Member> -> nat) returns (r: Result<seq<Member>>)
    ensures r == Snapshot(items, max, encoded)
  {
    var visited := Visit(items, [], 0, max);
    if visited.Refused? || encoded(visited.value.0) > max { return Refused(BrowserError); }
    return Ok(visited.value.0);
  }

  /* ---------- restore ---------- */

  /** Open the directory at `parts[..n]`, making the missing ones. */
  function MakeDirectories(tree: Tree, parts: Path, n: nat): Result<Tree>
    requires n <= |parts|
  {
    if n == 0 then Ok(tree)
    else
      match MakeDirectories(tree, parts, n - 1)
      case Refused(code) => Refused(code)
      case Ok(made) =>
        var p := parts[..n];
        if !SafePart(parts[n - 1]) then Refused(BrowserError)
        else if p !in made then Ok(made[p := Directory])
        else if made[p].Directory? then Ok(made)
        else Refused(BrowserError)
  }

  predicate SafePath(path: Path) { path != [] && forall i :: 0 <= i < |path| ==> path[i] != ".." }

  /** One archive member; `extracted` is the running total of file bytes. */
  function RestoreMember(tree: Tree, extracted: nat, m: Member, max: nat): Result<(Tree, nat)> {
    if !SafePath(m.path) then Refused(BrowserError)
    else if m.content == None then
      match MakeDirectories(tree, m.path, |m.path|)
      case Refused(code) => Refused(code)
      case Ok(made) => Ok((made, extracted))
    else
      var data := m.content.value;
      if |data| > max || extracted + |data| > max then Refused(BrowserError)
      else
        match MakeDirectories(tree, m.path, |m.path| - 1)
        case Refused(code) => Refused(code)
        case Ok(made) =>
          if m.path in made then Refused(BrowserError) else Ok((made[m.path := Regular(data)], extracted + |data|))
  }

  function RestoreAll(tree: Tree, extracted: nat, members: seq<Member>, max: nat): Result<(Tree, nat)>
    decreases |members|
  {
    if members == [] then Ok((tree, extracted))
    else
      match RestoreMember(tree, extracted, members[0], max)
      case Refused(code) => Refused(code)
      case Ok((tree', extracted')) => RestoreAll(tree', extracted', members[1..], max)
  }

  const ROOT: Tree := map[[] := Directory]

  /** A restore into a working directory that must not exist, of an archive whose encoding is bounded too. */
  function RestoreProfile(members: seq<Member>, max: nat, encoded: seq<Member> -> nat, present: bool): Result<Tree> {
    if present then Refused(RunInterrupted)
    else if encoded(members) > max then Refused(BrowserError)
    else
      match RestoreAll(ROOT, 0, members, max)
      case Refused(code) => Refused(code)
      case Ok((tree, _)) => Ok(tree)
  }

  /** The member loop; a refusal leaves nothing behind, because the tree is removed. */
  method Restore(members: seq<Member>, max: nat, encoded: seq<Member> -> nat, present: bool) returns (r: Result<Tree>)
    ensures r == RestoreProfile(members, max, encoded, present)
  {
    if present { return Refused(RunInterrupted); }
    if encoded(members) > max { return Refused(BrowserError); }
    var tree: Tree := ROOT;
    var extracted, rest := 0, members;
    while rest != []
      invariant RestoreAll(tree, extracted, rest, max) == RestoreAll(ROOT, 0, members, max)
      decreases |rest|
    {
      var next := RestoreMember(tree, extracted, rest[0], max);
      if next.Refused? { return Refused(next.code); }
      tree, extracted, rest := next.value.0, next.value.1, rest[1..];
    }
    return Ok(tree);
  }

  /* ---------- the round trip ---------- */

  /** The entries of a directory as a map from paths, below `prefix`. */
  function Flat(items: seq<Item>, prefix: Path): Tree
    decreases items
  {
    if items == [] then map[] else FlatNode(items[0].node, prefix + [items[0].name]) + Flat(items[1..], prefix)
  }

  function FlatNode(node: Node, path: Path): Tree
    decreases node
  {
    match node
    case File(data) => map[path := Regular(data)]
    case Dir(items) => map[path := Directory] + Flat(items, path)
    case Other => map[]
  }

  lemma {:induction false} RestoreConcat(tree: Tree, extracted: nat, a: seq<Member>, b: seq<Member>, max: nat)
    ensures RestoreAll(tree, extracted, a + b, max) ==
            match RestoreAll(tree, extracted, a, max)
            case Refused(code) => Refused(code)
            case Ok((tree', extracted')) => RestoreAll(tree', extracted', b, max)
    decreases |a|
  {
    if a == [] {
      assert a + b == b;
    } else {
      assert (a + b)[1..] == a[1..] + b;
      var next := RestoreMember(tree, extracted, a[0], max);
      if next.Ok? { RestoreConcat(next.value.0, next.value.1, a[1..], b, max); }
    }
  }

  /** Every proper or improper prefix of the path is a directory. */
  ghost predicate Above(tree: Tree, path: Path) {
    forall n :: 0 <= n <= |path| ==> path[..n] in tree && tree[path[..n]] == Directory
  }

  ghost predicate SafeParts(path: Path) { forall i :: 0 <= i < |path| ==> SafePart(path[i]) }

  lemma {:induction false} DirectoriesExist(tree: Tree, parts: Path, n: nat)
    requires n <= |parts| && SafeParts(parts)
    requires forall k :: 0 <= k <= n ==> parts[..k] in tree && tree[parts[..k]] == Directory
    ensures MakeDirectories(tree, parts, n) == Ok(tree)
  {
    if n > 0 { DirectoriesExist(tree, parts, n - 1); }
  }

  /** Nothing is stored at or below the path. */
  ghost predicate NoneUnder(tree: Tree, path: Path) { forall q :: q in tree ==> !(path <= q) }

  ghost predicate NodeWellFormed(node: Node) { node.Dir? ==> WellFormed(node.items) }

  lemma {:induction false} FlatUnder(items: seq<Item>, prefix: Path, q: Path)
    requires q in Flat(items, prefix)
    ensures prefix < q && exists i :: 0 <= i < |items| && items[i].name == q[|prefix|]
    decreases items
  {
    if q in Flat(items[1..], prefix) {
      FlatUnder(items[1..], prefix, q);
      var i :| 0 <= i < |items[1..]| && items[1..][i].name == q[|prefix|];
      assert items[i + 1].name == q[|prefix|];
    } else {
      FlatNodeUnder(items[0].node, prefix + [items[0].name], q);
      assert items[0].name == q[|prefix|];
    }
  }

  lemma {:induction false} FlatNodeUnder(node: Node, path: Path, q: Path)
    requires q in FlatNode(node, path)
    ensures path <= q
    decreases node
  {
    if node.Dir? && q in Flat(node.items, path) { FlatUnder(node.items, path, q); }
  }

  /** Writing one entry leaves its parent in place and its siblings' paths free. */
  lemma SiblingsStayFree(tree: Tree, node: Node, prefix: Path, name: string, other: string)
    requires NoneUnder(tree, prefix + [other]) && name != other
    ensures NoneUnder(tree + FlatNode(node, prefix + [name]), prefix + [other])
  {
    forall q | q in FlatNode(node, prefix + [name]) ensures !(prefix + [other] <= q) {
      FlatNodeUnder(node, prefix + [name], q);
      assert q[|prefix|] == (prefix + [name])[|prefix|];
    }
  }

  lemma AboveStays(tree: Tree, node: Node, prefix: Path, name: string)
    requires Above(tree, prefix)
    ensures Above(tree + FlatNode(node, prefix + [name]), prefix)
  {
    forall n | 0 <= n <= |prefix| ensures prefix[..n] !in FlatNode(node, prefix + [name]) {
      if prefix[..n] in FlatNode(node, prefix + [name]) { FlatNodeUnder(node, prefix + [name], prefix[..n]); }
    }
  }

  lemma AboveOne(tree: Tree, prefix: Path, name: string)
    requires Above(tree, prefix)
    ensures Above(tree[prefix + [name] := Directory], prefix + [name])
  {
    var path := prefix + [name];
    forall n | 0 <= n <= |path|
      ensures path[..n] in tree[path := Directory] && tree[path := Directory][path[..n]] == Directory
    {
      if n == |path| { assert path[..n] == path; } else { assert path[..n] == prefix[..n]; }
    }
  }

  lemma ParentExists(tree: Tree, prefix: Path, name: string)
    requires Above(tree, prefix) && SafeParts(prefix + [name])
    ensures MakeDirectories(tree, prefix + [name], |prefix|) == Ok(tree)
  {
    var path := prefix + [name];
    forall k | 0 <= k <= |prefix| ensures path[..k] in tree && tree[path[..k]] == Directory {
      assert path[..k] == prefix[..k];
    }
    DirectoriesExist(tree, path, |prefix|);
  }

  /** The first member of an entry finds its parent directory and its own path free. */
  lemma RestoreFirst(tree: Tree, extracted: nat, prefix: Path, name: string, content: Option<Bytes>, max: nat)
    requires Above(tree, prefix) && SafeParts(prefix + [name]) && prefix + [name] !in tree
    requires content.Some? ==> extracted + |content.value| <= max
    ensures var path := prefix + [name];
            RestoreMember(tree, extracted, Member(path, content), max) ==
              Ok((tree[path := if content.Some? then Regular(content.value) else Directory],
                  extracted + if content.Some? then |content.value| else 0))
  {
    var path := prefix + [name];
    ParentExists(tree, prefix, name);
    assert forall i :: 0 <= i < |path| ==> path[i] != "..";
    if content == None {
      assert path[..|path|] == path && SafePart(path[|path| - 1]);
    }
  }

  lemma {:induction false} RestoreNode(tree: Tree, extracted: nat, node: Node, prefix: Path, name: string, max: nat)
    requires Above(tree, prefix) && SafeParts(prefix + [name]) && NoneUnder(tree, prefix + [name])
    requires NodeSupported(node) && NodeWellFormed(node) && extracted + NodeBytes(node) <= max
    ensures RestoreAll(tree, extracted, NodeMembers(node, prefix + [name]), max) ==
            Ok((tree + FlatNode(node, prefix + [name]), extracted + NodeBytes(node)))
    decreases node, 1
  {
    match node
    case File(data) => RestoreFile(tree, extracted, data, prefix, name, max);
    case Dir(items) =>
      var path := prefix + [name];
      RestoreDirectory(tree, extracted, items, prefix, name, max);
      NewDirectoryIsFree(tree, items, prefix, name);
      RestoreItems(tree[path := Directory], extracted, items, path, max);
  }

  lemma RestoreFile(tree: Tree, extracted: nat, data: Bytes, prefix: Path, name: string, max: nat)
    requires Above(tree, prefix) && SafeParts(prefix + [name]) && NoneUnder(tree, prefix + [name])
    requires extracted + |data| <= max
    ensures RestoreAll(tree, extracted, [Member(prefix + [name], Some(data))], max) ==
            Ok((tree + map[prefix + [name] := Regular(data)], extracted + |data|))
  {
    var path := prefix + [name];
    RestoreFirst(tree, extracted, prefix, name, Some(data), max);
    assert [Member(path, Some(data))][1..] == [];
    assert tree[path := Regular(data)] == tree + map[path := Regular(data)];
  }

  lemma NewDirectoryIsFree(tree: Tree, items: seq<Item>, prefix: Path, name: string)
    requires Above(tree, prefix) && NoneUnder(tree, prefix + [name])
    ensures Free(tree[prefix + [name] := Directory], items, prefix + [name])
  {
    var path := prefix + [name];
    AboveOne(tree, prefix, name);
    forall i | 0 <= i < |items| ensures NoneUnder(tree[path := Directory], path + [items[i].name]) {
      BelowNewDirectory(tree, path, items[i].name);
    }
    FreeEach(tree[path := Directory], items, path);
  }

  /** A directory is made, and then its members are restored. */
  lemma RestoreDirectory(tree: Tree, extracted: nat, items: seq<Item>, prefix: Path, name: string, max: nat)
    requires Above(tree, prefix) && SafeParts(prefix + [name]) && NoneUnder(tree, prefix + [name])
    requires extracted <= max
    ensures var path := prefix + [name];
            && RestoreAll(tree, extracted, NodeMembers(Dir(items), path), max)
               == RestoreAll(tree[path := Directory], extracted, Members(items, path), max)
            && tree[path := Directory] + Flat(items, path) == tree + FlatNode(Dir(items), path)
  {
    var path := prefix + [name];
    RestoreFirst(tree, extracted, prefix, name, None, max);
    assert ([Member(path, None)] + Members(items, path))[1..] == Members(items, path);
    assert tree[path := Directory] == tree + map[path := Directory];
    MergeAssociates(tree, map[path := Directory], Flat(items, path));
  }

  lemma BelowNewDirectory(tree: Tree, path: Path, name: string)
    requires NoneUnder(tree, path)
    ensures NoneUnder(tree[path := Directory], path + [name])
  {
    forall q | q in tree ensures !(path + [name] <= q) {
      assert path + [name] <= q ==> path <= q;
    }
  }

  lemma MergeAssociates(a: Tree, b: Tree, c: Tree)
    ensures a + b + c == a + (b + c)
  {}

  /** After the first entry is written, the rest of the directory is as ready as before. */
  lemma RestIsFree(tree: Tree, items: seq<Item>, prefix: Path)
    requires Above(tree, prefix) && items != [] && WellFormed(items)
    requires forall i :: 0 <= i < |items| ==> NoneUnder(tree, prefix + [items[i].name])
    ensures var tree' := tree + FlatNode(items[0].node, prefix + [items[0].name]);
            && Above(tree', prefix) && WellFormed(items[1..])
            && forall i :: 0 <= i < |items[1..]| ==> NoneUnder(tree', prefix + [items[1..][i].name])
  {
    AboveStays(tree, items[0].node, prefix, items[0].name);
    forall i | 0 <= i < |items[1..]|
      ensures NoneUnder(tree + FlatNode(items[0].node, prefix + [items[0].name]), prefix + [items[1..][i].name])
    {
      assert items[1..][i] == items[i + 1];
      SiblingsStayFree(tree, items[0].node, prefix, items[0].name, items[i + 1].name);
    }
  }

  /** Everything in the directory can still be written at its place. */
  ghost predicate Free(tree: Tree, items: seq<Item>, prefix: Path)
    decreases |items|
  {
    && Above(tree, prefix)
    && (items != [] ==> NoneUnder(tree, prefix + [items[0].name]) && Free(tree, items[1..], prefix))
  }

  lemma {:induction false} FreeEach(tree: Tree, items: seq<Item>, prefix: Path)
    requires Above(tree, prefix)
    ensures Free(tree, items, prefix) <==> forall i :: 0 <= i < |items| ==> NoneUnder(tree, prefix + [items[i].name])
    decreases |items|
  {
    if items != [] {
      FreeEach(tree, items[1..], prefix);
      assert forall i :: 0 <= i < |items| - 1 ==> items[1..][i] == items[i + 1];
      assert forall i :: 0 < i < |items| ==> items[i] == items[1..][i - 1];
    }
  }

  lemma FirstIsWritten(tree: Tree, extracted: nat, items: seq<Item>, prefix: Path, max: nat)
    requires Free(tree, items, prefix) && SafeParts(prefix) && items != []
    requires Supported(items) && WellFormed(items) && extracted + TotalBytes(items) <= max
    requires RestoreAll(tree, extracted, NodeMembers(items[0].node, prefix + [items[0].name]), max) ==
             Ok((tree + FlatNode(items[0].node, prefix + [items[0].name]), extracted + NodeBytes(items[0].node)))
    ensures RestoreAll(tree, extracted, Members(items, prefix), max) ==
            RestoreAll(tree + FlatNode(items[0].node, prefix + [items[0].name]), extracted + NodeBytes(items[0].node),
                       Members(items[1..], prefix), max)
  {
    RestoreConcat(tree, extracted, NodeMembers(items[0].node, prefix + [items[0].name]), Members(items[1..], prefix),
      max);
  }

  /** What the first item of a directory and the others share out. */
  lemma FirstAndRest(tree: Tree, items: seq<Item>, prefix: Path)
    requires Free(tree, items, prefix) && SafeParts(prefix) && Supported(items) && WellFormed(items) && items != []
    ensures var path := prefix + [items[0].name];
            && SafeParts(path) && NoneUnder(tree, path) && NodeSupported(items[0].node) && NodeWellFormed(items[0].node)
            && Supported(items[1..]) && Free(tree + FlatNode(items[0].node, path), items[1..], prefix)
            && WellFormed(items[1..])
    ensures TotalBytes(items) == NodeBytes(items[0].node) + TotalBytes(items[1..])
  {
    FreeEach(tree, items, prefix);
    RestIsFree(tree, items, prefix);
    FreeEach(tree + FlatNode(items[0].node, prefix + [items[0].name]), items[1..], prefix);
  }

  lemma FlatTogether(tree: Tree, items: seq<Item>, prefix: Path)
    requires items != []
    ensures tree + FlatNode(items[0].node, prefix + [items[0].name]) + Flat(items[1..], prefix)
              == tree + Flat(items, prefix)
  {
    MergeAssociates(tree, FlatNode(items[0].node, prefix + [items[0].name]), Flat(items[1..], prefix));
  }

  /** The members of these items, and of all but the first any number of them, are restored in full. */
  ghost predicate Restores(tree: Tree, extracted: nat, items: seq<Item>, prefix: Path, max: nat)
    decreases |items|
  {
    && RestoreAll(tree, extracted, Members(items, prefix), max)
       == Ok((tree + Flat(items, prefix), extracted + TotalBytes(items)))
    && (items != [] ==> Restores(tree + FlatNode(items[0].node, prefix + [items[0].name]),
                                 extracted + NodeBytes(items[0].node), items[1..], prefix, max))
  }

  lemma {:induction false} RestoresOneMore(tree: Tree, extracted: nat, items: seq<Item>, prefix: Path, max: nat)
    requires Free(tree, items, prefix) && SafeParts(prefix) && items != []
    requires Supported(items) && WellFormed(items) && extracted + TotalBytes(items) <= max
    ensures Restores(tree + FlatNode(items[0].node, prefix + [items[0].name]),
                     extracted + NodeBytes(items[0].node), items[1..], prefix, max) ==>
              Restores(tree, extracted, items, prefix, max)
    decreases items, 1
  {
    FlatTogether(tree, items, prefix);
    FirstIsRestored(tree, extracted, items, prefix, max);
  }

  lemma {:induction false} RestoreItems(tree: Tree, extracted: nat, items: seq<Item>, prefix: Path, max: nat)
    requires Free(tree, items, prefix) && SafeParts(prefix)
    requires Supported(items) && WellFormed(items) && extracted + TotalBytes(items) <= max
    ensures Restores(tree, extracted, items, prefix, max)
    decreases items, 2
  {
    if items == [] {
      assert tree + map[] == tree;
    } else {
      RestoresOneMore(tree, extracted, items, prefix, max);
      RestoreRest(tree, extracted, items, prefix, max);
    }
  }

  lemma {:induction false} RestoreRest(tree: Tree, extracted: nat, items: seq<Item>, prefix: Path, max: nat)
    requires Free(tree, items, prefix) && SafeParts(prefix) && items != []
    requires Supported(items) && WellFormed(items) && extracted + TotalBytes(items) <= max
    ensures Restores(tree + FlatNode(items[0].node, prefix + [items[0].name]),
                     extracted + NodeBytes(items[0].node), items[1..], prefix, max)
    decreases items, 1
  {
    var node, path := items[0].node, prefix + [items[0].name];
    FirstAndRest(tree, items, prefix);
    RestoreItems(tree + FlatNode(node, path), extracted + NodeBytes(node), items[1..], prefix, max);
  }

  lemma {:induction false} FirstIsRestored(tree: Tree, extracted: nat, items: seq<Item>, prefix: Path, max: nat)
    requires Free(tree, items, prefix) && SafeParts(prefix) && items != []
    requires Supported(items) && WellFormed(items) && extracted + TotalBytes(items) <= max
    ensures RestoreAll(tree, extracted, Members(items, prefix), max) ==
            RestoreAll(tree + FlatNode(items[0].node, prefix + [items[0].name]), extracted + NodeBytes(items[0].node),
                       Members(items[1..], prefix), max)
    decreases items, 0
  {
    FirstAndRest(tree, items, prefix);
    RestoreNode(tree, extracted, items[0].node, prefix, items[0].name, max);
    FirstIsWritten(tree, extracted, items, prefix, max);
  }

  lemma FlatNodeMisses(node: Node, prefix: Path, name: string, rest: Path)
    requires rest != [] && name != rest[0]
    ensures prefix + rest !in FlatNode(node, prefix + [name])
  {
    assert (prefix + rest)[|prefix|] == rest[0] && (prefix + [name])[|prefix|] == name;
    if prefix + rest in FlatNode(node, prefix + [name]) { FlatNodeUnder(node, prefix + [name], prefix + rest); }
  }

  /** The flat map holds, at each path, what the tree holds there. */
  lemma {:induction false} FlatFinds(items: seq<Item>, prefix: Path, rest: Path)
    requires WellFormed(items) && rest != [] && Supported(items)
    ensures prefix + rest in Flat(items, prefix) <==> Find(items, rest).Some?
    ensures prefix + rest in Flat(items, prefix) ==> Flat(items, prefix)[prefix + rest] == Find(items, rest).value
    decreases items
  {
    if items != [] {
      var name, path, q := items[0].name, prefix + [items[0].name], prefix + rest;
      FlatFinds(items[1..], prefix, rest);
      if name != rest[0] {
        FlatNodeMisses(items[0].node, prefix, name, rest);
      } else {
        if q in Flat(items[1..], prefix) { FlatUnder(items[1..], prefix, q); }
        FlatNodeFinds(items[0].node, prefix, rest);
      }
    }
  }

  lemma {:induction false} FlatNodeFinds(node: Node, prefix: Path, rest: Path)
    requires NodeWellFormed(node) && NodeSupported(node) && rest != []
    ensures prefix + rest in FlatNode(node, prefix + [rest[0]]) <==> Find([Item(rest[0], node)], rest).Some?
    ensures prefix + rest in FlatNode(node, prefix + [rest[0]]) ==>
              FlatNode(node, prefix + [rest[0]])[prefix + rest] == Find([Item(rest[0], node)], rest).value
    decreases node
  {
    var path := prefix + [rest[0]];
    if |rest| == 1 {
      assert prefix + rest == path;
      if node.Dir? && path in Flat(node.items, path) { FlatUnder(node.items, path, path); }
    } else {
      assert prefix + rest == path + rest[1..];
      assert prefix + rest != path;
      if node.Dir? { FlatFinds(node.items, path, rest[1..]); }
    }
  }

  /** Snapshot and restore are inverse: whatever a snapshot archives is restored under the same bound, with
      at each path exactly the entry that was there. */
  lemma SnapshotRestores(items: seq<Item>, max: nat, encoded: seq<Member> -> nat, path: Path)
    requires WellFormed(items) && Snapshot(items, max, encoded).Ok? && path != []
    ensures var r := RestoreProfile(Snapshot(items, max, encoded).value, max, encoded, false);
            && r.Ok? && [] in r.value
            && (path in r.value <==> Find(items, path).Some?)
            && (path in r.value ==> r.value[path] == Find(items, path).value)
  {
    forall i | 0 <= i < |items| ensures NoneUnder(ROOT, [] + [items[i].name]) {}
    assert Above(ROOT, []);
    FreeEach(ROOT, items, []);
    RestoreItems(ROOT, 0, items, [], max);
    FlatFinds(items, [], path);
    assert [] + path == path;
  }
}
