/** Context packs: which manifests are valid, the tree that materialisation builds from one, and
    what verification then accepts. */
module ContextPack {
  import opened Outcomes

  type Bytes = seq<bv8>
  type Text = nat
  type Parts = seq<string>

  /** Unicode normalisation, case folding, SHA-256 and the JSON encodings; and `name`, under which the file
      system of the staging directory looks up a component: the component itself where case matters. */
  datatype Codec = Codec(
    normal: string -> bool,
    fold: string -> string,
    name: string -> string,
    digest: Bytes -> Text,
    fingerprint: Manifest -> Text,
    treeDigest: seq<Written> -> Text,
    metadata: (Manifest, Materialization) -> Bytes)

  datatype Entry = Entry(
    path: string, order: nat, reference: Text, digest: Text, size: nat, media: Text, sensitivity: Text, required: bool)

  /** A loaded skill: its name, whether it was a miss, and the digests of what was loaded. */
  datatype SkillLoad = SkillLoad(skill: Text, task: Text, identity: Text, miss: bool, digests: set<Text>)

  datatype Manifest = Manifest(
    entries: seq<Entry>, task: Text, identity: Text, output: (Text, Text), verification: (Text, Text),
    maxEntries: nat, maxEntryBytes: nat, maxTotalBytes: nat, loads: seq<SkillLoad>)

  datatype Written = Written(path: string, reference: Text, digest: Text, size: nat)

  datatype Materialization = Materialization(
    fingerprint: Text, treeDigest: Text, entries: seq<Written>, omitted: seq<string>, totalBytes: nat)

  /** An artifact as the reader finds it. */
  datatype Stored = Stored(digest: Text, size: nat, media: Text, sensitivity: Text, usable: bool, content: Bytes)

  type Artifacts = map<Text, Stored>

  /** Files and directories below the staging directory. */
  datatype Tree = Tree(files: map<Parts, Bytes>, dirs: set<Parts>)

  /** Where the file system finds a path, and the metadata file. */
  function PlaceOf(c: Codec, path: string): (place: Parts)
    ensures |place| == |PartsOf(path)|
  {
    seq(|PartsOf(path)|, i requires 0 <= i < |PartsOf(path)| => c.name(PartsOf(path)[i]))
  }

  function Metadata(c: Codec): Parts { [c.name(".mishkan"), c.name("context-pack.json")] }

  /* ---------- logical paths ---------- */

  function Components(s: string): (cs: Parts)
    ensures cs != []
  {
    if s == "" then [""]
    else
      var rest := Components(s[1..]);
      if s[0] == '/' then [""] + rest else [[s[0]] + rest[0]] + rest[1..]
  }

  /** Parsing drops empty and single-dot components. */
  function Kept(cs: Parts): Parts {
    if cs == [] then []
    else if cs[0] == "" || cs[0] == "." then Kept(cs[1..])
    else [cs[0]] + Kept(cs[1..])
  }

  function PartsOf(path: string): Parts { Kept(Components(path)) }

  function AsPosix(cs: Parts): string {
    if cs == [] then "" else if |cs| == 1 then cs[0] else cs[0] + "/" + AsPosix(cs[1..])
  }

  predicate SafePath(c: Codec, path: string) {
    && path != "" && '\\' !in path && '\0' !in path
    && c.normal(path)
    && path[0] != '/'
    && PartsOf(path) != []
    && ".." !in PartsOf(path)
    && PartsOf(path)[0] != ".mishkan"
    && AsPosix(PartsOf(path)) == path
  }

  lemma {:induction false} ComponentsJoin(s: string)
    ensures AsPosix(Components(s)) == s
  {
    if s != "" {
      var rest := Components(s[1..]);
      ComponentsJoin(s[1..]);
      var cs := Components(s);
      assert s == [s[0]] + s[1..];
      if s[0] == '/' {
        assert cs[1..] == rest;
      } else {
        assert cs[1..] == rest[1..];
        if |rest| > 1 {
          assert [s[0]] + (rest[0] + "/" + AsPosix(rest[1..])) == ([s[0]] + rest[0]) + "/" + AsPosix(rest[1..]);
        }
      }
    }
  }

  /** The length of the path that separates and ends each component with a slash. */
  function Weight(cs: Parts): nat { if cs == [] then 0 else |cs[0]| + 1 + Weight(cs[1..]) }

  lemma {:induction false} JoinedLength(cs: Parts)
    ensures |AsPosix(cs)| == if cs == [] then 0 else Weight(cs) - 1
  {
    if |cs| > 1 { JoinedLength(cs[1..]); }
  }

  predicate Proper(component: string) { component != "" && component != "." && component != ".." }

  lemma {:induction false} KeptWeight(cs: Parts)
    ensures Weight(Kept(cs)) <= Weight(cs)
    ensures Weight(Kept(cs)) == Weight(cs) <==> forall i :: 0 <= i < |cs| ==> cs[i] != "" && cs[i] != "."
    ensures Weight(Kept(cs)) == Weight(cs) ==> Kept(cs) == cs
  {
    if cs != [] {
      KeptWeight(cs[1..]);
      assert forall i :: 0 <= i < |cs| ==> cs[i] == if i == 0 then cs[0] else cs[1..][i - 1];
      assert forall i :: 0 <= i < |cs| - 1 ==> cs[1..][i] == cs[i + 1];
    }
  }

  /** The path rule says exactly that every component between slashes is a proper name. */
  lemma SafePathExactly(c: Codec, path: string)
    ensures SafePath(c, path) <==>
            && '\\' !in path && '\0' !in path && c.normal(path)
            && (forall i :: 0 <= i < |Components(path)| ==> Proper(Components(path)[i]))
            && Components(path)[0] != ".mishkan"
  {
    var cs := Components(path);
    ComponentsJoin(path);
    KeptWeight(cs);
    JoinedLength(cs);
    JoinedLength(Kept(cs));
    if path != "" && path[0] == '/' { assert cs[0] == ""; }
  }

  lemma PathsAreTheirParts(c: Codec, p: string, q: string)
    requires SafePath(c, p) && SafePath(c, q) && PartsOf(p) == PartsOf(q)
    ensures p == q
  {}

  /* ---------- the manifest's validator ---------- */

  predicate IsPrefix(p: Parts, q: Parts) { |p| <= |q| && q[..|p|] == p }

  predicate ProperPrefix(p: Parts, q: Parts) { |p| < |q| && q[..|p|] == p }

  predicate NotAfter(a: string, b: string)
    decreases a
  {
    a == "" || (b != "" && (a[0] < b[0] || (a[0] == b[0] && NotAfter(a[1..], b[1..]))))
  }

  predicate Ordered(x: Entry, y: Entry) { x.order < y.order || (x.order == y.order && NotAfter(x.path, y.path)) }

  function SizeOf(es: seq<Entry>, n: nat): nat
    requires n <= |es|
  {
    if n == 0 then 0 else SizeOf(es, n - 1) + es[n - 1].size
  }

  predicate Names(e: Entry, identity: (Text, Text)) { e.required && (e.reference, e.digest) == identity }

  predicate HasDigest(m: Manifest, d: Text) { exists i :: 0 <= i < |m.entries| && m.entries[i].digest == d }

  predicate ValidLoads(m: Manifest) {
    && (forall i, j :: 0 <= i < j < |m.loads| ==> m.loads[i].skill != m.loads[j].skill)
    && (forall i :: 0 <= i < |m.loads| ==>
          m.loads[i].task == m.task && m.loads[i].identity == m.identity && !m.loads[i].miss)
    && (forall i, d :: 0 <= i < |m.loads| && d in m.loads[i].digests ==> HasDigest(m, d))
  }

  predicate ValidPaths(c: Codec, es: seq<Entry>) {
    && (forall i :: 0 <= i < |es| ==> SafePath(c, es[i].path))
    && (forall i, j :: 0 <= i < j < |es| ==> es[i].path != es[j].path && c.fold(es[i].path) != c.fold(es[j].path))
    && (forall i, j :: 0 <= i < |es| && 0 <= j < |es| ==> !ProperPrefix(PartsOf(es[i].path), PartsOf(es[j].path)))
  }

  predicate Valid(c: Codec, m: Manifest) {
    && 0 < |m.entries| <= m.maxEntries
    && ValidPaths(c, m.entries)
    && (forall i :: 0 <= i < |m.entries| - 1 ==> Ordered(m.entries[i], m.entries[i + 1]))
    && (forall i :: 0 <= i < |m.entries| ==> m.entries[i].size <= m.maxEntryBytes)
    && SizeOf(m.entries, |m.entries|) <= m.maxTotalBytes
    && (exists i :: 0 <= i < |m.entries| && Names(m.entries[i], m.output))
    && (exists i :: 0 <= i < |m.entries| && Names(m.entries[i], m.verification))
    && ValidLoads(m)
  }

  /* ---------- materialisation ---------- */

  /** The verified bytes of an entry's artifact. */
  function ReadVerified(c: Codec, a: Artifacts, e: Entry): Option<Bytes> {
    if e.reference !in a then None
    else
      var s := a[e.reference];
      if s.digest != e.digest || s.size != e.size || c.digest(s.content) != e.digest || |s.content| != e.size
         || s.media != e.media || s.sensitivity != e.sensitivity || !s.usable
      then None else Some(s.content)
  }

  predicate Readable(c: Codec, a: Artifacts, e: Entry) { ReadVerified(c, a, e).Some? }

  function Ancestors(p: Parts): set<Parts> { set i | 0 < i < |p| :: p[..i] }

  /** Creates the parent directories, then the file exclusively; None when a name is taken. */
  function WriteNew(t: Tree, p: Parts, content: Bytes): Option<Tree> {
    if p in t.files || p in t.dirs || Ancestors(p) * t.files.Keys != {} then None
    else Some(Tree(t.files[p := content], t.dirs + Ancestors(p)))
  }

  datatype Progress = Progress(tree: Tree, written: seq<Written>, omitted: seq<string>)

  function AddEntry(c: Codec, a: Artifacts, p: Progress, e: Entry): Result<Progress> {
    match ReadVerified(c, a, e)
    case None => if e.required then Refused(ContextError) else Ok(p.(omitted := p.omitted + [e.path]))
    case Some(content) =>
      match WriteNew(p.tree, PlaceOf(c, e.path), content)
      case None => Refused(Conflict)
      case Some(tree) =>
        Ok(p.(tree := tree, written := p.written + [Written(e.path, e.reference, e.digest, |content|)]))
  }

  const Empty := Progress(Tree(map[], {}), [], [])

  function Gather(c: Codec, a: Artifacts, es: seq<Entry>, n: nat): Result<Progress>
    requires n <= |es|
  {
    if n == 0 then Ok(Empty)
    else match Gather(c, a, es, n - 1) case Refused(code) => Refused(code) case Ok(p) => AddEntry(c, a, p, es[n - 1])
  }

  function TotalBytes(ws: seq<Written>, n: nat): nat
    requires n <= |ws|
  {
    if n == 0 then 0 else TotalBytes(ws, n - 1) + ws[n - 1].size
  }

  function ResultOf(c: Codec, m: Manifest, p: Progress): Materialization {
    Materialization(c.fingerprint(m), c.treeDigest(p.written), p.written, p.omitted, TotalBytes(p.written, |p.written|))
  }

  function Finish(c: Codec, m: Manifest, p: Progress): Result<(Tree, Materialization)> {
    var result := ResultOf(c, m, p);
    match WriteNew(p.tree, Metadata(c), c.metadata(m, result))
    case None => Refused(Conflict)
    case Some(tree) => Ok((tree, result))
  }

  function Materialize(c: Codec, a: Artifacts, m: Manifest): Result<(Tree, Materialization)> {
    match Gather(c, a, m.entries, |m.entries|) case Refused(code) => Refused(code) case Ok(p) => Finish(c, m, p)
  }

  predicate FileMatches(c: Codec, t: Tree, w: Written) {
    && PlaceOf(c, w.path) in t.files
    && c.digest(t.files[PlaceOf(c, w.path)]) == w.digest
    && |t.files[PlaceOf(c, w.path)]| == w.size
  }

  predicate Verify(c: Codec, m: Manifest, r: Materialization, t: Tree) {
    && r.fingerprint == c.fingerprint(m)
    && (forall i :: 0 <= i < |r.entries| ==> FileMatches(c, t, r.entries[i]))
    && Metadata(c) in t.files && t.files[Metadata(c)] == c.metadata(m, r)
    && c.treeDigest(r.entries) == r.treeDigest
  }

  /* ---------- which packs collide ---------- */

  /** Entry `i` is among the first `n` and was read. */
  predicate Placed(c: Codec, a: Artifacts, es: seq<Entry>, n: nat, i: nat) { i < n <= |es| && Readable(c, a, es[i]) }

  /** Two files can be at these places at once. */
  predicate Apart(p: Parts, q: Parts) { p != q && !ProperPrefix(p, q) && !ProperPrefix(q, p) }

  /** No two entries read so far contend for a place. */
  ghost predicate ClearUpTo(c: Codec, a: Artifacts, es: seq<Entry>, n: nat)
    requires n <= |es|
  {
    forall i: nat, j: nat :: i < j && Placed(c, a, es, n, i) && Placed(c, a, es, n, j) ==>
      Apart(PlaceOf(c, es[i].path), PlaceOf(c, es[j].path))
  }

  /** Nor does any contend with the metadata file. */
  ghost predicate Clear(c: Codec, a: Artifacts, es: seq<Entry>) {
    && ClearUpTo(c, a, es, |es|)
    && forall i: nat :: Placed(c, a, es, |es|, i) ==> Apart(PlaceOf(c, es[i].path), Metadata(c))
  }

  ghost predicate FilesAre(c: Codec, a: Artifacts, es: seq<Entry>, n: nat, files: map<Parts, Bytes>)
    requires n <= |es|
  {
    && (forall q :: q in files ==> exists i: nat :: Placed(c, a, es, n, i) && PlaceOf(c, es[i].path) == q)
    && (forall i: nat :: Placed(c, a, es, n, i) ==>
          PlaceOf(c, es[i].path) in files && Some(files[PlaceOf(c, es[i].path)]) == ReadVerified(c, a, es[i]))
  }

  ghost predicate DirsAre(c: Codec, a: Artifacts, es: seq<Entry>, n: nat, dirs: set<Parts>)
    requires n <= |es|
  {
    forall q :: q in dirs <==>
      q != [] && exists i: nat :: Placed(c, a, es, n, i) && ProperPrefix(q, PlaceOf(c, es[i].path))
  }

  /** The entries written and omitted, in manifest order. */
  function WrittenOf(c: Codec, a: Artifacts, es: seq<Entry>, n: nat): seq<Written>
    requires n <= |es|
  {
    if n == 0 then []
    else WrittenOf(c, a, es, n - 1)
         + if Readable(c, a, es[n - 1])
           then [Written(es[n - 1].path, es[n - 1].reference, es[n - 1].digest, es[n - 1].size)] else []
  }

  function OmittedOf(c: Codec, a: Artifacts, es: seq<Entry>, n: nat): seq<string>
    requires n <= |es|
  {
    if n == 0 then [] else OmittedOf(c, a, es, n - 1) + if Readable(c, a, es[n - 1]) then [] else [es[n - 1].path]
  }

  ghost predicate Gathered(c: Codec, a: Artifacts, es: seq<Entry>, n: nat, p: Progress)
    requires n <= |es|
  {
    && FilesAre(c, a, es, n, p.tree.files)
    && DirsAre(c, a, es, n, p.tree.dirs)
    && p.written == WrittenOf(c, a, es, n)
    && p.omitted == OmittedOf(c, a, es, n)
  }

  predicate RequiredReadable(c: Codec, a: Artifacts, es: seq<Entry>, n: nat)
    requires n <= |es|
  {
    forall i :: 0 <= i < n && es[i].required ==> Readable(c, a, es[i])
  }

  predicate SafePaths(c: Codec, es: seq<Entry>) { forall i :: 0 <= i < |es| ==> SafePath(c, es[i].path) }

  lemma AncestorIsPrefix(q: Parts, p: Parts)
    ensures q in Ancestors(p) <==> ProperPrefix(q, p) && q != []
  {
    if ProperPrefix(q, p) && q != [] { assert p[..|q|] in Ancestors(p); }
  }

  /** The place is apart from those of all entries read so far. */
  ghost predicate ApartFromAll(c: Codec, a: Artifacts, es: seq<Entry>, n: nat, p: Parts)
    requires n <= |es|
  {
    forall i: nat :: Placed(c, a, es, n, i) ==> Apart(PlaceOf(c, es[i].path), p)
  }

  lemma PlacesAreNotEmpty(c: Codec, es: seq<Entry>, i: nat)
    requires SafePaths(c, es) && i < |es|
    ensures PlaceOf(c, es[i].path) != []
  {
    assert SafePath(c, es[i].path);
  }

  /** Exclusive creation succeeds exactly apart from everything that was written. */
  lemma RoomExactly(c: Codec, a: Artifacts, es: seq<Entry>, n: nat, t: Tree, p: Parts, content: Bytes)
    requires SafePaths(c, es) && n <= |es| && p != [] && FilesAre(c, a, es, n, t.files) && DirsAre(c, a, es, n, t.dirs)
    ensures WriteNew(t, p, content).Some? <==> ApartFromAll(c, a, es, n, p)
  {
    if ApartFromAll(c, a, es, n, p) {
      forall q | q in t.files ensures q != p && q !in Ancestors(p) {
        var i: nat :| Placed(c, a, es, n, i) && PlaceOf(c, es[i].path) == q;
        AncestorIsPrefix(q, p);
      }
    } else {
      var i: nat :| Placed(c, a, es, n, i) && !Apart(PlaceOf(c, es[i].path), p);
      PlacesAreNotEmpty(c, es, i);
      AncestorIsPrefix(PlaceOf(c, es[i].path), p);
      if PlaceOf(c, es[i].path) in Ancestors(p) { assert PlaceOf(c, es[i].path) in Ancestors(p) * t.files.Keys; }
    }
  }

  lemma FilesGrow(c: Codec, a: Artifacts, es: seq<Entry>, n: nat, files: map<Parts, Bytes>)
    requires n < |es| && FilesAre(c, a, es, n, files) && Readable(c, a, es[n])
    requires ApartFromAll(c, a, es, n, PlaceOf(c, es[n].path))
    ensures FilesAre(c, a, es, n + 1, files[PlaceOf(c, es[n].path) := ReadVerified(c, a, es[n]).value])
  {
    var p := PlaceOf(c, es[n].path);
    var next := files[p := ReadVerified(c, a, es[n]).value];
    forall q | q in next ensures exists i: nat :: Placed(c, a, es, n + 1, i) && PlaceOf(c, es[i].path) == q {
      if q == p {
        assert Placed(c, a, es, n + 1, n);
      } else {
        var i: nat :| Placed(c, a, es, n, i) && PlaceOf(c, es[i].path) == q;
        assert Placed(c, a, es, n + 1, i);
      }
    }
    forall i: nat | Placed(c, a, es, n + 1, i)
      ensures PlaceOf(c, es[i].path) in next && Some(next[PlaceOf(c, es[i].path)]) == ReadVerified(c, a, es[i])
    {
      if i < n { assert Placed(c, a, es, n, i); }
    }
  }

  lemma FilesStay(c: Codec, a: Artifacts, es: seq<Entry>, n: nat, files: map<Parts, Bytes>)
    requires n < |es| && FilesAre(c, a, es, n, files) && !Readable(c, a, es[n])
    ensures FilesAre(c, a, es, n + 1, files)
  {
    forall q | q in files ensures exists i: nat :: Placed(c, a, es, n + 1, i) && PlaceOf(c, es[i].path) == q {
      var i: nat :| Placed(c, a, es, n, i) && PlaceOf(c, es[i].path) == q;
      assert Placed(c, a, es, n + 1, i);
    }
    forall i: nat | Placed(c, a, es, n + 1, i)
      ensures PlaceOf(c, es[i].path) in files && Some(files[PlaceOf(c, es[i].path)]) == ReadVerified(c, a, es[i])
    {
      assert Placed(c, a, es, n, i);
    }
  }

  lemma PlacedNext(c: Codec, a: Artifacts, es: seq<Entry>, n: nat, i: nat)
    requires n < |es|
    ensures Placed(c, a, es, n + 1, i) <==> Placed(c, a, es, n, i) || (i == n && Readable(c, a, es[n]))
  {}

  lemma DirsGrow(c: Codec, a: Artifacts, es: seq<Entry>, n: nat, dirs: set<Parts>)
    requires n < |es| && DirsAre(c, a, es, n, dirs)
    ensures DirsAre(c, a, es, n + 1, if Readable(c, a, es[n]) then dirs + Ancestors(PlaceOf(c, es[n].path)) else dirs)
  {
    var next := if Readable(c, a, es[n]) then dirs + Ancestors(PlaceOf(c, es[n].path)) else dirs;
    forall q
      ensures q in next <==>
              q != [] && exists i: nat :: Placed(c, a, es, n + 1, i) && ProperPrefix(q, PlaceOf(c, es[i].path))
    {
      AncestorIsPrefix(q, PlaceOf(c, es[n].path));
      PlacedNext(c, a, es, n, n);
      if q in dirs {
        var i: nat :| Placed(c, a, es, n, i) && ProperPrefix(q, PlaceOf(c, es[i].path));
        PlacedNext(c, a, es, n, i);
      }
      if i: nat :| Placed(c, a, es, n + 1, i) && ProperPrefix(q, PlaceOf(c, es[i].path)) {
        PlacedNext(c, a, es, n, i);
      }
    }
  }

  /** Clear places stay clear exactly when the next is apart from them. */
  lemma ClearNext(c: Codec, a: Artifacts, es: seq<Entry>, n: nat)
    requires n < |es|
    ensures ClearUpTo(c, a, es, n + 1) <==>
            ClearUpTo(c, a, es, n) && (Readable(c, a, es[n]) ==> ApartFromAll(c, a, es, n, PlaceOf(c, es[n].path)))
  {
    forall i: nat ensures Placed(c, a, es, n + 1, i) <==> Placed(c, a, es, n, i) || (i == n && Readable(c, a, es[n])) {
      PlacedNext(c, a, es, n, i);
    }
  }

  /** One entry: added exactly when it is not a required entry that cannot be read, and has room. */
  lemma AddExactly(c: Codec, a: Artifacts, es: seq<Entry>, n: nat, p: Progress)
    requires SafePaths(c, es) && n < |es| && Gathered(c, a, es, n, p)
    ensures var room := Readable(c, a, es[n]) ==> ApartFromAll(c, a, es, n, PlaceOf(c, es[n].path));
            var r := AddEntry(c, a, p, es[n]);
            && (r.Ok? <==> (es[n].required ==> Readable(c, a, es[n])) && room)
            && (r.Ok? ==> Gathered(c, a, es, n + 1, r.value))
            && (r.Refused? ==> r.code == if Readable(c, a, es[n]) then Conflict else ContextError)
  {
    DirsGrow(c, a, es, n, p.tree.dirs);
    if Readable(c, a, es[n]) {
      PlacesAreNotEmpty(c, es, n);
      RoomExactly(c, a, es, n, p.tree, PlaceOf(c, es[n].path), ReadVerified(c, a, es[n]).value);
      if ApartFromAll(c, a, es, n, PlaceOf(c, es[n].path)) { FilesGrow(c, a, es, n, p.tree.files); }
    } else {
      FilesStay(c, a, es, n, p.tree.files);
    }
  }

  lemma RequiredNext(c: Codec, a: Artifacts, es: seq<Entry>, n: nat)
    requires n < |es|
    ensures RequiredReadable(c, a, es, n + 1) <==>
            RequiredReadable(c, a, es, n) && (es[n].required ==> Readable(c, a, es[n]))
  {}

  /** What a gathering of the first `n` entries says of them. */
  ghost predicate GatherSays(c: Codec, a: Artifacts, es: seq<Entry>, n: nat, r: Result<Progress>)
    requires n <= |es|
  {
    match r
    case Ok(p) => RequiredReadable(c, a, es, n) && ClearUpTo(c, a, es, n) && Gathered(c, a, es, n, p)
    case Refused(code) =>
      if code == ContextError then !RequiredReadable(c, a, es, n) else code == Conflict && !ClearUpTo(c, a, es, n)
  }

  lemma AddSays(c: Codec, a: Artifacts, es: seq<Entry>, n: nat, p: Progress)
    requires SafePaths(c, es) && n < |es| && GatherSays(c, a, es, n, Ok(p))
    ensures GatherSays(c, a, es, n + 1, AddEntry(c, a, p, es[n]))
  {
    ClearNext(c, a, es, n);
    RequiredNext(c, a, es, n);
    AddExactly(c, a, es, n, p);
  }

  lemma RefusalSays(c: Codec, a: Artifacts, es: seq<Entry>, n: nat, code: Code)
    requires n < |es| && GatherSays(c, a, es, n, Refused(code))
    ensures GatherSays(c, a, es, n + 1, Refused(code))
  {
    ClearNext(c, a, es, n);
    RequiredNext(c, a, es, n);
  }

  lemma {:induction false} GatherExactly(c: Codec, a: Artifacts, es: seq<Entry>, n: nat)
    requires SafePaths(c, es) && n <= |es|
    ensures GatherSays(c, a, es, n, Gather(c, a, es, n))
  {
    if n > 0 {
      GatherExactly(c, a, es, n - 1);
      match Gather(c, a, es, n - 1)
      case Ok(p) => AddSays(c, a, es, n - 1, p);
      case Refused(code) => RefusalSays(c, a, es, n - 1, code);
    }
  }

  /* ---------- the result ---------- */

  /** The files of a finished pack: one per readable entry at its own place, and the metadata. */
  ghost predicate HoldsPack(c: Codec, a: Artifacts, m: Manifest, t: Tree, r: Materialization) {
    && Metadata(c) in t.files && t.files[Metadata(c)] == c.metadata(m, r)
    && FilesAre(c, a, m.entries, |m.entries|, t.files - {Metadata(c)})
  }

  lemma FinishHolds(c: Codec, a: Artifacts, m: Manifest, p: Progress, t: Tree)
    requires Gathered(c, a, m.entries, |m.entries|, p) && Metadata(c) !in p.tree.files
    requires t.files == p.tree.files[Metadata(c) := c.metadata(m, ResultOf(c, m, p))]
    ensures HoldsPack(c, a, m, t, ResultOf(c, m, p))
  {
    var content := c.metadata(m, ResultOf(c, m, p));
    assert p.tree.files[Metadata(c) := content] - {Metadata(c)} == p.tree.files;
  }

  lemma FinishExactly(c: Codec, a: Artifacts, m: Manifest, p: Progress)
    requires SafePaths(c, m.entries) && Gathered(c, a, m.entries, |m.entries|, p)
    ensures Finish(c, m, p).Ok? <==> ApartFromAll(c, a, m.entries, |m.entries|, Metadata(c))
    ensures Finish(c, m, p).Ok? ==>
              HoldsPack(c, a, m, Finish(c, m, p).value.0, ResultOf(c, m, p))
                && Finish(c, m, p).value.1 == ResultOf(c, m, p)
    ensures Finish(c, m, p).Refused? ==> Finish(c, m, p).code == Conflict
  {
    var content := c.metadata(m, ResultOf(c, m, p));
    RoomExactly(c, a, m.entries, |m.entries|, p.tree, Metadata(c), content);
    if Finish(c, m, p).Ok? { FinishHolds(c, a, m, p, Finish(c, m, p).value.0); }
  }

  /** On any file system, materialisation succeeds exactly when every required entry can be read and the
      readable entries do not contend for a place; it then writes exactly those entries. */
  lemma MaterializesExactly(c: Codec, a: Artifacts, m: Manifest)
    requires Valid(c, m)
    ensures Materialize(c, a, m).Ok? <==> RequiredReadable(c, a, m.entries, |m.entries|) && Clear(c, a, m.entries)
    ensures Materialize(c, a, m).Ok? ==>
              && HoldsPack(c, a, m, Materialize(c, a, m).value.0, Materialize(c, a, m).value.1)
              && Materialize(c, a, m).value.1.entries == WrittenOf(c, a, m.entries, |m.entries|)
              && Materialize(c, a, m).value.1.omitted == OmittedOf(c, a, m.entries, |m.entries|)
    ensures Materialize(c, a, m) == Refused(ContextError) ==> !RequiredReadable(c, a, m.entries, |m.entries|)
    ensures Materialize(c, a, m).Refused? && Materialize(c, a, m).code != ContextError ==>
              Materialize(c, a, m).code == Conflict && !Clear(c, a, m.entries)
  {
    GatherExactly(c, a, m.entries, |m.entries|);
    if Gather(c, a, m.entries, |m.entries|).Ok? { FinishExactly(c, a, m, Gather(c, a, m.entries, |m.entries|).value); }
  }

  /* ---------- where case matters ---------- */

  ghost predicate CaseMatters(c: Codec) { forall component :: c.name(component) == component }

  lemma PlaceIsParts(c: Codec, path: string)
    requires CaseMatters(c)
    ensures PlaceOf(c, path) == PartsOf(path) && Metadata(c) == [".mishkan", "context-pack.json"]
  {}

  lemma PrefixKeepsFirst(q: Parts, p: Parts)
    ensures ProperPrefix(q, p) && q != [] ==> q[0] == p[0]
  {
    if ProperPrefix(q, p) && q != [] { assert p[..|q|][0] == p[0]; }
  }

  /** The metadata file's own place is never taken. */
  lemma OutsideReserved(c: Codec, path: string)
    requires CaseMatters(c) && SafePath(c, path)
    ensures Apart(PlaceOf(c, path), Metadata(c))
  {
    PlaceIsParts(c, path);
    PrefixKeepsFirst(PartsOf(path), Metadata(c));
    PrefixKeepsFirst(Metadata(c), PartsOf(path));
  }

  lemma DistinctPathsAreApart(c: Codec, es: seq<Entry>, i: nat, j: nat)
    requires CaseMatters(c) && ValidPaths(c, es) && i < j < |es|
    ensures Apart(PlaceOf(c, es[i].path), PlaceOf(c, es[j].path))
  {
    PlaceIsParts(c, es[i].path);
    PlaceIsParts(c, es[j].path);
    if PartsOf(es[i].path) == PartsOf(es[j].path) { PathsAreTheirParts(c, es[i].path, es[j].path); }
  }

  /** Where case matters, a valid manifest never collides: no path is written twice, no file is needed as a
      directory, and nothing touches the metadata file. */
  lemma ValidPacksNeverCollide(c: Codec, a: Artifacts, m: Manifest)
    requires CaseMatters(c) && Valid(c, m)
    ensures Clear(c, a, m.entries)
    ensures Materialize(c, a, m).Ok? <==> RequiredReadable(c, a, m.entries, |m.entries|)
    ensures Materialize(c, a, m).Refused? ==> Materialize(c, a, m).code == ContextError
  {
    forall i: nat, j: nat | i < j && Placed(c, a, m.entries, |m.entries|, i) && Placed(c, a, m.entries, |m.entries|, j)
      ensures Apart(PlaceOf(c, m.entries[i].path), PlaceOf(c, m.entries[j].path))
    {
      DistinctPathsAreApart(c, m.entries, i, j);
    }
    forall i: nat | Placed(c, a, m.entries, |m.entries|, i) ensures Apart(PlaceOf(c, m.entries[i].path), Metadata(c)) {
      OutsideReserved(c, m.entries[i].path);
    }
    MaterializesExactly(c, a, m);
  }

  /* ---------- where it does not ---------- */

  lemma PartsOfName(path: string)
    requires '/' !in path && path != "" && path != "."
    ensures PartsOf(path) == [path] && Components(path) == [path]
  {
    OneComponent(path);
    assert [path][1..] == [] && Kept([path][1..]) == [];
  }

  lemma {:induction false} OneComponent(path: string)
    requires '/' !in path
    ensures Components(path) == [path]
  {
    if path != "" {
      OneComponent(path[1..]);
      assert path == [path[0]] + path[1..];
    }
  }

  lemma {:induction false} TwoComponents(dir: string, name: string)
    requires '/' !in dir && '/' !in name
    ensures Components(dir + "/" + name) == [dir, name]
  {
    var path := dir + "/" + name;
    if dir == "" {
      OneComponent(name);
      assert path == "/" + name && path[1..] == name;
    } else {
      TwoComponents(dir[1..], name);
      assert path[1..] == dir[1..] + "/" + name;
      assert dir == [dir[0]] + dir[1..];
    }
  }

  lemma FoldedParts(c: Codec, file: string, dir: string, name: string)
    requires SafePath(c, file) && SafePath(c, dir + "/" + name) && '/' !in file && '/' !in dir && '/' !in name
    ensures PartsOf(file) == [file] && PartsOf(dir + "/" + name) == [dir, name]
  {
    SafePathExactly(c, file);
    SafePathExactly(c, dir + "/" + name);
    PartsOfTwo(dir, name);
    PartsOfName(file);
  }

  /** A file and another one below a directory of the same folded name pass the path rules. */
  lemma FoldedPathsAreValid(c: Codec, es: seq<Entry>, file: string, dir: string, name: string)
    requires |es| == 2 && es[0].path == file && es[1].path == dir + "/" + name
    requires SafePath(c, file) && SafePath(c, es[1].path) && '/' !in file && '/' !in dir && '/' !in name
    requires file != dir && c.fold(file) != c.fold(es[1].path)
    ensures ValidPaths(c, es)
  {
    FoldedParts(c, file, dir, name);
    assert [dir, name][0] == dir;
    assert es[0].path != es[1].path by { assert PartsOf(file) != PartsOf(dir + "/" + name); }
  }

  /** They contend for a place wherever both are read on a file system that does not tell the names apart. */
  lemma FoldedDirectoryContends(c: Codec, a: Artifacts, es: seq<Entry>, file: string, dir: string, name: string)
    requires |es| == 2 && es[0].path == file && es[1].path == dir + "/" + name
    requires SafePath(c, file) && SafePath(c, es[1].path) && '/' !in file && '/' !in dir && '/' !in name
    requires c.name(file) == c.name(dir)
    ensures Readable(c, a, es[0]) && Readable(c, a, es[1]) ==> !Clear(c, a, es)
  {
    FoldedParts(c, file, dir, name);
    var below, above := PlaceOf(c, es[1].path), PlaceOf(c, es[0].path);
    assert above[0] == c.name(PartsOf(file)[0]) && below[0] == c.name(PartsOf(es[1].path)[0]);
    assert below[..1] == above;
    if Readable(c, a, es[0]) && Readable(c, a, es[1]) { assert Placed(c, a, es, 2, 0) && Placed(c, a, es, 2, 1); }
  }

  /** An artifact that passes every check of the reader. */
  predicate Intact(c: Codec, s: Stored) { s.usable && c.digest(s.content) == s.digest && |s.content| == s.size }

  function Listed(path: string, order: nat, reference: Text, s: Stored): Entry {
    Entry(path, order, reference, s.digest, s.size, s.media, s.sensitivity, true)
  }

  /** A manifest of two required entries, one the output contract and the other the verification contract. */
  function Contracts(a: Artifacts, task: Text, identity: Text, path: string, x: Text, other: string, y: Text): Manifest
    requires x in a && y in a
  {
    Manifest([Listed(path, 0, x, a[x]), Listed(other, 1, y, a[y])], task, identity, (x, a[x].digest), (y, a[y].digest),
             2, a[x].size + a[y].size, a[x].size + a[y].size, [])
  }

  /** The validator folds whole paths only: a manifest of an intact file and an intact one below a directory of
      the same folded name is valid, and on a file system that does not tell the names apart it is refused. */
  lemma FoldedDirectoryCollides(
    c: Codec, a: Artifacts, task: Text, identity: Text, file: string, dir: string, name: string, x: Text, y: Text)
    requires x in a && y in a && Intact(c, a[x]) && Intact(c, a[y])
    requires SafePath(c, file) && SafePath(c, dir + "/" + name) && '/' !in file && '/' !in dir && '/' !in name
    requires file != dir && c.name(file) == c.name(dir) && c.fold(file) != c.fold(dir + "/" + name)
    ensures var m := Contracts(a, task, identity, file, x, dir + "/" + name, y);
            Valid(c, m) && Materialize(c, a, m) == Refused(Conflict)
  {
    var m := Contracts(a, task, identity, file, x, dir + "/" + name, y);
    FoldedPathsAreValid(c, m.entries, file, dir, name);
    FoldedDirectoryContends(c, a, m.entries, file, dir, name);
    ContractsAreValid(c, a, task, identity, file, x, dir + "/" + name, y);
    MaterializesExactly(c, a, m);
  }

  lemma ContractsAreValid(
    c: Codec, a: Artifacts, task: Text, identity: Text, path: string, x: Text, other: string, y: Text)
    requires x in a && y in a && Intact(c, a[x]) && Intact(c, a[y])
    requires ValidPaths(c, Contracts(a, task, identity, path, x, other, y).entries)
    ensures var m := Contracts(a, task, identity, path, x, other, y);
            Valid(c, m) && RequiredReadable(c, a, m.entries, 2) && Readable(c, a, m.entries[0])
            && Readable(c, a, m.entries[1])
  {
    var m := Contracts(a, task, identity, path, x, other, y);
    var es := m.entries;
    assert Names(es[0], m.output) && Names(es[1], m.verification);
    assert SizeOf(es, 2) == SizeOf(es, 1) + es[1].size && SizeOf(es, 1) == SizeOf(es, 0) + es[0].size;
  }

  lemma PartsOfTwo(dir: string, name: string)
    requires '/' !in dir && '/' !in name
    ensures '/' in dir + "/" + name && Components(dir + "/" + name) == [dir, name]
    ensures Proper(Components(dir + "/" + name)[0]) && Proper(Components(dir + "/" + name)[1]) ==>
              PartsOf(dir + "/" + name) == [dir, name]
  {
    TwoComponents(dir, name);
    KeptWeight([dir, name]);
    assert (dir + "/")[|dir|] == '/';
    assert (dir + "/" + name)[|dir|] == (dir + "/")[|dir|];
    assert (dir + "/" + name)[|dir|] in dir + "/" + name;
  }
}
