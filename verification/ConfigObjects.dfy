/** Documents as the interpreter holds them: mappings are objects with an identity, an alias in a file
    makes two positions share one, and the deep merge updates them in place. */
module ConfigObjects {
  import opened Outcomes
  import opened Listings
  import opened ConfigMerge

  type Node = nat

  /** A sequence is never changed, but may hold mapping objects. */
  datatype Value = Plain(value: int) | Listed(items: seq<Value>) | At(node: Node)

  type Heap = map<Node, map<Key, Value>>

  /** The order in which a mapping object yields its keys. */
  type Order = (Node, set<Key>) -> seq<Key>

  ghost predicate Ordering(order: Order) {
    forall n, ks :: Elements(order(n, ks)) == ks && NoRepeats(order(n, ks))
  }

  predicate NoRepeats(q: seq<Key>) { forall i, j :: 0 <= i < j < |q| ==> q[i] != q[j] }

  /* ---------- what an object holds ---------- */

  /** The value holds the content `j`; only finite content is held, so no mapping contains itself. */
  predicate Holds(h: Heap, v: Value, j: Json)
    decreases j
  {
    match j
    case Scalar(x) => v == Plain(x)
    case Sequence(items) =>
      v.Listed? && |v.items| == |items| && forall i :: 0 <= i < |items| ==> Holds(h, v.items[i], items[i])
    case Mapping(entries) =>
      && v.At? && v.node in h && h[v.node].Keys == entries.Keys
      && forall k :: k in entries ==> Holds(h, h[v.node][k], entries[k])
  }

  /** All mapping objects that the content is held in. */
  function Foot(h: Heap, v: Value, j: Json): set<Node>
    requires Holds(h, v, j)
    decreases j
  {
    match j
    case Scalar(_) => {}
    case Sequence(items) => set i, n | 0 <= i < |items| && n in Foot(h, v.items[i], items[i]) :: n
    case Mapping(entries) => {v.node} + set k, n | k in entries && n in Foot(h, h[v.node][k], entries[k]) :: n
  }

  /** The mapping objects that a merge may update: those that keys alone lead to. */
  function Own(h: Heap, v: Value, j: Json): set<Node>
    requires Holds(h, v, j)
    decreases j
  {
    match j
    case Scalar(_) => {}
    case Sequence(_) => {}
    case Mapping(entries) => {v.node} + set k, n | k in entries && n in Own(h, h[v.node][k], entries[k]) :: n
  }

  /** What a merge may update is at one place only. */
  ghost predicate TreeLike(h: Heap, v: Value, j: Json)
    requires Holds(h, v, j)
    decreases j
  {
    j.Mapping? ==>
      && (forall k :: k in j.entries ==>
            TreeLike(h, h[v.node][k], j.entries[k]) && v.node !in Foot(h, h[v.node][k], j.entries[k]))
      && (forall k, l :: k in j.entries && l in j.entries && k != l ==>
            Own(h, h[v.node][k], j.entries[k]) !! Foot(h, h[v.node][l], j.entries[l]))
  }

  lemma {:induction false} OwnInFoot(h: Heap, v: Value, j: Json)
    requires Holds(h, v, j)
    ensures Own(h, v, j) <= Foot(h, v, j) <= h.Keys
    decreases j
  {
    match j
    case Scalar(_) =>
    case Sequence(items) =>
      forall i | 0 <= i < |items| ensures Foot(h, v.items[i], items[i]) <= h.Keys {
        OwnInFoot(h, v.items[i], items[i]);
      }
    case Mapping(entries) =>
      forall k | k in entries
        ensures Own(h, h[v.node][k], entries[k]) <= Foot(h, h[v.node][k], entries[k]) <= h.Keys
      {
        OwnInFoot(h, h[v.node][k], entries[k]);
      }
  }

  predicate SameOn(h: Heap, h': Heap, ns: set<Node>) { forall n :: n in ns ==> n in h && n in h' && h'[n] == h[n] }

  /** The content is held in another heap just as in the first. */
  ghost predicate AsBefore(h: Heap, h': Heap, v: Value, j: Json) {
    && Holds(h, v, j) && Holds(h', v, j)
    && Foot(h', v, j) == Foot(h, v, j) && Own(h', v, j) == Own(h, v, j)
    && (TreeLike(h, v, j) ==> TreeLike(h', v, j))
  }

  /** Content is unaffected by changes elsewhere. */
  lemma {:induction false} HeldStill(h: Heap, h': Heap, v: Value, j: Json)
    requires Holds(h, v, j) && SameOn(h, h', Foot(h, v, j))
    ensures AsBefore(h, h', v, j)
    decreases j
  {
    match j
    case Scalar(_) =>
    case Sequence(items) =>
      forall i | 0 <= i < |items| ensures AsBefore(h, h', v.items[i], items[i]) {
        HeldStill(h, h', v.items[i], items[i]);
      }
    case Mapping(entries) =>
      forall k | k in entries ensures AsBefore(h, h', h[v.node][k], entries[k]) {
        HeldStill(h, h', h[v.node][k], entries[k]);
      }
  }

  /* ---------- merging in place ---------- */

  /** The deep merge as the interpreter runs it. It stops at the recursion limit, or when a mapping grows
      while its entries are being visited. */
  function MergeInto(order: Order, h: Heap, t: Node, o: Node, limit: nat): Option<Heap>
    decreases limit, 1, 0
  {
    if limit == 0 || t !in h || o !in h then None else MergeItems(order, h, t, o, order(o, h[o].Keys), 0, limit)
  }

  function Set(h: Heap, t: Node, k: Key, v: Value): Heap
    requires t in h
  {
    h[t := h[t][k := v]]
  }

  /** What the loop does at one key of the overlay. */
  function MergeStep(order: Order, h: Heap, t: Node, o: Node, k: Key, limit: nat): Option<Heap>
    requires t in h && o in h && k in h[o] && limit > 0
    decreases limit, 0, 0
  {
    var value := h[o][k];
    if k in h[t] && h[t][k].At? && value.At? then MergeInto(order, h, h[t][k].node, value.node, limit - 1)
    else Some(Set(h, t, k, value))
  }

  /** The loop over the overlay's entries from index `i` on. */
  function MergeItems(order: Order, h: Heap, t: Node, o: Node, ks: seq<Key>, i: nat, limit: nat): Option<Heap>
    requires i <= |ks| && limit > 0
    decreases limit, 0, |ks| - i
  {
    if t !in h || o !in h || h[o].Keys != Elements(ks) then None
    else if i == |ks| then Some(h)
    else
      assert ks[i] in Elements(ks);
      match MergeStep(order, h, t, o, ks[i], limit)
      case None => None
      case Some(next) => MergeItems(order, next, t, o, ks, i + 1, limit)
  }

  /** The names of the leaves below a value, within the recursion limit. */
  function LeafNames(h: Heap, v: Value, prefix: string, limit: nat): Option<set<string>>
    decreases limit, 2
  {
    if limit == 0 then None
    else if !v.At? then Some(if prefix == "" then {} else {prefix})
    else if v.node !in h || exists k :: k in h[v.node] && ChildNames(h, v.node, k, prefix, limit) == None then None
    else Some(set k, s | k in h[v.node] && s in EntryNames(h, v.node, k, prefix, limit) :: s)
  }

  function ChildNames(h: Heap, n: Node, k: Key, prefix: string, limit: nat): Option<set<string>>
    requires limit > 0 && n in h && k in h[n]
    decreases limit, 0
  {
    LeafNames(h, h[n][k], Join(prefix, k), limit - 1)
  }

  function EntryNames(h: Heap, n: Node, k: Key, prefix: string, limit: nat): set<string>
    requires limit > 0 && n in h && k in h[n] && ChildNames(h, n, k, prefix, limit).Some?
    decreases limit, 1
  {
    Named(ChildNames(h, n, k, prefix, limit).value, Join(prefix, k))
  }

  /** The recursion that the content needs. */
  predicate Fits(j: Json, limit: nat)
    decreases j
  {
    limit > 0 && (j.Mapping? ==> forall k :: k in j.entries ==> Fits(j.entries[k], limit - 1))
  }

  lemma {:induction false} LeafNamesRead(h: Heap, v: Value, j: Json, prefix: string, limit: nat)
    requires Holds(h, v, j)
    ensures var names := LeafNames(h, v, prefix, limit);
            (names.Some? ==> names.value == LeafPaths(j, prefix)) && (Fits(j, limit) ==> names.Some?)
    decreases j
  {
    if limit > 0 && j.Mapping? {
      forall k | k in j.entries
        ensures var names := ChildNames(h, v.node, k, prefix, limit);
                && (names.Some? ==> names.value == LeafPaths(j.entries[k], Join(prefix, k)))
                && (Fits(j, limit) ==> names.Some?)
      {
        LeafNamesRead(h, h[v.node][k], j.entries[k], Join(prefix, k), limit - 1);
      }
      if LeafNames(h, v, prefix, limit).Some? { LeafNamesAgree(h, v, j, prefix, limit); }
    }
  }

  lemma LeafNamesAgree(h: Heap, v: Value, j: Json, prefix: string, limit: nat)
    requires limit > 0 && j.Mapping? && Holds(h, v, j) && LeafNames(h, v, prefix, limit).Some?
    requires forall k :: k in j.entries ==>
               ChildNames(h, v.node, k, prefix, limit) == Some(LeafPaths(j.entries[k], Join(prefix, k)))
    ensures LeafNames(h, v, prefix, limit).value == LeafPaths(j, prefix)
  {
    var names := LeafNames(h, v, prefix, limit).value;
    forall s ensures s in names <==> s in LeafPaths(j, prefix) {
      if s in names {
        var k :| k in h[v.node] && s in EntryNames(h, v.node, k, prefix, limit);
        assert k in j.entries && s in Named(LeafPaths(j.entries[k], Join(prefix, k)), Join(prefix, k));
      }
      if s in LeafPaths(j, prefix) {
        var k :| k in j.entries && s in Named(LeafPaths(j.entries[k], Join(prefix, k)), Join(prefix, k));
        assert s in EntryNames(h, v.node, k, prefix, limit);
      }
    }
  }

  /* ---------- one entry of a document ---------- */

  /** What one entry of an overlay makes of a mapping. */
  function PutEntry(target: Json, k: Key, value: Json): (r: Json)
    requires target.Mapping?
    ensures r.Mapping?
  {
    Mapping(target.entries[k := if k in target.entries && target.entries[k].Mapping? && value.Mapping?
                                then Merge(target.entries[k], value) else value])
  }

  /** The entries of the overlay with the keys from index `i` on, one after another. */
  function PutRest(target: Json, overlay: Json, ks: seq<Key>, i: nat): (r: Json)
    requires target.Mapping? && overlay.Mapping? && i <= |ks| && Elements(ks) == overlay.entries.Keys
    ensures r.Mapping?
    decreases |ks| - i
  {
    if i == |ks| then target
    else assert ks[i] in Elements(ks); PutRest(PutEntry(target, ks[i], overlay.entries[ks[i]]), overlay, ks, i + 1)
  }

  lemma {:induction false} PutRestAt(target: Json, overlay: Json, ks: seq<Key>, i: nat, k: Key)
    requires target.Mapping? && overlay.Mapping? && i <= |ks| && Elements(ks) == overlay.entries.Keys && NoRepeats(ks)
    ensures var r := PutRest(target, overlay, ks, i);
            && (k in ks[i..] ==> k in r.entries && r.entries[k] == PutEntry(target, k, overlay.entries[k]).entries[k])
            && (k !in ks[i..] ==> (k in r.entries <==> k in target.entries))
            && (k !in ks[i..] && k in target.entries ==> r.entries[k] == target.entries[k])
    decreases |ks| - i
  {
    if i < |ks| {
      assert ks[i] in Elements(ks);
      PutRestAt(PutEntry(target, ks[i], overlay.entries[ks[i]]), overlay, ks, i + 1, k);
      assert ks[i..] == [ks[i]] + ks[i + 1..];
      assert ks[i] !in ks[i + 1..];
    }
  }

  /** Entry by entry, in whatever order, the overlay is merged. */
  lemma PutAllIsMerge(target: Json, overlay: Json, ks: seq<Key>)
    requires target.Mapping? && overlay.Mapping? && Elements(ks) == overlay.entries.Keys && NoRepeats(ks)
    ensures PutRest(target, overlay, ks, 0) == Merge(target, overlay)
  {
    var whole, merged := PutRest(target, overlay, ks, 0).entries, Merge(target, overlay).entries;
    assert ks[0..] == ks;
    forall k ensures (k in whole <==> k in merged) && (k in merged ==> whole[k] == merged[k]) {
      PutRestAt(target, overlay, ks, 0, k);
      MergedEntry(target, overlay, k);
      assert k in ks <==> k in overlay.entries;
    }
    assert whole == merged;
  }

  /* ---------- replacing one entry of a mapping object ---------- */

  lemma EntryWithin(h: Heap, t: Node, j: Json, k: Key)
    requires Holds(h, At(t), j) && j.Mapping? && k in j.entries
    ensures Own(h, h[t][k], j.entries[k]) <= Own(h, At(t), j)
    ensures Foot(h, h[t][k], j.entries[k]) <= Foot(h, At(t), j)
    ensures TreeLike(h, At(t), j) ==> TreeLike(h, h[t][k], j.entries[k]) && t !in Foot(h, h[t][k], j.entries[k])
  {}

  lemma EntriesApart(h: Heap, t: Node, j: Json, k: Key, l: Key)
    requires Holds(h, At(t), j) && j.Mapping? && TreeLike(h, At(t), j) && k in j.entries && l in j.entries && k != l
    ensures Own(h, h[t][k], j.entries[k]) !! Foot(h, h[t][l], j.entries[l])
  {}

  function EntryOwn(h: Heap, t: Node, j: Json, k: Key): set<Node>
    requires Holds(h, At(t), j) && j.Mapping?
  {
    if k in j.entries then Own(h, h[t][k], j.entries[k]) else {}
  }

  function EntryFoot(h: Heap, t: Node, j: Json, k: Key): set<Node>
    requires Holds(h, At(t), j) && j.Mapping?
  {
    if k in j.entries then Foot(h, h[t][k], j.entries[k]) else {}
  }

  /** The entry at `k` of a mapping object now holds `i`, in its old objects and others from elsewhere. */
  ghost predicate Replaced(h: Heap, h': Heap, t: Node, j: Json, k: Key, i: Json, own: set<Node>, foot: set<Node>) {
    && Holds(h, At(t), j) && j.Mapping? && TreeLike(h, At(t), j)
    && t in h' && k in h'[t] && h'[t] == h[t][k := h'[t][k]]
    && (forall l :: l in j.entries && l != k ==> AsBefore(h, h', h[t][l], j.entries[l]))
    && Holds(h', h'[t][k], i) && TreeLike(h', h'[t][k], i)
    && Own(h', h'[t][k], i) <= EntryOwn(h, t, j, k) + own && Foot(h', h'[t][k], i) <= EntryFoot(h, t, j, k) + foot
    && own !! Foot(h, At(t), j) && foot !! Own(h, At(t), j)
  }

  lemma ReplacedHolds(h: Heap, h': Heap, t: Node, j: Json, k: Key, i: Json, own: set<Node>, foot: set<Node>)
    requires Replaced(h, h', t, j, k, i, own, foot)
    ensures Holds(h', At(t), Mapping(j.entries[k := i]))
  {
    forall l | l in j.entries && l != k ensures Holds(h', h'[t][l], j.entries[l]) {
      assert AsBefore(h, h', h[t][l], j.entries[l]);
    }
  }

  lemma ReplacedEntry(
    h: Heap, h': Heap, t: Node, j: Json, k: Key, i: Json, own: set<Node>, foot: set<Node>, l: Key)
    requires Replaced(h, h', t, j, k, i, own, foot) && (l == k || l in j.entries)
    requires Holds(h', At(t), Mapping(j.entries[k := i]))
    ensures var v, e := h'[t][l], j.entries[k := i][l];
            && TreeLike(h', v, e) && t !in Foot(h', v, e)
            && Own(h', v, e) <= Own(h, At(t), j) + own && Foot(h', v, e) <= Foot(h, At(t), j) + foot
  {
    if l in j.entries { EntryWithin(h, t, j, l); }
    if l != k { assert AsBefore(h, h', h[t][l], j.entries[l]); }
  }

  lemma ReplacedApart(
    h: Heap, h': Heap, t: Node, j: Json, k: Key, i: Json, own: set<Node>, foot: set<Node>, l: Key)
    requires Replaced(h, h', t, j, k, i, own, foot) && l in j.entries && l != k
    ensures Holds(h', h'[t][l], j.entries[l])
    ensures Own(h', h'[t][k], i) !! Foot(h', h'[t][l], j.entries[l])
    ensures Own(h', h'[t][l], j.entries[l]) !! Foot(h', h'[t][k], i)
  {
    assert AsBefore(h, h', h[t][l], j.entries[l]);
    EntryWithin(h, t, j, l);
    if k in j.entries {
      EntriesApart(h, t, j, k, l);
      EntriesApart(h, t, j, l, k);
    }
  }

  lemma OthersApart(
    h: Heap, h': Heap, t: Node, j: Json, k: Key, i: Json, own: set<Node>, foot: set<Node>, l: Key, m: Key)
    requires Replaced(h, h', t, j, k, i, own, foot) && l in j.entries && l != k && m in j.entries && m != k && l != m
    ensures Holds(h', h'[t][l], j.entries[l]) && Holds(h', h'[t][m], j.entries[m])
    ensures Own(h', h'[t][l], j.entries[l]) !! Foot(h', h'[t][m], j.entries[m])
  {
    assert AsBefore(h, h', h[t][l], j.entries[l]) && AsBefore(h, h', h[t][m], j.entries[m]);
    EntriesApart(h, t, j, l, m);
  }

  /** The mapping object is tree-like again. */
  lemma EntryReplaced(h: Heap, h': Heap, t: Node, j: Json, k: Key, i: Json, own: set<Node>, foot: set<Node>)
    requires Replaced(h, h', t, j, k, i, own, foot)
    ensures var j' := Mapping(j.entries[k := i]);
            && Holds(h', At(t), j') && TreeLike(h', At(t), j')
            && Own(h', At(t), j') <= Own(h, At(t), j) + own && Foot(h', At(t), j') <= Foot(h, At(t), j) + foot
  {
    var e := j.entries[k := i];
    ReplacedHolds(h, h', t, j, k, i, own, foot);
    forall l | l in e
      ensures TreeLike(h', h'[t][l], e[l]) && t !in Foot(h', h'[t][l], e[l])
      ensures Own(h', h'[t][l], e[l]) <= Own(h, At(t), j) + own
      ensures Foot(h', h'[t][l], e[l]) <= Foot(h, At(t), j) + foot
    {
      ReplacedEntry(h, h', t, j, k, i, own, foot, l);
    }
    forall l, m | l in e && m in e && l != m ensures Own(h', h'[t][l], e[l]) !! Foot(h', h'[t][m], e[m]) {
      if l == k { ReplacedApart(h, h', t, j, k, i, own, foot, m); }
      else if m == k { ReplacedApart(h, h', t, j, k, i, own, foot, l); }
      else { OthersApart(h, h', t, j, k, i, own, foot, l, m); }
    }
  }

  /* ---------- documents without aliases ---------- */

  /** Neither value's own objects occur in the other. */
  ghost predicate Apart(h: Heap, v: Value, j: Json, w: Value, i: Json) {
    && Holds(h, v, j) && Holds(h, w, i)
    && Own(h, v, j) !! Foot(h, w, i) && Foot(h, v, j) !! Own(h, w, i)
  }

  ghost predicate Tree(h: Heap, v: Value, j: Json) { Holds(h, v, j) && TreeLike(h, v, j) }

  /** Only the mapping objects in `ns` have changed. */
  predicate ChangesIn(h: Heap, h': Heap, ns: set<Node>) {
    h'.Keys == h.Keys && forall n :: n in h && n !in ns ==> h'[n] == h[n]
  }

  lemma HeldElsewhere(h: Heap, h': Heap, ns: set<Node>, v: Value, j: Json)
    requires ChangesIn(h, h', ns) && Holds(h, v, j) && Foot(h, v, j) !! ns
    ensures AsBefore(h, h', v, j)
  {
    OwnInFoot(h, v, j);
    HeldStill(h, h', v, j);
  }

  /** From `h` to `h'` the value has come to hold `j'` instead of `j`, with objects of the overlay added. */
  ghost predicate Landed(
    h: Heap, h': Heap, v: Value, j: Json, j': Json, own: set<Node>, foot: set<Node>, base: set<Node>)
  {
    && Tree(h, v, j) && Tree(h', v, j')
    && Own(h', v, j') <= Own(h, v, j) + own && Foot(h', v, j') <= Foot(h, v, j) + foot
    && ChangesIn(h, h', base)
  }

  /** Setting an entry to a value that is held apart. */
  lemma SetReplaces(h: Heap, t: Node, j: Json, k: Key, v: Value, i: Json)
    requires Tree(h, At(t), j) && j.Mapping? && Tree(h, v, i) && Apart(h, At(t), j, v, i)
    ensures Replaced(h, Set(h, t, k, v), t, j, k, i, Own(h, v, i), Foot(h, v, i))
  {
    var h' := Set(h, t, k, v);
    assert t in Own(h, At(t), j);
    forall l | l in j.entries && l != k ensures AsBefore(h, h', h[t][l], j.entries[l]) {
      EntryWithin(h, t, j, l);
      HeldElsewhere(h, h', {t}, h[t][l], j.entries[l]);
    }
    HeldElsewhere(h, h', {t}, v, i);
  }

  /** Merging into the mapping object at an entry. */
  lemma MergeReplaces(h: Heap, h': Heap, t: Node, j: Json, k: Key, i: Json, own: set<Node>, foot: set<Node>)
    requires Tree(h, At(t), j) && j.Mapping? && k in j.entries
    requires Landed(h, h', h[t][k], j.entries[k], i, own, foot, Own(h, h[t][k], j.entries[k]))
    requires own !! Foot(h, At(t), j) && foot !! Own(h, At(t), j)
    ensures Replaced(h, h', t, j, k, i, own, foot)
  {
    SiblingsStay(h, h', t, j, k);
  }

  lemma SiblingsStay(h: Heap, h': Heap, t: Node, j: Json, k: Key)
    requires Tree(h, At(t), j) && j.Mapping? && k in j.entries
    requires ChangesIn(h, h', Own(h, h[t][k], j.entries[k]))
    ensures t in h' && h'[t] == h[t]
    ensures forall l :: l in j.entries && l != k ==> AsBefore(h, h', h[t][l], j.entries[l])
  {
    EntryWithin(h, t, j, k);
    OwnInFoot(h, h[t][k], j.entries[k]);
    forall l | l in j.entries && l != k ensures AsBefore(h, h', h[t][l], j.entries[l]) {
      SiblingStays(h, h', t, j, k, l);
    }
  }

  lemma SiblingStays(h: Heap, h': Heap, t: Node, j: Json, k: Key, l: Key)
    requires Tree(h, At(t), j) && j.Mapping? && k in j.entries && l in j.entries && l != k
    requires ChangesIn(h, h', Own(h, h[t][k], j.entries[k]))
    ensures AsBefore(h, h', h[t][l], j.entries[l])
  {
    EntriesApart(h, t, j, k, l);
    HeldElsewhere(h, h', Own(h, h[t][k], j.entries[k]), h[t][l], j.entries[l]);
  }

  /* ---------- the loop over the overlay's entries ---------- */

  /** A target and an overlay between two entries; only objects in `base` change. */
  ghost predicate Ready(h: Heap, t: Node, jt: Json, o: Node, jo: Json, base: set<Node>) {
    && Tree(h, At(t), jt) && jt.Mapping? && Tree(h, At(o), jo) && jo.Mapping?
    && base !! Foot(h, At(o), jo) && t in base
  }

  /** An entry of the overlay that is still to come. */
  ghost predicate Waiting(h: Heap, t: Node, jt: Json, o: Node, jo: Json, base: set<Node>, k: Key)
    requires Ready(h, t, jt, o, jo, base)
  {
    && k in jo.entries && Apart(h, At(t), jt, h[o][k], jo.entries[k])
    && EntryOwn(h, t, jt, k) <= base
  }

  /** Both documents have a mapping at the key. */
  predicate Nested(jt: Json, jo: Json, k: Key)
    requires jt.Mapping? && jo.Mapping? && k in jo.entries
  {
    k in jt.entries && jt.entries[k].Mapping? && jo.entries[k].Mapping?
  }

  /** The entry has been put, and nothing outside `base` has changed. */
  ghost predicate Put(h: Heap, h': Heap, t: Node, jt: Json, o: Node, jo: Json, base: set<Node>, k: Key)
    requires Ready(h, t, jt, o, jo, base) && k in jo.entries
  {
    && Replaced(h, h', t, jt, k, PutEntry(jt, k, jo.entries[k]).entries[k],
                Own(h, h[o][k], jo.entries[k]), Foot(h, h[o][k], jo.entries[k]))
    && ChangesIn(h, h', base)
  }

  lemma SetPuts(h: Heap, t: Node, jt: Json, o: Node, jo: Json, base: set<Node>, k: Key)
    requires Ready(h, t, jt, o, jo, base) && Waiting(h, t, jt, o, jo, base, k) && !Nested(jt, jo, k)
    ensures Put(h, Set(h, t, k, h[o][k]), t, jt, o, jo, base, k)
  {
    EntryWithin(h, o, jo, k);
    SetReplaces(h, t, jt, k, h[o][k], jo.entries[k]);
  }

  lemma MergePuts(h: Heap, h': Heap, t: Node, jt: Json, o: Node, jo: Json, base: set<Node>, k: Key)
    requires Ready(h, t, jt, o, jo, base) && Waiting(h, t, jt, o, jo, base, k) && Nested(jt, jo, k)
    requires Landed(h, h', h[t][k], jt.entries[k], Merge(jt.entries[k], jo.entries[k]),
                    Own(h, h[o][k], jo.entries[k]), Foot(h, h[o][k], jo.entries[k]), Own(h, h[t][k], jt.entries[k]))
    ensures Put(h, h', t, jt, o, jo, base, k)
  {
    MergeReplaces(h, h', t, jt, k, Merge(jt.entries[k], jo.entries[k]),
                  Own(h, h[o][k], jo.entries[k]), Foot(h, h[o][k], jo.entries[k]));
  }

  ghost predicate LandedWith(
    h: Heap, h': Heap, t: Node, jt: Json, j: Json, o: Node, jo: Json, base: set<Node>)
  {
    Holds(h, At(o), jo) && Landed(h, h', At(t), jt, j, Own(h, At(o), jo), Foot(h, At(o), jo), base)
  }

  ghost predicate LandedAt(
    h: Heap, h': Heap, t: Node, jt: Json, j: Json, o: Node, jo: Json, base: set<Node>, k: Key)
    requires Holds(h, At(o), jo) && jo.Mapping? && k in jo.entries
  {
    Landed(h, h', At(t), jt, j, Own(h, h[o][k], jo.entries[k]), Foot(h, h[o][k], jo.entries[k]), base)
  }

  lemma PutLands(h: Heap, h': Heap, t: Node, jt: Json, o: Node, jo: Json, base: set<Node>, k: Key)
    requires Ready(h, t, jt, o, jo, base) && Waiting(h, t, jt, o, jo, base, k) && Put(h, h', t, jt, o, jo, base, k)
    ensures LandedAt(h, h', t, jt, PutEntry(jt, k, jo.entries[k]), o, jo, base, k)
    ensures AsBefore(h, h', At(o), jo) && h'[o] == h[o] && Ready(h', t, PutEntry(jt, k, jo.entries[k]), o, jo, base)
  {
    var i := PutEntry(jt, k, jo.entries[k]).entries[k];
    EntryReplaced(h, h', t, jt, k, i, Own(h, h[o][k], jo.entries[k]), Foot(h, h[o][k], jo.entries[k]));
    assert PutEntry(jt, k, jo.entries[k]) == Mapping(jt.entries[k := i]);
    OwnInFoot(h, At(o), jo);
    assert o in Foot(h, At(o), jo);
    HeldElsewhere(h, h', base, At(o), jo);
  }

  lemma StillWaiting(h: Heap, h': Heap, t: Node, jt: Json, o: Node, jo: Json, base: set<Node>, k: Key, l: Key)
    requires Ready(h, t, jt, o, jo, base) && Waiting(h, t, jt, o, jo, base, k) && Put(h, h', t, jt, o, jo, base, k)
    requires Waiting(h, t, jt, o, jo, base, l) && l != k
    requires Ready(h', t, PutEntry(jt, k, jo.entries[k]), o, jo, base) && h'[o] == h[o]
    requires LandedAt(h, h', t, jt, PutEntry(jt, k, jo.entries[k]), o, jo, base, k)
    ensures Waiting(h', t, PutEntry(jt, k, jo.entries[k]), o, jo, base, l)
  {
    EntryStays(h, h', t, jt, k, PutEntry(jt, k, jo.entries[k]).entries[k],
               Own(h, h[o][k], jo.entries[k]), Foot(h, h[o][k], jo.entries[k]), l);
    EntryWithin(h, o, jo, l);
    HeldElsewhere(h, h', base, h[o][l], jo.entries[l]);
    StillApart(h, h', t, jt, PutEntry(jt, k, jo.entries[k]), o, jo, base, k, l);
  }

  lemma EntryStays(
    h: Heap, h': Heap, t: Node, j: Json, k: Key, i: Json, own: set<Node>, foot: set<Node>, l: Key)
    requires Replaced(h, h', t, j, k, i, own, foot) && l != k && Holds(h', At(t), Mapping(j.entries[k := i]))
    ensures EntryOwn(h', t, Mapping(j.entries[k := i]), l) == EntryOwn(h, t, j, l)
  {
    if l in j.entries { assert AsBefore(h, h', h[t][l], j.entries[l]); }
  }

  lemma StillApart(
    h: Heap, h': Heap, t: Node, jt: Json, j': Json, o: Node, jo: Json, base: set<Node>, k: Key, l: Key)
    requires Tree(h, At(o), jo) && jo.Mapping? && k in jo.entries && l in jo.entries && l != k
    requires Apart(h, At(t), jt, h[o][l], jo.entries[l]) && AsBefore(h, h', h[o][l], jo.entries[l])
    requires LandedAt(h, h', t, jt, j', o, jo, base, k)
    ensures Apart(h', At(t), j', h[o][l], jo.entries[l])
  {
    EntriesApart(h, o, jo, k, l);
    EntriesApart(h, o, jo, l, k);
  }

  lemma LandedTwice(
    h: Heap, h1: Heap, h2: Heap, t: Node, jt: Json, j1: Json, j2: Json, o: Node, jo: Json, base: set<Node>, k: Key)
    requires Tree(h, At(o), jo) && jo.Mapping? && k in jo.entries && AsBefore(h, h1, At(o), jo)
    requires LandedAt(h, h1, t, jt, j1, o, jo, base, k) && LandedWith(h1, h2, t, j1, j2, o, jo, base)
    ensures LandedWith(h, h2, t, jt, j2, o, jo, base)
  {
    EntryWithin(h, o, jo, k);
  }

  /** Two tree-like mapping objects that are held apart. */
  ghost predicate Mergeable(h: Heap, t: Node, jt: Json, o: Node, jo: Json) {
    && jt.Mapping? && jo.Mapping? && Tree(h, At(t), jt) && Tree(h, At(o), jo) && Apart(h, At(t), jt, At(o), jo)
  }

  /** The target holds `j`, and nothing but its own objects has changed. */
  ghost predicate MergedTo(h: Heap, h': Heap, t: Node, jt: Json, o: Node, jo: Json, j: Json)
    requires Mergeable(h, t, jt, o, jo)
  {
    LandedWith(h, h', t, jt, j, o, jo, Own(h, At(t), jt))
  }

  /** Merging documents without aliases in place is merging what they hold, in whatever order keys come. */
  lemma {:induction false} UnaliasedMerge(order: Order, h: Heap, t: Node, jt: Json, o: Node, jo: Json, limit: nat)
    requires Ordering(order) && Mergeable(h, t, jt, o, jo)
    ensures var r := MergeInto(order, h, t, o, limit);
            (r.Some? ==> MergedTo(h, r.value, t, jt, o, jo, Merge(jt, jo))) && (Fits(jo, limit) ==> r.Some?)
    decreases limit, 1, 0
  {
    if limit > 0 {
      var ks, base := order(o, h[o].Keys), Own(h, At(t), jt);
      forall m | 0 <= m < |ks| ensures Waiting(h, t, jt, o, jo, base, ks[m]) {
        assert ks[m] in Elements(ks);
        EntryWithin(h, o, jo, ks[m]);
      }
      UnaliasedLoop(order, h, t, jt, o, jo, base, ks, 0, limit);
      PutAllIsMerge(jt, jo, ks);
    }
  }

  lemma {:induction false} UnaliasedLoop(
    order: Order, h: Heap, t: Node, jt: Json, o: Node, jo: Json, base: set<Node>, ks: seq<Key>, i: nat, limit: nat)
    requires Ordering(order) && Ready(h, t, jt, o, jo, base) && limit > 0
    requires i <= |ks| && Elements(ks) == jo.entries.Keys && NoRepeats(ks)
    requires forall m :: i <= m < |ks| ==> Waiting(h, t, jt, o, jo, base, ks[m])
    ensures var r := MergeItems(order, h, t, o, ks, i, limit);
            && (r.Some? ==> LandedWith(h, r.value, t, jt, PutRest(jt, jo, ks, i), o, jo, base))
            && (Fits(jo, limit) ==> r.Some?)
    decreases limit, 0, |ks| - i
  {
    if i < |ks| {
      assert Waiting(h, t, jt, o, jo, base, ks[i]);
      ItemsUnfold(order, h, t, o, jo, ks, i, limit);
      UnaliasedStep(order, h, t, jt, o, jo, base, ks[i], limit);
      var next := MergeStep(order, h, t, o, ks[i], limit);
      if next.Some? { UnaliasedRest(order, h, next.value, t, jt, o, jo, base, ks, i, limit); }
    } else {
      LoopEnds(order, h, t, jt, o, jo, base, ks, limit);
    }
  }

  /** The entries after the one at index `i`. */
  lemma {:induction false} UnaliasedRest(
    order: Order, h: Heap, h': Heap, t: Node, jt: Json, o: Node, jo: Json, base: set<Node>, ks: seq<Key>, i: nat,
    limit: nat)
    requires Ordering(order) && Ready(h, t, jt, o, jo, base) && limit > 0
    requires i < |ks| && Elements(ks) == jo.entries.Keys && NoRepeats(ks)
    requires Waiting(h, t, jt, o, jo, base, ks[i]) && Put(h, h', t, jt, o, jo, base, ks[i])
    requires forall m :: i <= m < |ks| ==> Waiting(h, t, jt, o, jo, base, ks[m])
    ensures var r := MergeItems(order, h', t, o, ks, i + 1, limit);
            && (r.Some? ==> LandedWith(h, r.value, t, jt, PutRest(jt, jo, ks, i), o, jo, base))
            && (Fits(jo, limit) ==> r.Some?)
    decreases limit, 0, |ks| - i, 0
  {
    var k, j1 := ks[i], PutEntry(jt, ks[i], jo.entries[ks[i]]);
    NextIsReady(h, h', t, jt, o, jo, base, ks, i);
    UnaliasedLoop(order, h', t, j1, o, jo, base, ks, i + 1, limit);
    var r := MergeItems(order, h', t, o, ks, i + 1, limit);
    if r.Some? { LandedTwice(h, h', r.value, t, jt, j1, PutRest(jt, jo, ks, i), o, jo, base, k); }
  }

  lemma ItemsUnfold(order: Order, h: Heap, t: Node, o: Node, jo: Json, ks: seq<Key>, i: nat, limit: nat)
    requires t in h && Holds(h, At(o), jo) && jo.Mapping? && limit > 0
    requires i < |ks| && Elements(ks) == jo.entries.Keys && ks[i] in jo.entries
    ensures var next := MergeStep(order, h, t, o, ks[i], limit);
            MergeItems(order, h, t, o, ks, i, limit)
              == if next.Some? then MergeItems(order, next.value, t, o, ks, i + 1, limit) else None
  {}

  lemma LoopEnds(
    order: Order, h: Heap, t: Node, jt: Json, o: Node, jo: Json, base: set<Node>, ks: seq<Key>, limit: nat)
    requires Ready(h, t, jt, o, jo, base) && limit > 0 && Elements(ks) == jo.entries.Keys
    ensures MergeItems(order, h, t, o, ks, |ks|, limit) == Some(h)
    ensures LandedWith(h, h, t, jt, PutRest(jt, jo, ks, |ks|), o, jo, base)
  {}

  lemma NextIsReady(
    h: Heap, h': Heap, t: Node, jt: Json, o: Node, jo: Json, base: set<Node>, ks: seq<Key>, i: nat)
    requires Ready(h, t, jt, o, jo, base) && i < |ks| && NoRepeats(ks)
    requires Waiting(h, t, jt, o, jo, base, ks[i]) && Put(h, h', t, jt, o, jo, base, ks[i])
    requires forall m :: i <= m < |ks| ==> Waiting(h, t, jt, o, jo, base, ks[m])
    ensures var k := ks[i]; var j1 := PutEntry(jt, k, jo.entries[k]);
            && LandedAt(h, h', t, jt, j1, o, jo, base, k)
            && AsBefore(h, h', At(o), jo) && Ready(h', t, j1, o, jo, base)
            && forall m :: i + 1 <= m < |ks| ==> Waiting(h', t, j1, o, jo, base, ks[m])
  {
    var k := ks[i];
    PutLands(h, h', t, jt, o, jo, base, k);
    forall m | i + 1 <= m < |ks| ensures Waiting(h', t, PutEntry(jt, k, jo.entries[k]), o, jo, base, ks[m]) {
      StillWaiting(h, h', t, jt, o, jo, base, k, ks[m]);
    }
  }

  lemma {:induction false} UnaliasedStep(
    order: Order, h: Heap, t: Node, jt: Json, o: Node, jo: Json, base: set<Node>, k: Key, limit: nat)
    requires Ordering(order) && Ready(h, t, jt, o, jo, base) && limit > 0 && Waiting(h, t, jt, o, jo, base, k)
    ensures var r := MergeStep(order, h, t, o, k, limit);
            (r.Some? ==> Put(h, r.value, t, jt, o, jo, base, k)) && (Fits(jo, limit) ==> r.Some?)
    decreases limit, 0, 0
  {
    if Nested(jt, jo, k) {
      NestedStep(order, h, t, jt, o, jo, k, limit);
      var r := MergeStep(order, h, t, o, k, limit);
      if r.Some? { MergePuts(h, r.value, t, jt, o, jo, base, k); }
    } else {
      FlatStep(order, h, t, jt, o, jo, k, limit);
      SetPuts(h, t, jt, o, jo, base, k);
    }
  }

  lemma {:induction false} NestedStep(
    order: Order, h: Heap, t: Node, jt: Json, o: Node, jo: Json, k: Key, limit: nat)
    requires Ordering(order) && Tree(h, At(t), jt) && jt.Mapping? && Tree(h, At(o), jo) && jo.Mapping?
    requires limit > 0 && k in jo.entries && Nested(jt, jo, k)
    requires Apart(h, At(t), jt, h[o][k], jo.entries[k])
    ensures var r := MergeStep(order, h, t, o, k, limit);
            && (r.Some? ==> Landed(h, r.value, h[t][k], jt.entries[k], Merge(jt.entries[k], jo.entries[k]),
                                   Own(h, h[o][k], jo.entries[k]), Foot(h, h[o][k], jo.entries[k]),
                                   Own(h, h[t][k], jt.entries[k])))
            && (Fits(jo, limit) ==> r.Some?)
    decreases limit, 0, 0, 0
  {
    NestedMergeable(h, t, jt, o, jo, k);
    UnaliasedMerge(order, h, h[t][k].node, jt.entries[k], h[o][k].node, jo.entries[k], limit - 1);
  }

  lemma FlatStep(order: Order, h: Heap, t: Node, jt: Json, o: Node, jo: Json, k: Key, limit: nat)
    requires Holds(h, At(t), jt) && jt.Mapping? && Holds(h, At(o), jo) && jo.Mapping? && k in jo.entries && limit > 0
    requires !Nested(jt, jo, k)
    ensures MergeStep(order, h, t, o, k, limit) == Some(Set(h, t, k, h[o][k]))
  {}

  lemma NestedMergeable(h: Heap, t: Node, jt: Json, o: Node, jo: Json, k: Key)
    requires Tree(h, At(t), jt) && jt.Mapping? && Tree(h, At(o), jo) && jo.Mapping? && k in jo.entries
    requires Apart(h, At(t), jt, h[o][k], jo.entries[k]) && Nested(jt, jo, k)
    ensures h[t][k].At? && h[o][k].At? && Mergeable(h, h[t][k].node, jt.entries[k], h[o][k].node, jo.entries[k])
  {
    EntryWithin(h, t, jt, k);
    EntryWithin(h, o, jo, k);
    assert Holds(h, h[t][k], jt.entries[k]) && Holds(h, h[o][k], jo.entries[k]);
  }
}
