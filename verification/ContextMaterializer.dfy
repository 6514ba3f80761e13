/** The materialiser: entry by entry into a staging tree that is published or discarded whole. */
module ContextMaterializer {
  import opened Outcomes
  import opened ContextPack

  class ContextPackMaterializer {
    const codec: Codec
    /** The published packs below the root, by destination. */
    var packs: map<string, Tree>

    constructor (c: Codec)
      ensures codec == c && packs == map[]
    {
      codec, packs := c, map[];
    }

    /** Fills the staging tree. */
    method Stage(a: Artifacts, es: seq<Entry>) returns (r: Result<Progress>)
      ensures r == Gather(codec, a, es, |es|)
    {
      var tree := Tree(map[], {});
      var written: seq<Written>, omitted: seq<string> := [], [];
      var i := 0;
      while i < |es|
        invariant 0 <= i <= |es|
        invariant Gather(codec, a, es, i) == Ok(Progress(tree, written, omitted))
      {
        var e := es[i];
        var content := ReadVerified(codec, a, e);
        if content == None {
          if e.required {
            RefusalStays(codec, a, es, i + 1, |es|);
            return Refused(ContextError);
          }
          omitted := omitted + [e.path];
        } else {
          var next := WriteNew(tree, PlaceOf(codec, e.path), content.value);
          if next == None {
            RefusalStays(codec, a, es, i + 1, |es|);
            return Refused(Conflict);
          }
          tree, written := next.value, written + [Written(e.path, e.reference, e.digest, |content.value|)];
        }
        i := i + 1;
      }
      return Ok(Progress(tree, written, omitted));
    }

    /** Publishes the whole pack at a new destination, or changes nothing. */
    method Materialize(a: Artifacts, m: Manifest, destination: string) returns (r: Result<Materialization>)
      modifies this`packs
      ensures destination in old(packs) ==> r == Refused(ContextError) && packs == old(packs)
      ensures destination !in old(packs) ==>
                match ContextPack.Materialize(codec, a, m)
                case Refused(code) => r == Refused(code) && packs == old(packs)
                case Ok((tree, result)) => r == Ok(result) && packs == old(packs)[destination := tree]
    {
      if destination in packs { return Refused(ContextError); }
      var staged := Stage(a, m.entries);
      if staged.Refused? { return Refused(staged.code); }
      var result := ResultOf(codec, m, staged.value);
      var tree := WriteNew(staged.value.tree, Metadata(codec), codec.metadata(m, result));
      if tree == None { return Refused(Conflict); }
      packs := packs[destination := tree.value];
      return Ok(result);
    }

    method Verify(m: Manifest, r: Materialization, destination: string) returns (ok: bool)
      ensures ok <==> destination in packs && ContextPack.Verify(codec, m, r, packs[destination])
    {
      if destination !in packs || r.fingerprint != codec.fingerprint(m) { return false; }
      var target := packs[destination];
      var i := 0;
      while i < |r.entries|
        invariant 0 <= i <= |r.entries|
        invariant forall k :: 0 <= k < i ==> FileMatches(codec, target, r.entries[k])
      {
        if !FileMatches(codec, target, r.entries[i]) { return false; }
        i := i + 1;
      }
      if Metadata(codec) !in target.files || target.files[Metadata(codec)] != codec.metadata(m, r) { return false; }
      return codec.treeDigest(r.entries) == r.treeDigest;
    }
  }

  /** A refusal of some entry is the refusal of the manifest. */
  lemma {:induction false} RefusalStays(c: Codec, a: Artifacts, es: seq<Entry>, i: nat, n: nat)
    requires i <= n <= |es| && Gather(c, a, es, i).Refused?
    ensures Gather(c, a, es, n) == Gather(c, a, es, i)
  {
    if i < n { RefusalStays(c, a, es, i, n - 1); }
  }
}
