/** Runs from the start that upload content, chunk by chunk. */
module CasUploads {
  import opened Outcomes
  import opened ArtifactRoots
  import opened ArtifactStore
  import opened CasProtocol
  import opened CasResults

  lemma {:induction false} RunAppend(p: Params, s: System, es: seq<Event>, fs: seq<Event>)
    ensures Run(p, s, es + fs) == Run(p, Run(p, s, es), fs)
    decreases |es|
  {
    if es == [] {
      assert es + fs == fs;
    } else {
      assert (es + fs)[1..] == es[1..] + fs;
      RunAppend(p, Step(p, s, es[0]), es[1..], fs);
    }
  }

  lemma RunOne(p: Params, s: System, e: Event)
    ensures Run(p, s, [e]) == Step(p, s, e)
  {
    assert Run(p, Step(p, s, e), [e][1..]) == Step(p, s, e);
  }

  function Uploading(p: Params, content: Bytes, staged: Bytes): Store {
    EMPTY.(uploads := map[0 := UploadRow(p.digest(content), |content|, |staged|, UploadStaging, None, [], 0)],
           staging := map[0 := staged])
  }

  /** Where the next chunk ends on the way from `m` bytes to `n`. */
  function ChunkEnd(p: Params, m: nat, n: nat): (end: nat)
    requires m < n && p.maxChunkBytes > 0
    ensures m < end <= n && end - m <= p.maxChunkBytes
  {
    if m + p.maxChunkBytes < n then m + p.maxChunkBytes else n
  }

  function Chunk(c: Bytes, m: nat, end: nat): Event
    requires m < end <= |c|
  {
    OnStore(Append(0, m, c[m..end], end - m, true, 0))
  }

  /** The chunks that bring the staged file from `m` bytes to `n`. */
  function Chunks(p: Params, c: Bytes, m: nat, n: nat): seq<Event>
    requires m <= n <= |c| && p.maxChunkBytes > 0
    decreases n - m
  {
    if m == n then [] else [Chunk(c, m, ChunkEnd(p, m, n))] + Chunks(p, c, ChunkEnd(p, m, n), n)
  }

  function Staged(p: Params, c: Bytes, m: nat, threads: map<Id, Thread>): System
    requires m <= |c|
  {
    System(Uploading(p, c, c[..m]), threads)
  }

  lemma OneChunk(p: Params, c: Bytes, m: nat, n: nat, threads: map<Id, Thread>)
    requires m < n <= |c| && n - m <= p.maxChunkBytes
    ensures Step(p, Staged(p, c, m, threads), Chunk(c, m, n)) == Staged(p, c, n, threads)
  {
    assert c[m..n][..n - m] == c[m..n] && c[..m] + c[m..n] == c[..n];
    assert AppendChunk(p, Uploading(p, c, c[..m]), 0, m, c[m..n], n - m, true, 0) == Uploading(p, c, c[..n]);
  }

  lemma RunFirst(p: Params, s: System, e: Event, es: seq<Event>)
    ensures Run(p, s, [e] + es) == Run(p, Step(p, s, e), es)
  {
    assert ([e] + es)[1..] == es;
  }

  lemma {:induction false} AllChunks(p: Params, c: Bytes, m: nat, n: nat, threads: map<Id, Thread>)
    requires m <= n <= |c| && p.maxChunkBytes > 0
    ensures Run(p, Staged(p, c, m, threads), Chunks(p, c, m, n)) == Staged(p, c, n, threads)
    decreases n - m
  {
    if m < n {
      var end := ChunkEnd(p, m, n);
      OneChunk(p, c, m, end, threads);
      RunFirst(p, Staged(p, c, m, threads), Chunk(c, m, end), Chunks(p, c, end, n));
      AllChunks(p, c, end, n, threads);
    }
  }

  function Opening(p: Params, c: Bytes, m: nat): seq<Event>
    requires m <= |c| && p.maxChunkBytes > 0
  {
    [OnStore(Open(0, p.digest(c), |c|, [], 0))] + Chunks(p, c, 0, m)
  }

  /** The upload is open and its first part staged. */
  lemma Uploads(p: Params, c: Bytes, m: nat)
    requires m <= |c| <= p.maxArtifactBytes && p.maxChunkBytes > 0 && ValidDigest(p, p.digest(c))
    ensures Run(p, START, Opening(p, c, m)) == System(Uploading(p, c, c[..m]), map[])
  {
    assert c[..0] == [];
    assert Step(p, START, Opening(p, c, m)[0]).store == Uploading(p, c, []);
    AllChunks(p, c, 0, m, map[]);
    assert Opening(p, c, m)[1..] == Chunks(p, c, 0, m);
  }
}
