/** The files of a browser upload action: read under one byte bound shared by all of them. */
module UploadPayloads {
  import opened Outcomes
  import Archive = ProfileArchive

  type Bytes = seq<bv8>
  type Path = seq<string>

  datatype Payload = Payload(name: string, buffer: Bytes)

  /** A requested path; the workspace maps the relative paths of its regular files, reached
      without following links, to their contents. */
  datatype Request = Request(absolute: bool, parts: Path)

  type Workspace = map<Path, Bytes>

  predicate Scoped(r: Request) { !r.absolute && r.parts != [] && ".." !in r.parts }

  predicate Readable(w: Workspace, r: Request) { Scoped(r) && r.parts in w }

  function PayloadOf(w: Workspace, r: Request): Payload
    requires Readable(w, r)
  {
    Payload(r.parts[|r.parts| - 1], w[r.parts])
  }

  /** The bytes of the first `n` files. */
  function Total(w: Workspace, rs: seq<Request>, n: nat): nat
    requires n <= |rs| && forall i :: 0 <= i < n ==> Readable(w, rs[i])
  {
    if n == 0 then 0
    else
      assert Readable(w, rs[n - 1]);
      Total(w, rs, n - 1) + |w[rs[n - 1].parts]|
  }

  predicate Fits(w: Workspace, rs: seq<Request>, n: nat, max: nat)
    requires n <= |rs|
  {
    (forall i :: 0 <= i < n ==> Readable(w, rs[i])) && Total(w, rs, n) <= max
  }

  /** All files are read, whole and in order, exactly when each is readable and together they stay
      within the bound; otherwise the first file that is not or does not decides the refusal. */
  method Read(w: Workspace, rs: seq<Request>, max: nat) returns (r: Result<seq<Payload>>)
    ensures r.Ok? <==> Fits(w, rs, |rs|, max)
    ensures r.Ok? ==> |r.value| == |rs| && forall i :: 0 <= i < |rs| ==> r.value[i] == PayloadOf(w, rs[i])
    ensures r.Refused? ==> exists n :: 0 <= n < |rs| && Fits(w, rs, n, max) && !Fits(w, rs, n + 1, max)
                                       && r.code == if Readable(w, rs[n]) then OutputContract else AuthorityNotGranted
  {
    var payloads: seq<Payload> := [];
    var total := 0;
    for n := 0 to |rs|
      invariant Fits(w, rs, n, max) && total == Total(w, rs, n)
      invariant |payloads| == n && forall i :: 0 <= i < n ==> payloads[i] == PayloadOf(w, rs[i])
    {
      if !Scoped(rs[n]) || rs[n].parts !in w {
        NeverFits(w, rs, n, max);
        return Refused(AuthorityNotGranted);
      }
      var content := Archive.ReadBounded(w[rs[n].parts], max - total);
      if content == None {
        NeverFits(w, rs, n, max);
        return Refused(OutputContract);
      }
      total := total + |content.value|;
      payloads := payloads + [Payload(rs[n].parts[|rs[n].parts| - 1], content.value)];
    }
    return Ok(payloads);
  }

  /** What counts as readable, and what is read: a relative path without an upward part that names a file of the
      workspace, under its last part's name and with its bytes. */
  lemma ReadableExactly(w: Workspace, r: Request)
    ensures Readable(w, r) <==>
            && !r.absolute && r.parts != [] && r.parts in w && forall i :: 0 <= i < |r.parts| ==> r.parts[i] != ".."
    ensures Readable(w, r) ==> PayloadOf(w, r).name == r.parts[|r.parts| - 1] && PayloadOf(w, r).buffer == w[r.parts]
  {
    if ".." in r.parts { var i :| 0 <= i < |r.parts| && r.parts[i] == ".."; }
  }

  /** What does not fit after `n + 1` files does not fit after all of them. */
  lemma NeverFits(w: Workspace, rs: seq<Request>, n: nat, max: nat)
    requires n < |rs| && !Fits(w, rs, n + 1, max)
    ensures !Fits(w, rs, |rs|, max)
  {
    if forall i :: 0 <= i < |rs| ==> Readable(w, rs[i]) { TotalGrows(w, rs, n + 1, |rs|); }
  }

  lemma {:induction false} TotalGrows(w: Workspace, rs: seq<Request>, n: nat, m: nat)
    requires n <= m <= |rs| && forall i :: 0 <= i < m ==> Readable(w, rs[i])
    ensures Total(w, rs, n) <= Total(w, rs, m)
  {
    if n < m { TotalGrows(w, rs, n, m - 1); }
  }
}
