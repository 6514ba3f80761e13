/** Optional values, and the refusals that the services raise as error envelopes. */
module Outcomes {

  datatype Option<+T> = None | Some(value: T)

  /** The error codes that the modelled operations raise, and the interpreter's own errors. */
  datatype Code =
    | ArtifactError
    | RevisionMismatch
    | SecretContent
    | OutputContract
    | BrowserError
    | AuthorityNotGranted
    | CursorGap
    | DuplicateResult
    | MissionError
    | DecisionValidation
    | VersionError
    | Conflict
    | Configuration
    | ContextError
    | RunInterrupted
    | InterpreterError

  datatype Result<+T> = Ok(value: T) | Refused(code: Code)
}

/** Visiting the elements of a set, in whatever order a query or a set iteration gives. */
module Listings {

  function Elements<T(==)>(q: seq<T>): set<T> { set x | x in q }

  lemma ElementsOfPrefix<T>(q: seq<T>, i: nat)
    requires i < |q|
    ensures Elements(q[..i + 1]) == Elements(q[..i]) + {q[i]}
  {
    assert q[..i + 1] == q[..i] + [q[i]];
  }

  method Listing<T(==)>(s: set<T>) returns (q: seq<T>)
    ensures forall x :: x in q <==> x in s
    ensures Elements(q) == s
    ensures forall i, j :: 0 <= i < j < |q| ==> q[i] != q[j]
  {
    q := [];
    var left := s;
    while left != {}
      invariant left <= s
      invariant forall x :: x in q <==> x in s && x !in left
      invariant forall i, j :: 0 <= i < j < |q| ==> q[i] != q[j]
      decreases left
    {
      var x :| x in left;
      q := q + [x];
      left := left - {x};
    }
  }
}
