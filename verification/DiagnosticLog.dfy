/** The bounded diagnostic buffer of a live browser session, against the unbounded log of
    everything that was ever recorded. */
module DiagnosticLog {
  import opened Outcomes

  datatype Entry = Entry(cursor: nat, channel: string, kind: string, payload: string)

  datatype Page = Page(selected: seq<Entry>, next: nat, truncated: bool)

  /** The entries of the requested channels at indices `i` up to `j`, in order. */
  function Between(log: seq<Entry>, i: nat, j: nat, channels: set<string>): seq<Entry>
    requires j <= |log|
    decreases j
  {
    if j <= i then []
    else Between(log, i, j - 1, channels) + if log[j - 1].channel in channels then [log[j - 1]] else []
  }

  lemma {:induction false} BetweenSplit(log: seq<Entry>, i: nat, j: nat, k: nat, channels: set<string>)
    requires i <= j <= k <= |log|
    ensures Between(log, i, k, channels) == Between(log, i, j, channels) + Between(log, j, k, channels)
  {
    if j < k {
      BetweenSplit(log, i, j, k - 1, channels);
    }
  }

  /** The kept suffix of a log and the log itself show the same entries. */
  lemma {:induction false} BetweenInSuffix(
    log: seq<Entry>, kept: seq<Entry>, b: nat, i: nat, j: nat, channels: set<string>)
    requires b <= |log| && kept == log[b..] && j <= |kept|
    ensures Between(kept, i, j, channels) == Between(log, b + i, b + j, channels)
  {
    if i < j {
      BetweenInSuffix(log, kept, b, i, j - 1, channels);
    }
  }

  lemma {:induction false} BetweenInPrefix(log: seq<Entry>, longer: seq<Entry>, i: nat, j: nat, channels: set<string>)
    requires j <= |log| && log <= longer
    ensures Between(longer, i, j, channels) == Between(log, i, j, channels)
  {
    if i < j {
      BetweenInPrefix(log, longer, i, j - 1, channels);
    }
  }

  lemma {:induction false} BetweenEmpty(log: seq<Entry>, i: nat, j: nat, channels: set<string>)
    requires j <= |log|
    ensures Between(log, i, j, channels) == [] <==> forall k :: i <= k < j ==> log[k].channel !in channels
  {
    if i < j {
      BetweenEmpty(log, i, j - 1, channels);
      var before := Between(log, i, j - 1, channels);
      if log[j - 1].channel in channels {
        assert Between(log, i, j, channels) == before + [log[j - 1]];
      } else {
        assert Between(log, i, j, channels) == before;
      }
    }
  }

  function Start(log: seq<Entry>, cursor: nat): nat { if cursor < |log| then cursor else |log| }

  /** What a read at `cursor` owes its caller, in terms of the whole log. */
  ghost predicate IsPage(log: seq<Entry>, cursor: nat, channels: set<string>, limit: nat, page: Page) {
    && Start(log, cursor) <= page.next <= |log|
    && page.selected == Between(log, Start(log, cursor), page.next, channels)
    && |page.selected| <= limit
    && (if |page.selected| < limit then page.next == |log| else page.next > 0 && log[page.next - 1].channel in channels)
    && (page.truncated <==> Between(log, page.next, |log|, channels) != [])
  }

  /** A log, cursor, channels and limit leave no choice of page. */
  lemma PageIsUnique(log: seq<Entry>, cursor: nat, channels: set<string>, limit: nat, page: Page, other: Page)
    requires limit > 0 && IsPage(log, cursor, channels, limit, page) && IsPage(log, cursor, channels, limit, other)
    ensures page == other
  {
    if page.next < other.next {
      ShorterPageIsFull(log, cursor, channels, limit, page, other);
    } else if other.next < page.next {
      ShorterPageIsFull(log, cursor, channels, limit, other, page);
    }
  }

  lemma ShorterPageIsFull(log: seq<Entry>, cursor: nat, channels: set<string>, limit: nat, page: Page, other: Page)
    requires limit > 0 && IsPage(log, cursor, channels, limit, page) && IsPage(log, cursor, channels, limit, other)
    ensures !(page.next < other.next)
  {
    if page.next < other.next {
      BetweenSplit(log, Start(log, cursor), page.next, other.next, channels);
      BetweenEmpty(log, page.next, other.next, channels);
    }
  }

  /** The entry is in the log, in this range of cursors, on one of the channels. */
  predicate Matching(log: seq<Entry>, from: nat, to: nat, channels: set<string>, e: Entry) {
    e in log && from <= e.cursor < to && e.channel in channels
  }

  predicate InOrder(q: seq<Entry>) { forall a, b :: 0 <= a < b < |q| ==> q[a].cursor < q[b].cursor }

  lemma {:induction false} BetweenExactly(log: seq<Entry>, i: nat, j: nat, channels: set<string>)
    requires j <= |log| && forall k :: 0 <= k < |log| ==> log[k].cursor == k
    ensures forall e :: e in Between(log, i, j, channels) <==> Matching(log, i, j, channels, e)
    ensures InOrder(Between(log, i, j, channels))
  {
    if i < j {
      BetweenExactly(log, i, j - 1, channels);
      var before := Between(log, i, j - 1, channels);
      forall e | e in Between(log, i, j, channels) ensures Matching(log, i, j, channels, e) {
        if e !in before { assert e == log[j - 1]; } else { assert Matching(log, i, j - 1, channels, e); }
      }
      forall e | Matching(log, i, j, channels, e) ensures e in Between(log, i, j, channels) {
        var k :| 0 <= k < |log| && log[k] == e;
        if k < j - 1 { assert Matching(log, i, j - 1, channels, e); }
      }
      forall a | 0 <= a < |before| ensures before[a].cursor < j - 1 {
        assert before[a] in before;
        assert Matching(log, i, j - 1, channels, before[a]);
      }
    }
  }

  /** A page holds, in the order of their cursors, exactly the entries on the channels from the reader's cursor up to
      the page's next one. It is full, or it reaches the end of the log; and it is truncated exactly when such an
      entry follows. */
  lemma PagesExactly(log: seq<Entry>, cursor: nat, channels: set<string>, limit: nat, page: Page)
    requires limit > 0 && IsPage(log, cursor, channels, limit, page)
    requires forall k :: 0 <= k < |log| ==> log[k].cursor == k
    ensures forall e :: e in page.selected <==> Matching(log, cursor, page.next, channels, e)
    ensures InOrder(page.selected)
    ensures |page.selected| <= limit && (|page.selected| < limit ==> page.next == |log|)
    ensures |page.selected| == limit ==> page.next == page.selected[limit - 1].cursor + 1
    ensures page.truncated <==> exists e :: Matching(log, page.next, |log|, channels, e)
  {
    BetweenExactly(log, Start(log, cursor), page.next, channels);
    BetweenExactly(log, page.next, |log|, channels);
    if |page.selected| == limit {
      var last := log[page.next - 1];
      assert page.selected != [] && Start(log, cursor) < page.next;
      assert Matching(log, Start(log, cursor), page.next, channels, last);
      var a :| 0 <= a < limit && page.selected[a] == last;
      if a < limit - 1 {
        assert page.selected[limit - 1] in page.selected;
        assert Matching(log, Start(log, cursor), page.next, channels, page.selected[limit - 1]);
      }
    }
    var rest := Between(log, page.next, |log|, channels);
    if rest != [] { assert rest[0] in rest; }
  }

  class LiveDiagnostics {
    const max: nat
    var diagnostics: seq<Entry>
    var base: nat
    ghost var log: seq<Entry>

    ghost predicate Valid()
      reads this
    {
      && max > 0
      && |diagnostics| <= max
      && base == (if |log| <= max then 0 else |log| - max)
      && |log| == base + |diagnostics|
      && diagnostics == log[base..]
      && forall i :: 0 <= i < |log| ==> log[i].cursor == i
    }

    constructor (max: nat)
      requires max > 0
      ensures Valid() && log == [] && this.max == max
    {
      this.max, diagnostics, base, log := max, [], 0, [];
    }

    /** Append one entry under the next absolute cursor, dropping the oldest beyond the bound. */
    method Record(channel: string, kind: string, payload: string)
      requires Valid()
      modifies this
      ensures Valid()
      ensures log == old(log) + [Entry(|old(log)|, channel, kind, payload)]
    {
      var entry := Entry(base + |diagnostics|, channel, kind, payload);
      diagnostics := diagnostics + [entry];
      log := log + [entry];
      assert diagnostics == log[base..];
      if |diagnostics| > max {
        diagnostics := diagnostics[1..];
        base := base + 1;
      }
    }

    /** A page of the log, or a cursor gap exactly when the bound dropped entries from the cursor. */
    method Diagnostics(cursor: nat, channels: set<string>, limit: nat) returns (r: Result<Page>)
      requires Valid() && limit > 0
      ensures r.Refused? <==> |log| > cursor + max
      ensures r.Refused? ==> r.code == CursorGap
      ensures r.Ok? ==> IsPage(log, cursor, channels, limit, r.value)
    {
      if cursor < base {
        return Refused(CursorGap);
      }
      var start := if cursor < base + |diagnostics| then cursor else base + |diagnostics|;
      var selected, taken := Take(start - base, channels, limit);
      var remaining := Remaining(taken, channels);
      BetweenInSuffix(log, diagnostics, base, start - base, taken, channels);
      BetweenInSuffix(log, diagnostics, base, taken, |diagnostics|, channels);
      return Ok(Page(selected, base + taken, remaining));
    }

    /** The page loop over the entries from index `first` on; its own cursor variable is
        `base + next`. */
    method Take(first: nat, channels: set<string>, limit: nat) returns (selected: seq<Entry>, next: nat)
      requires Valid() && limit > 0 && first <= |diagnostics|
      ensures first <= next <= |diagnostics|
      ensures selected == Between(diagnostics, first, next, channels) && |selected| <= limit
      ensures if |selected| < limit then next == |diagnostics|
              else next > 0 && diagnostics[next - 1].channel in channels
    {
      selected, next := [], first;
      for i := first to |diagnostics|
        invariant next == i
        invariant selected == Between(diagnostics, first, i, channels) && |selected| < limit
      {
        var item := diagnostics[i];
        assert item == log[base + i];
        next := item.cursor + 1 - base;
        if item.channel in channels {
          selected := selected + [item];
          if |selected| == limit { break; }
        }
      }
    }

    method Remaining(first: nat, channels: set<string>) returns (any: bool)
      requires first <= |diagnostics|
      ensures any <==> Between(diagnostics, first, |diagnostics|, channels) != []
    {
      BetweenEmpty(diagnostics, first, |diagnostics|, channels);
      for i := first to |diagnostics|
        invariant forall j :: first <= j < i ==> diagnostics[j].channel !in channels
      {
        if diagnostics[i].channel in channels { return true; }
      }
      return false;
    }
  }

  /* ---------- runs ---------- */

  /** One thing that happens to a buffer: a record, or a read by the one reader at its cursor. */
  datatype Op = Recorded(channel: string, kind: string, payload: string) | Read(limit: nat, page: Page)

  /** The operations happen in this order from `log` with the reader at `cursor`, and no read
      reports a gap. */
  ghost predicate Happens(max: nat, channels: set<string>, log: seq<Entry>, cursor: nat, ops: seq<Op>)
    decreases |ops|
  {
    ops == [] ||
    match ops[0]
    case Recorded(channel, kind, payload) =>
      Happens(max, channels, log + [Entry(|log|, channel, kind, payload)], cursor, ops[1..])
    case Read(limit, page) =>
      limit > 0 && |log| <= cursor + max && IsPage(log, cursor, channels, limit, page)
      && Happens(max, channels, log, page.next, ops[1..])
  }

  function FinalLog(log: seq<Entry>, ops: seq<Op>): (r: seq<Entry>)
    ensures log <= r
    decreases |ops|
  {
    if ops == [] then log
    else if ops[0].Recorded? then
      FinalLog(log + [Entry(|log|, ops[0].channel, ops[0].kind, ops[0].payload)], ops[1..])
    else FinalLog(log, ops[1..])
  }

  function FinalCursor(cursor: nat, ops: seq<Op>): nat
    decreases |ops|
  {
    if ops == [] then cursor else FinalCursor(if ops[0].Read? then ops[0].page.next else cursor, ops[1..])
  }

  /** Everything the reader was given, page after page. */
  function Pages(ops: seq<Op>): seq<Entry> {
    if ops == [] then []
    else (if ops[0].Read? then ops[0].page.selected else []) + Pages(ops[1..])
  }

  /** Chained reads give exactly the matching log entries between the first cursor and the last,
      in order, without loss or repetition, however records interleave. */
  lemma {:induction false} ChainedReadsRefineTheLog(
    max: nat, channels: set<string>, log: seq<Entry>, cursor: nat, ops: seq<Op>)
    requires Happens(max, channels, log, cursor, ops) && cursor <= |log|
    ensures cursor <= FinalCursor(cursor, ops) <= |FinalLog(log, ops)|
    ensures Pages(ops) == Between(FinalLog(log, ops), cursor, FinalCursor(cursor, ops), channels)
    decreases |ops|
  {
    if ops != [] {
      match ops[0]
      case Recorded(channel, kind, payload) =>
        ChainedReadsRefineTheLog(max, channels, log + [Entry(|log|, channel, kind, payload)], cursor, ops[1..]);
      case Read(limit, page) =>
        ChainedReadsRefineTheLog(max, channels, log, page.next, ops[1..]);
        var whole, last := FinalLog(log, ops), FinalCursor(cursor, ops);
        BetweenInPrefix(log, whole, cursor, page.next, channels);
        BetweenSplit(whole, cursor, page.next, last, channels);
    }
  }

  /** A reader whose last page is not truncated has been given every matching entry. */
  lemma UntruncatedReaderHasEverything(
    max: nat, channels: set<string>, log: seq<Entry>, cursor: nat, ops: seq<Op>, limit: nat, page: Page)
    requires Happens(max, channels, log, cursor, ops) && cursor <= |log|
    requires limit > 0 && IsPage(FinalLog(log, ops), FinalCursor(cursor, ops), channels, limit, page)
    ensures !page.truncated <==>
            Pages(ops) + page.selected == Between(FinalLog(log, ops), cursor, |FinalLog(log, ops)|, channels)
  {
    ChainedReadsRefineTheLog(max, channels, log, cursor, ops);
    var whole, c := FinalLog(log, ops), FinalCursor(cursor, ops);
    BetweenSplit(whole, cursor, c, page.next, channels);
    BetweenSplit(whole, cursor, page.next, |whole|, channels);
  }

  /* ---------- the supervisor's flag ---------- */

  /** The supervisor clamps the requested limit, and reports its own truncation flag. */
  function Clamp(requested: nat, configured: nat): nat { if requested < configured then requested else configured }

  function ReportedTruncated(page: Page, requested: nat, configured: nat): bool {
    page.truncated || requested > Clamp(requested, configured)
  }

  /** The reported flag means that matching entries remain, for every log, exactly when the
      request was within the configured limit; a larger request is flagged even on an empty log. */
  lemma ReportedFlagIsExactWithinTheLimit(requested: nat, configured: nat, channels: set<string>)
    requires requested > 0 && configured > 0
    ensures requested <= configured <==>
            forall log, cursor, page :: IsPage(log, cursor, channels, Clamp(requested, configured), page) ==>
              (ReportedTruncated(page, requested, configured) <==> Between(log, page.next, |log|, channels) != [])
  {
    if requested > configured {
      var page := Page([], 0, false);
      assert IsPage([], 0, channels, Clamp(requested, configured), page);
      assert ReportedTruncated(page, requested, configured);
      var log: seq<Entry> := [];
      assert Between(log, page.next, |log|, channels) == [];
    }
  }
}
