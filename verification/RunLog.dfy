/** A run's row and its event log, with the two transactions-worth of work that make up
    one append: reading `last_seq`, and committing the new row under the unique index on
    (run_id, seq). */
module RunLog {
  import opened RunEvents

  /** `Run.status`, `Run.last_seq`, and the run's rows of `run_events` keyed by `seq`;
      the map is the unique index. */
  datatype Row = Row(status: Status, lastSeq: nat, events: map<nat, Event>)

  /** An append that has read the row and not yet committed. */
  datatype Append = Append(seqNo: nat, event: Event)

  const NewRow: Row := Row(Queued, 0, map[])

  function BeginAppend(row: Row, event: Event): Append {
    Append(row.lastSeq + 1, event)
  }

  predicate Refused(row: Row, a: Append) {
    a.seqNo in row.events
  }

  function CommitAppend(row: Row, a: Append): Row {
    if Refused(row, a) then row
    else row.(lastSeq := a.seqNo, events := row.events[a.seqNo := a.event])
  }

  /** Every seq in 1..last_seq is present once, and nothing else is. */
  ghost predicate Dense(row: Row) {
    forall k :: k in row.events <==> 1 <= k <= row.lastSeq
  }

  /** The log only grows and no row of it is ever rewritten. */
  ghost predicate Extends(row: Row, later: Row) {
    && row.lastSeq <= later.lastSeq
    && forall k :: k in row.events ==> k in later.events && later.events[k] == row.events[k]
  }

  /** However stale the read was, the commit keeps the log dense: it lands exactly when no
      other writer committed in between, and is otherwise refused without any effect. */
  lemma CommitKeepsDense(row: Row, a: Append)
    requires Dense(row) && 1 <= a.seqNo <= row.lastSeq + 1
    ensures Refused(row, a) <==> a.seqNo <= row.lastSeq
    ensures Refused(row, a) ==> CommitAppend(row, a) == row
    ensures !Refused(row, a) ==> CommitAppend(row, a).lastSeq == row.lastSeq + 1
    ensures Dense(CommitAppend(row, a)) && Extends(row, CommitAppend(row, a))
  {
    assert row.lastSeq + 1 !in row.events;
  }

  /** Of two appends that read the same row, whichever commits second is refused: one of
      the two events is lost, never duplicated and never reordered. */
  lemma RacingAppends(row: Row, e1: Event, e2: Event)
    requires Dense(row)
    ensures var a1, a2 := BeginAppend(row, e1), BeginAppend(row, e2);
            var after := CommitAppend(row, a1);
            && !Refused(row, a1) && Refused(after, a2) && CommitAppend(after, a2) == after
            && after.lastSeq == row.lastSeq + 1 && after.events[after.lastSeq] == e1
  {
    assert row.lastSeq + 1 !in row.events;
  }

  /** log[lo+1 .. hi] as it goes over the wire; empty when hi <= lo. */
  ghost function Segment(events: map<nat, Event>, lo: nat, hi: nat): (s: seq<Wire>)
    requires forall k :: lo < k <= hi ==> k in events
    ensures |s| == if lo < hi then hi - lo else 0
  {
    if lo < hi then seq(hi - lo, i requires 0 <= i < hi - lo => Wire(lo + 1 + i, events[lo + 1 + i])) else []
  }

  /** `w` is the log row with sequence number k. */
  ghost predicate IsRow(events: map<nat, Event>, k: nat, w: Wire) {
    k in events && w == Wire(k, events[k])
  }

  /** `s` is a run of consecutive log rows starting right after `lo`. */
  ghost predicate IsSegment(events: map<nat, Event>, lo: nat, s: seq<Wire>) {
    forall i :: 0 <= i < |s| ==> IsRow(events, lo + 1 + i, s[i])
  }

  lemma SegmentRows(events: map<nat, Event>, lo: nat, s: seq<Wire>)
    requires IsSegment(events, lo, s)
    ensures forall k :: lo < k <= lo + |s| ==> k in events
    ensures s == Segment(events, lo, lo + |s|)
  {
    forall k | lo < k <= lo + |s| ensures k in events {
      assert IsRow(events, lo + 1 + (k - lo - 1), s[k - lo - 1]);
    }
  }

  lemma SegmentJoin(events: map<nat, Event>, lo: nat, a: seq<Wire>, b: seq<Wire>)
    requires IsSegment(events, lo, a) && IsSegment(events, lo + |a|, b)
    ensures IsSegment(events, lo, a + b)
  {
    forall i | 0 <= i < |a + b| ensures IsRow(events, lo + 1 + i, (a + b)[i]) {
      if |a| <= i { assert IsRow(events, lo + |a| + 1 + (i - |a|), b[i - |a|]); }
    }
  }

  lemma SegmentDrop(events: map<nat, Event>, lo: nat, s: seq<Wire>)
    requires |s| > 0 && IsSegment(events, lo, s)
    ensures IsRow(events, lo + 1, s[0]) && IsSegment(events, lo + 1, s[1..])
  {
    forall i | 0 <= i < |s[1..]| ensures IsRow(events, lo + 1 + 1 + i, s[1..][i]) {
      assert IsRow(events, lo + 1 + (i + 1), s[i + 1]);
    }
  }

  lemma SegmentEnds(events: map<nat, Event>, lo: nat, s: seq<Wire>)
    requires IsSegment(events, lo, s)
    ensures s != [] ==> IsRow(events, lo + 1, s[0]) && IsRow(events, lo + |s|, s[|s| - 1])
  {
    assert s != [] ==> IsRow(events, lo + 1 + 0, s[0]) && IsRow(events, lo + 1 + (|s| - 1), s[|s| - 1]);
  }

  lemma SegmentExtends(row: Row, later: Row, lo: nat, s: seq<Wire>)
    requires Extends(row, later) && IsSegment(row.events, lo, s)
    ensures IsSegment(later.events, lo, s)
  {
    forall i | 0 <= i < |s| ensures IsRow(later.events, lo + 1 + i, s[i]) {
      assert IsRow(row.events, lo + 1 + i, s[i]);
    }
  }

  /** `WHERE seq > after ORDER BY seq LIMIT limit`, declaratively. */
  ghost predicate IsBatch(events: map<nat, Event>, after: nat, limit: nat, b: seq<Wire>) {
    && |b| <= limit
    && (forall i :: 0 <= i < |b| ==> after < b[i].seqNo && b[i].seqNo in events && events[b[i].seqNo] == b[i].event)
    && (forall i, j :: 0 <= i < j < |b| ==> b[i].seqNo < b[j].seqNo)
    && (forall k :: k in events && after < k && (|b| < limit || (|b| > 0 && k <= b[|b| - 1].seqNo)) ==> Contains(b, k))
  }

  ghost predicate Contains(b: seq<Wire>, k: nat) {
    exists i :: 0 <= i < |b| && b[i].seqNo == k
  }

  function Min(a: nat, b: nat): nat {
    if a < b then a else b
  }

  /** On a dense log the query has exactly one answer: the next `limit` consecutive rows. */
  lemma BatchIsSegment(row: Row, after: nat, limit: nat, b: seq<Wire>)
    requires Dense(row)
    ensures IsBatch(row.events, after, limit, b) <==> b == Segment(row.events, after, Min(after + limit, row.lastSeq))
  {
    if IsBatch(row.events, after, limit, b) {
      BatchDetermined(row, after, limit, b);
    }
    SegmentIsBatch(row, after, limit);
  }

  lemma BatchDetermined(row: Row, after: nat, limit: nat, b: seq<Wire>)
    requires Dense(row) && IsBatch(row.events, after, limit, b)
    ensures b == Segment(row.events, after, Min(after + limit, row.lastSeq))
  {
    var s := Segment(row.events, after, Min(after + limit, row.lastSeq));
    BatchLength(row, after, limit, b);
    forall i | 0 <= i < |b| ensures b[i] == s[i] {
      BatchSeqs(row, after, limit, b, i);
    }
  }

  lemma BatchLength(row: Row, after: nat, limit: nat, b: seq<Wire>)
    requires Dense(row) && IsBatch(row.events, after, limit, b)
    ensures |b| == if after < row.lastSeq then Min(limit, row.lastSeq - after) else 0
  {
    if |b| > 0 {
      BatchSeqs(row, after, limit, b, |b| - 1);
      assert b[|b| - 1].seqNo in row.events;
    }
    BatchSeqsBelow(row, after, limit, b);
    assert after + |b| + 1 in row.events <==> after + |b| < row.lastSeq;
  }

  lemma BatchSeqsBelow(row: Row, after: nat, limit: nat, b: seq<Wire>)
    requires Dense(row) && IsBatch(row.events, after, limit, b)
    ensures !Contains(b, after + |b| + 1)
  {
    if Contains(b, after + |b| + 1) {
      var i :| 0 <= i < |b| && b[i].seqNo == after + |b| + 1;
      BatchSeqs(row, after, limit, b, i);
    }
  }

  lemma SegmentIsBatch(row: Row, after: nat, limit: nat)
    requires Dense(row)
    ensures IsBatch(row.events, after, limit, Segment(row.events, after, Min(after + limit, row.lastSeq)))
  {
    var b := Segment(row.events, after, Min(after + limit, row.lastSeq));
    assert IsSegment(row.events, after, b);
    RowsAreBatch(row, after, limit, b);
  }

  lemma RowAt(events: map<nat, Event>, after: nat, b: seq<Wire>, i: nat)
    requires IsSegment(events, after, b) && i < |b|
    ensures b[i].seqNo == after + 1 + i && b[i].seqNo in events && events[b[i].seqNo] == b[i].event
  {
    assert IsRow(events, after + 1 + i, b[i]);
  }

  lemma RowsAreBatch(row: Row, after: nat, limit: nat, b: seq<Wire>)
    requires Dense(row) && IsSegment(row.events, after, b)
    requires |b| == if after < row.lastSeq then Min(limit, row.lastSeq - after) else 0
    ensures IsBatch(row.events, after, limit, b)
  {
    forall i | 0 <= i < |b| ensures after < b[i].seqNo && b[i].seqNo in row.events && row.events[b[i].seqNo] == b[i].event {
      RowAt(row.events, after, b, i);
    }
    forall i, j | 0 <= i < j < |b| ensures b[i].seqNo < b[j].seqNo {
      RowAt(row.events, after, b, i);
      RowAt(row.events, after, b, j);
    }
    forall k | k in row.events && after < k && (|b| < limit || (|b| > 0 && k <= b[|b| - 1].seqNo))
      ensures Contains(b, k)
    {
      if |b| > 0 {
        RowAt(row.events, after, b, |b| - 1);
      }
      assert k - after - 1 < |b|;
      RowAt(row.events, after, b, k - after - 1);
    }
  }

  lemma {:induction false} BatchSeqs(row: Row, after: nat, limit: nat, b: seq<Wire>, i: nat)
    requires Dense(row) && IsBatch(row.events, after, limit, b) && i < |b|
    ensures b[i].seqNo == after + 1 + i
  {
    var before := if i == 0 then after else b[i - 1].seqNo;
    if i > 0 { BatchSeqs(row, after, limit, b, i - 1); }
    assert b[i].seqNo in row.events;
    assert before + 1 in row.events;
  }

  /** The run row and its log as the server keeps them; every method is one transaction. */
  class RunTable {
    var status: Status
    var lastSeq: nat
    var events: map<nat, Event>

    ghost function Value(): Row
      reads this
    {
      Row(status, lastSeq, events)
    }

    constructor ()
      ensures Value() == NewRow && Dense(Value())
    {
      status, lastSeq, events := Queued, 0, map[];
    }

    /** First half of `_append_event`: load the row and bump `last_seq` in memory only. */
    method Begin(event: Event) returns (a: Append)
      ensures a == BeginAppend(Value(), event)
    {
      a := Append(lastSeq + 1, event);
    }

    /** Second half: INSERT the event and UPDATE `last_seq` in one commit, which the unique
        index may refuse. */
    method Commit(a: Append) returns (committed: bool)
      modifies this
      ensures Value() == CommitAppend(old(Value()), a)
      ensures committed <==> !Refused(old(Value()), a)
    {
      committed := a.seqNo !in events;
      if committed {
        events := events[a.seqNo := a.event];
        lastSeq := a.seqNo;
      }
    }

    method UpdateStatus(s: Status)
      modifies this`status
      ensures Value() == old(Value()).(status := s)
    {
      status := s;
    }
  }
}
