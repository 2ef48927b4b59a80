/** The in-memory history of long-running operations and its limits. */
module OperationLog {
  import opened Prelude
  import opened Pruning

  const MAX_UNFINISHED := 32
  const MAX_RECORDS := 256
  const MAX_HISTORY_BYTES := 32 * 1024 * 1024
  const MAX_RESULT_BYTES := 2 * 1024 * 1024

  datatype OperationState = Queued | Running | Completed | Failed

  /** `completedAt` is the clock reading at the end. */
  datatype Operation = Operation(state: OperationState, completedAt: Option<nat>, resultBytes: nat)

  type Operations = map<string, Operation>

  function BytesOf(o: Operation): nat { o.resultBytes }

  function EndOf(o: Operation): nat { if o.completedAt.Some? then o.completedAt.value else 0 }

  function Unfinished(ops: Operations): set<string> { set id | id in ops && ops[id].completedAt.None? }

  ghost function HistoryBytes(ops: Operations): nat { Total(ops, ops.Keys, BytesOf) }

  /** `after` is `before` without some finished operations, the oldest ones. */
  ghost predicate Evicts(before: Operations, after: Operations) {
    && (forall id | id in after :: id in before && after[id] == before[id])
    && (forall id | id in before && before[id].completedAt.None? :: id in after)
    && (forall gone, kept | gone in before && gone !in after && kept in after && after[kept].completedAt.Some? ::
          EndOf(before[gone]) <= EndOf(after[kept]))
  }

  /** Results of finished operations, and room for those still to come, stay within 96 MiB. */
  ghost predicate Bounded(ops: Operations) {
    && |ops| <= MAX_RECORDS && |Unfinished(ops)| <= MAX_UNFINISHED
    && (forall id | id in ops && ops[id].completedAt.None? :: ops[id].resultBytes == 0)
    && HistoryBytes(ops) + MAX_RESULT_BYTES * |Unfinished(ops)| <= 96 * 1024 * 1024
  }

  lemma {:induction false} SameTotal(a: Operations, b: Operations, ids: set<string>)
    requires ids <= a.Keys && ids <= b.Keys && forall id | id in ids :: BytesOf(a[id]) == BytesOf(b[id])
    ensures Total(a, ids, BytesOf) == Total(b, ids, BytesOf)
    decreases ids
  {
    if ids != {} {
      var id :| id in ids;
      TotalRemove(a, ids, BytesOf, id);
      TotalRemove(b, ids, BytesOf, id);
      SameTotal(a, b, ids - {id});
    }
  }

  lemma PutBytes(ops: Operations, id: string, o: Operation)
    ensures HistoryBytes(ops[id := o]) + (if id in ops then ops[id].resultBytes else 0)
      == HistoryBytes(ops) + o.resultBytes
  {
    var after := ops[id := o];
    var others := ops.Keys - {id};
    TotalRemove(after, after.Keys, BytesOf, id);
    assert after.Keys - {id} == others;
    SameTotal(ops, after, others);
    if id in ops { TotalRemove(ops, ops.Keys, BytesOf, id); } else { assert others == ops.Keys; }
  }

  lemma DropBytes(ops: Operations, id: string)
    requires id in ops
    ensures HistoryBytes(ops - {id}) + ops[id].resultBytes == HistoryBytes(ops)
  {
    TotalRemove(ops, ops.Keys, BytesOf, id);
    assert (ops - {id}).Keys == ops.Keys - {id};
    SameTotal(ops, ops - {id}, ops.Keys - {id});
  }

  lemma {:induction false} NoBytes(ops: Operations, ids: set<string>)
    requires ids <= ops.Keys && forall id | id in ids :: ops[id].resultBytes == 0
    ensures Total(ops, ids, BytesOf) == 0
    decreases ids
  {
    if ids != {} {
      var id :| id in ids;
      TotalRemove(ops, ids, BytesOf, id);
      NoBytes(ops, ids - {id});
    }
  }

  lemma PutUnfinished(ops: Operations, id: string, o: Operation)
    ensures Unfinished(ops[id := o]) == if o.completedAt.None? then Unfinished(ops) + {id} else Unfinished(ops) - {id}
  {
  }

  lemma DropEvicts(start: Operations, ops: Operations, id: string)
    requires Evicts(start, ops) && IsOldest(ops, Unfinished(ops), EndOf, id)
    ensures Evicts(start, ops - {id}) && Unfinished(ops - {id}) == Unfinished(ops)
  {
  }

  lemma PutDrop(ops: Operations, id: string, o: Operation)
    requires id !in ops
    ensures ops[id := o] - {id} == ops
  {
  }

  /** There is room for one more operation once both limits hold. */
  lemma AdmitBounded(ops: Operations, id: string)
    requires id !in ops && |ops| < MAX_RECORDS && |Unfinished(ops)| < MAX_UNFINISHED
      && HistoryBytes(ops) <= MAX_HISTORY_BYTES
    requires forall x | x in ops && ops[x].completedAt.None? :: ops[x].resultBytes == 0
    ensures Bounded(ops[id := Operation(Queued, None, 0)]) && ops[id := Operation(Queued, None, 0)] - {id} == ops
  {
    var queued := Operation(Queued, None, 0);
    PutDrop(ops, id, queued);
    PutBytes(ops, id, queued);
    PutUnfinished(ops, id, queued);
    OneMore(Unfinished(ops), id);
    Sizes(ops, id, queued);
  }

  lemma OneMore(ids: set<string>, id: string)
    ensures |ids + {id}| <= |ids| + 1
  {
    assert id in ids ==> ids + {id} == ids;
  }

  lemma EvictsKeepsEmpty(before: Operations, after: Operations)
    requires Evicts(before, after) && forall x | x in before
      && before[x].completedAt.None? :: before[x].resultBytes == 0
    ensures forall x | x in after && after[x].completedAt.None? :: after[x].resultBytes == 0
    ensures forall id | id !in before :: id !in after
  {
  }

  class OperationTable {
    var records: Operations

    constructor ()
      ensures Bounded(records) && records == map[]
    {
      records := map[];
      new;
      assert Unfinished(records) == {};
    }

    /** Makes room: the oldest finished operations go until both limits hold. */
    method EvictOldest()
      requires Bounded(records) && |Unfinished(records)| < MAX_UNFINISHED
      modifies this
      ensures Evicts(old(records), records) && Unfinished(records) == Unfinished(old(records))
      ensures |records| < MAX_RECORDS && HistoryBytes(records) <= MAX_HISTORY_BYTES
      ensures |old(records)| < MAX_RECORDS && HistoryBytes(old(records)) <= MAX_HISTORY_BYTES ==>
        records == old(records)
    {
      ghost var start := records;
      while true
        invariant Evicts(start, records) && Unfinished(records) == Unfinished(start)
        invariant |start| < MAX_RECORDS && HistoryBytes(start) <= MAX_HISTORY_BYTES ==> records == start
        decreases |records|
      {
        var bytes := SumTable(records, {}, BytesOf);
        assert records.Keys - {} == records.Keys;
        if |records| < MAX_RECORDS && bytes <= MAX_HISTORY_BYTES {
          break;
        }
        var unfinished := Unfinished(records);
        var oldest := OldestUnpinned(records, unfinished, EndOf);
        if oldest.None? {
          SubsetSize(records.Keys, unfinished);
          NoBytes(records, records.Keys);
          break;
        }
        DropEvicts(start, records, oldest.value);
        Smaller(records, oldest.value);
        records := records - {oldest.value};
      }
    }

    /** Admits an operation unless too many are unfinished. */
    method Start(id: string) returns (ok: bool)
      requires Bounded(records) && id !in records
      modifies this
      ensures Bounded(records)
      ensures ok <==> |Unfinished(old(records))| < MAX_UNFINISHED
      ensures !ok ==> records == old(records)
      ensures ok ==> id in records && records[id] == Operation(Queued, None, 0) && Evicts(old(records), records - {id})
    {
      if |Unfinished(records)| >= MAX_UNFINISHED {
        return false;
      }
      ghost var before := records;
      EvictOldest();
      EvictsKeepsEmpty(before, records);
      AdmitBounded(records, id);
      records := records[id := Operation(Queued, None, 0)];
      return true;
    }

    method MarkRunning(id: string)
      requires Bounded(records) && id in records && records[id].completedAt.None?
      modifies this
      ensures Bounded(records) && records == old(records)[id := old(records)[id].(state := Running)]
    {
      var running := records[id].(state := Running);
      PutBytes(records, id, running);
      PutUnfinished(records, id, running);
      assert Unfinished(records) + {id} == Unfinished(records);
      Sizes(records, id, running);
      records := records[id := running];
    }

    /** `size` is the length of the result, `None` for an error; a result over the limit counts
        as an error and is not kept. */
    method Finish(id: string, size: Option<nat>, now: nat)
      requires Bounded(records) && id in records && records[id].completedAt.None?
      modifies this
      ensures Bounded(records)
      ensures var kept := size.Some? && size.value <= MAX_RESULT_BYTES;
        records == old(records)[id := Operation(if kept then Completed else Failed, Some(now), if kept then size.value
          else 0)]
    {
      var done := if size.Some? && size.value <= MAX_RESULT_BYTES then Operation(Completed, Some(now), size.value)
                  else Operation(Failed, Some(now), 0);
      PutBytes(records, id, done);
      PutUnfinished(records, id, done);
      assert |Unfinished(records) - {id}| == |Unfinished(records)| - 1;
      Sizes(records, id, done);
      records := records[id := done];
    }
  }
}
