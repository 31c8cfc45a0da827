/** The storage sink: `Request.objects.bulk_create`, which inserts a list of
    records in one call or raises. The sink remembers every call it received;
    the rows in the table are the records of the calls that succeeded. */
module Storage {
  import opened Records

  /** One bulk-insert call: the records passed and whether it succeeded. */
  datatype Insert = Insert(records: seq<Request>, succeeded: bool)

  function Flatten<T>(ss: seq<seq<T>>): seq<T> {
    if ss == [] then [] else ss[0] + Flatten(ss[1..])
  }

  lemma {:induction false} FlattenAppend<T>(a: seq<seq<T>>, b: seq<seq<T>>)
    ensures Flatten(a + b) == Flatten(a) + Flatten(b)
  {
    if a != [] {
      assert (a + b)[1..] == a[1..] + b;
      FlattenAppend(a[1..], b);
    } else {
      assert a + b == b;
    }
  }

  /** The record lists of the calls, in call order. */
  function Batches(calls: seq<Insert>): (bs: seq<seq<Request>>)
    ensures |bs| == |calls|
    ensures forall i :: 0 <= i < |calls| ==> bs[i] == calls[i].records
  {
    seq(|calls|, i requires 0 <= i < |calls| => calls[i].records)
  }

  /** Every record handed to the sink, in call order. */
  function Attempted(calls: seq<Insert>): seq<Request> {
    Flatten(Batches(calls))
  }

  /** The rows the calls left in the table: the records of the successful
      calls, in call order (a failed call inserts nothing). */
  function Persisted(calls: seq<Insert>): seq<Request> {
    if calls == [] then []
    else
      var last := calls[|calls| - 1];
      Persisted(calls[..|calls| - 1]) + (if last.succeeded then last.records else [])
  }

  lemma AttemptedAppend(calls: seq<Insert>, more: seq<Insert>)
    ensures Attempted(calls + more) == Attempted(calls) + Attempted(more)
  {
    assert Batches(calls + more) == Batches(calls) + Batches(more);
    FlattenAppend(Batches(calls), Batches(more));
  }

  lemma {:induction false} PersistedAppend(calls: seq<Insert>, more: seq<Insert>)
    ensures Persisted(calls + more) == Persisted(calls) + Persisted(more)
    decreases |more|
  {
    if more != [] {
      var init := more[..|more| - 1];
      assert (calls + more)[..|calls + more| - 1] == calls + init;
      PersistedAppend(calls, init);
    } else {
      assert calls + more == calls;
    }
  }

  /** When every call succeeded, the table holds exactly what was attempted,
      in the same order. */
  lemma {:induction false} PersistedAllSucceeded(calls: seq<Insert>)
    requires forall i :: 0 <= i < |calls| ==> calls[i].succeeded
    ensures Persisted(calls) == Attempted(calls)
  {
    if calls != [] {
      var init := calls[..|calls| - 1];
      PersistedAllSucceeded(init);
      assert calls == init + [calls[|calls| - 1]];
      AttemptedAppend(init, [calls[|calls| - 1]]);
      AttemptedSingle(calls[|calls| - 1]);
    }
  }

  /** One more call adds its records to the table when it succeeds, and
      nothing when it fails. */
  lemma PersistedSnoc(calls: seq<Insert>, last: Insert)
    ensures Persisted(calls + [last]) == Persisted(calls) + (if last.succeeded then last.records else [])
  {
    assert (calls + [last])[..|calls|] == calls;
  }

  lemma SplitLast<T>(s: seq<T>)
    requires s != []
    ensures s == s[..|s| - 1] + [s[|s| - 1]]
  {
  }

  lemma AttemptedSingle(call: Insert)
    ensures Attempted([call]) == call.records
  {
    var bs := Batches([call]);
    assert bs == [call.records];
    assert bs[1..] == [];
    assert Flatten(bs) == call.records + Flatten(bs[1..]);
  }

  /** `Request.objects`: each bulk insert either stores all of its records or
      raises and stores none (the insert runs in one transaction). Which of the
      two happens is not determined by the model. */
  class Sink {
    var calls: seq<Insert>

    constructor ()
      ensures calls == []
    {
      calls := [];
    }

    method BulkCreate(records: seq<Request>) returns (ok: bool)
      modifies this`calls
      ensures calls == old(calls) + [Insert(records, ok)]
    {
      ok :| true;
      calls := calls + [Insert(records, ok)];
    }
  }
}
