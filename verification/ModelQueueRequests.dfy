/** What asking keeps: one request per call, its first wording, and everyone who asked. */
module ModelQueueRequests {
  import opened Seqs
  import opened JsonShape
  import opened ModelQueue

  ghost predicate CallsDistinct(rs: seq<Request>) {
    forall i, j :: 0 <= i < j < |rs| ==> rs[i].first.call != rs[j].first.call
  }

  lemma AtIs(rs: seq<Request>, i: nat)
    requires CallsDistinct(rs) && i < |rs|
    ensures At(rs, rs[i].first.call) == i
  {}

  lemma FindPut(rs: seq<Request>, r: Request, call: string)
    ensures Find(PutRequest(rs, r), call) == if call == r.first.call then Some(r) else Find(rs, call)
  {
    var put := PutRequest(rs, r);
    var i := At(rs, call);
    if call == r.first.call {
      assert put[i] == r;
    } else if i < |rs| {
      assert put[i] == rs[i];
    } else {
      forall m | 0 <= m < |put| ensures put[m].first.call != call {
        assert put[m] == r || (m < |rs| && put[m] == rs[m]);
      }
    }
  }

  lemma {:induction false} RequestsDistinct(rows: seq<Request>)
    ensures CallsDistinct(Requests(rows))
  {
    if rows != [] {
      RequestsDistinct(rows[..|rows| - 1]);
      var before, r := Requests(rows[..|rows| - 1]), rows[|rows| - 1];
      if At(before, r.first.call) == |before| {
        assert forall i :: 0 <= i < |before| ==> before[i].first.call != r.first.call;
      }
    }
  }

  lemma FindAppended(rows: seq<Request>, r: Request, call: string)
    ensures Find(Requests(rows + [r]), call) == if call == r.first.call then Some(r) else Find(Requests(rows), call)
  {
    assert (rows + [r])[..|rows|] == rows;
    FindPut(Requests(rows), r, call);
  }

  ghost predicate Subset<T>(a: seq<T>, b: seq<T>) { forall i :: 0 <= i < |a| ==> a[i] in b }

  /** A held request still holds: first wording unchanged, nobody who asked is dropped. */
  ghost predicate Grown(before: Option<Request>, after: Option<Request>) {
    before.Some? ==>
      && after.Some? && after.value.first == before.value.first
      && Subset(before.value.askedBy, after.value.askedBy)
      && Subset(TargetsOf(before.value), TargetsOf(after.value))
      && (Distinct(before.value.askedBy) ==> Distinct(after.value.askedBy))
  }

  /** Everything the unit asks is recorded. */
  ghost predicate Recorded(review: bool, held: Option<Request>, unit: Unit) {
    held.Some? && unit.asker in held.value.askedBy && (review ==> unit.target in TargetsOf(held.value))
  }

  function StepRows(review: bool, rows: seq<Request>, unit: Unit): seq<Request> {
    var row := Asked(review, Find(Requests(rows), unit.call), unit);
    if row.Some? then rows + [row.value] else rows
  }

  lemma OneAsked(review: bool, rows: seq<Request>, unit: Unit, call: string)
    ensures Grown(Find(Requests(rows), call), Find(Requests(StepRows(review, rows, unit)), call))
    ensures Recorded(review, Find(Requests(StepRows(review, rows, unit)), unit.call), unit)
    ensures call != unit.call ==> Find(Requests(StepRows(review, rows, unit)), call) == Find(Requests(rows), call)
  {
    var held := Find(Requests(rows), unit.call);
    var row := Asked(review, held, unit);
    if row.Some? {
      assert row.value.first.call == unit.call;
      FindAppended(rows, row.value, call);
      FindAppended(rows, row.value, unit.call);
    }
  }

  lemma GrownTwice(a: Option<Request>, b: Option<Request>, c: Option<Request>)
    requires Grown(a, b) && Grown(b, c)
    ensures Grown(a, c)
  {}

  lemma RecordedStays(review: bool, a: Option<Request>, b: Option<Request>, unit: Unit)
    requires Recorded(review, a, unit) && Grown(a, b)
    ensures Recorded(review, b, unit)
  {}

  /** Whatever happens to a batch, no held request loses its first wording or an asker. */
  lemma {:induction false} WriteGrows(review: bool, rows: seq<Request>, units: seq<Unit>, done: nat, count: nat,
                                      call: string)
    requires done <= |units|
    ensures Grown(Find(Requests(rows), call), Find(Requests(WriteFrom(review, rows, units, done, count).0), call))
    decreases |units| - done
  {
    if done < |units| && Accepts(units[done].schema) {
      hide Accepts;
      var next := StepRows(review, rows, units[done]);
      var count' := if Find(Requests(rows), units[done].call).None? then count + 1 else count;
      OneAsked(review, rows, units[done], call);
      WriteGrows(review, next, units, done + 1, count', call);
      GrownTwice(Find(Requests(rows), call), Find(Requests(next), call),
                 Find(Requests(WriteFrom(review, rows, units, done, count).0), call));
    }
  }

  /** After a batch is written every unit in it is recorded under its call. */
  lemma {:induction false} EveryAskerRecorded(review: bool, rows: seq<Request>, units: seq<Unit>, done: nat,
                                              count: nat, k: nat)
    requires done <= k < |units|
    requires WriteFrom(review, rows, units, done, count).1.Wrote?
    ensures Recorded(review, Find(Requests(WriteFrom(review, rows, units, done, count).0), units[k].call), units[k])
    decreases |units| - done
  {
    hide Accepts;
    var next := StepRows(review, rows, units[done]);
    var count' := if Find(Requests(rows), units[done].call).None? then count + 1 else count;
    var end := WriteFrom(review, rows, units, done, count).0;
    if k == done {
      OneAsked(review, rows, units[done], units[k].call);
      WriteGrows(review, next, units, done + 1, count', units[k].call);
      RecordedStays(review, Find(Requests(next), units[k].call), Find(Requests(end), units[k].call), units[k]);
    } else {
      EveryAskerRecorded(review, next, units, done + 1, count', k);
    }
  }

  lemma {:induction false} NothingNew(review: bool, rows: seq<Request>, units: seq<Unit>, done: nat, count: nat)
    requires done <= |units|
    requires forall k :: done <= k < |units| ==> Accepts(units[k].schema)
    requires forall k :: done <= k < |units| ==> Recorded(review, Find(Requests(rows), units[k].call), units[k])
    ensures WriteFrom(review, rows, units, done, count) == (rows, Wrote(count))
    decreases |units| - done
  {
    if done < |units| {
      hide Accepts;
      assert Recorded(review, Find(Requests(rows), units[done].call), units[done]);
      NothingNew(review, rows, units, done + 1, count);
    }
  }

  lemma {:induction false} WroteMeansAccepted(review: bool, rows: seq<Request>, units: seq<Unit>, done: nat,
                                              count: nat, k: nat)
    requires done <= k < |units|
    requires WriteFrom(review, rows, units, done, count).1.Wrote?
    ensures Accepts(units[k].schema)
    decreases |units| - done
  {
    hide Accepts, Asked, Find, Requests;
    if done < k {
      var count' := if Find(Requests(rows), units[done].call).None? then count + 1 else count;
      WroteMeansAccepted(review, StepRows(review, rows, units[done]), units, done + 1, count', k);
    }
  }

  /** Writing a batch a second time appends nothing and reports no new call. */
  lemma WritingAgainIsSilent(review: bool, rows: seq<Request>, units: seq<Unit>)
    requires WriteFrom(review, rows, units, 0, 0).1.Wrote?
    ensures var once := WriteFrom(review, rows, units, 0, 0).0;
            WriteFrom(review, once, units, 0, 0) == (once, Wrote(0))
  {
    var once := WriteFrom(review, rows, units, 0, 0).0;
    forall k | 0 <= k < |units|
      ensures Accepts(units[k].schema) && Recorded(review, Find(Requests(once), units[k].call), units[k])
    {
      WroteMeansAccepted(review, rows, units, 0, 0, k);
      EveryAskerRecorded(review, rows, units, 0, 0, k);
    }
    NothingNew(review, once, units, 0, 0);
  }

  lemma PutSize(rs: seq<Request>, r: Request)
    ensures |PutRequest(rs, r)| == |rs| + (if Find(rs, r.first.call).None? then 1 else 0)
  {}

  /** The count a batch reports is exactly how many more calls the ledger holds. */
  lemma {:induction false} CallsCounted(review: bool, rows: seq<Request>, units: seq<Unit>, done: nat, count: nat)
    requires done <= |units|
    requires WriteFrom(review, rows, units, done, count).1.Wrote?
    ensures var end := WriteFrom(review, rows, units, done, count);
            end.1.calls == count + |Requests(end.0)| - |Requests(rows)|
    decreases |units| - done
  {
    if done < |units| {
      hide Accepts;
      var held := Find(Requests(rows), units[done].call);
      var row := Asked(review, held, units[done]);
      var next := StepRows(review, rows, units[done]);
      CallsCounted(review, next, units, done + 1, if held.None? then count + 1 else count);
      if row.Some? {
        assert row.value.first.call == units[done].call;
        assert (rows + [row.value])[..|rows|] == rows;
        PutSize(Requests(rows), row.value);
      }
    }
  }
}
