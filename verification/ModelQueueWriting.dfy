/** What writing a batch records, unit by unit, and how the request ledger is read back. */
module ModelQueueWriting {
  import opened Seqs
  import opened JsonShape
  import opened ModelQueue
  import opened ModelQueueRequests

  /** How far a batch gets: up to its first schema that is not accepted. */
  function StopAt(units: seq<Unit>, done: nat): (n: nat)
    requires done <= |units|
    ensures done <= n <= |units|
    ensures forall k :: done <= k < n ==> Accepts(units[k].schema)
    ensures n < |units| ==> !Accepts(units[n].schema)
    decreases |units| - done
  {
    if done == |units| || !Accepts(units[done].schema) then done else StopAt(units, done + 1)
  }

  /** Some unit of this stretch asks this call. */
  ghost predicate AskedIn(units: seq<Unit>, from: nat, to: nat, call: string) {
    exists k :: from <= k < to && k < |units| && units[k].call == call
  }

  ghost predicate AskerIn(units: seq<Unit>, from: nat, to: nat, call: string, asker: Asker) {
    exists k :: from <= k < to && k < |units| && units[k].call == call && units[k].asker == asker
  }

  ghost predicate TargetIn(units: seq<Unit>, from: nat, to: nat, call: string, target: string) {
    exists k :: from <= k < to && k < |units| && units[k].call == call && units[k].target == target
  }

  ghost predicate FirstIn(units: seq<Unit>, from: nat, to: nat, call: string, unit: Unit) {
    exists k :: from <= k < to && k < |units| && units[k] == unit && unit.call == call
      && forall m :: from <= m < k ==> units[m].call != call
  }

  /** From `before` to `after` a stretch of units has been recorded, and nothing else. */
  ghost predicate Records(review: bool, units: seq<Unit>, from: nat, to: nat, call: string, before: Option<Request>,
                          after: Option<Request>) {
    && (after.Some? <==> before.Some? || AskedIn(units, from, to, call))
    && (before.Some? ==> after.value.first == before.value.first)
    && (before.None? && after.Some? ==> FirstIn(units, from, to, call, after.value.first))
    && (after.Some? ==> forall a :: a in after.value.askedBy <==>
          (before.Some? && a in before.value.askedBy) || AskerIn(units, from, to, call, a))
    && (after.Some? && review ==> forall t :: t in TargetsOf(after.value) <==>
          (before.Some? && t in TargetsOf(before.value)) || TargetIn(units, from, to, call, t))
  }

  /** What one unit makes of what is held for its own call. */
  lemma OwnCallRecords(review: bool, held: Option<Request>, unit: Unit)
    requires held.Some? ==> held.value.first.call == unit.call
    ensures var row := Asked(review, held, unit); var now := if row.Some? then row else held;
      Records(review, [unit], 0, 1, unit.call, held, now)
  {
    assert [unit][0] == unit;
    var row := Asked(review, held, unit);
    var now := if row.Some? then row else held;
    assert AskedIn([unit], 0, 1, unit.call);
    assert forall a :: AskerIn([unit], 0, 1, unit.call, a) <==> a == unit.asker;
    assert forall t :: TargetIn([unit], 0, 1, unit.call, t) <==> t == unit.target;
    assert FirstIn([unit], 0, 1, unit.call, unit);
    hide AskedIn, AskerIn, TargetIn, FirstIn;
  }

  lemma OtherCallRecords(review: bool, held: Option<Request>, unit: Unit, call: string)
    requires call != unit.call
    ensures Records(review, [unit], 0, 1, call, held, held)
  {
    assert [unit][0] == unit;
  }

  lemma RecordsAt(review: bool, units: seq<Unit>, k: nat, call: string, x: Option<Request>, y: Option<Request>)
    requires k < |units| && Records(review, [units[k]], 0, 1, call, x, y)
    ensures Records(review, units, k, k + 1, call, x, y)
  {
    var one := [units[k]];
    assert one[0] == units[k];
    assert AskedIn(units, k, k + 1, call) <==> AskedIn(one, 0, 1, call);
    assert forall a :: AskerIn(units, k, k + 1, call, a) <==> AskerIn(one, 0, 1, call, a);
    assert forall t :: TargetIn(units, k, k + 1, call, t) <==> TargetIn(one, 0, 1, call, t);
    assert forall u :: FirstIn(one, 0, 1, call, u) ==> FirstIn(units, k, k + 1, call, u);
    hide AskedIn, AskerIn, TargetIn, FirstIn;
  }

  lemma OneRecords(review: bool, rows: seq<Request>, units: seq<Unit>, k: nat, call: string)
    requires k < |units|
    ensures Records(review, units, k, k + 1, call, Find(Requests(rows), call),
                    Find(Requests(StepRows(review, rows, units[k])), call))
  {
    var unit := units[k];
    var held := Find(Requests(rows), unit.call);
    var row := Asked(review, held, unit);
    if row.Some? {
      FindAppended(rows, row.value, call);
      assert row.value.first.call == unit.call;
    }
    if call == unit.call { OwnCallRecords(review, held, unit); } else {
      OtherCallRecords(review, Find(Requests(rows), call), unit, call);
    }
    hide Requests, Find, Accepts, Records, Asked;
    RecordsAt(review, units, k, call, Find(Requests(rows), call), Find(Requests(StepRows(review, rows, unit)), call));
  }

  lemma RecordsTwice(review: bool, units: seq<Unit>, a: nat, b: nat, c: nat, call: string, x: Option<Request>,
                     y: Option<Request>, z: Option<Request>)
    requires a <= b <= c && Records(review, units, a, b, call, x, y) && Records(review, units, b, c, call, y, z)
    ensures Records(review, units, a, c, call, x, z)
  {
    assert AskedIn(units, a, c, call) <==> AskedIn(units, a, b, call) || AskedIn(units, b, c, call);
    assert forall p :: AskerIn(units, a, c, call, p) <==>
      AskerIn(units, a, b, call, p) || AskerIn(units, b, c, call, p);
    assert forall t :: TargetIn(units, a, c, call, t) <==>
      TargetIn(units, a, b, call, t) || TargetIn(units, b, c, call, t);
    if x.None? && y.None? && z.Some? {
      var unit := z.value.first;
      var k :| b <= k < c && k < |units| && units[k] == unit && unit.call == call
        && forall m :: b <= m < k ==> units[m].call != call;
      assert !AskedIn(units, a, b, call);
      assert forall m :: a <= m < b && m < |units| ==> units[m].call != call;
    }
  }

  lemma NothingRecorded(review: bool, units: seq<Unit>, n: nat, call: string, x: Option<Request>)
    ensures Records(review, units, n, n, call, x, x)
  {}

  lemma {:induction false} WriteRecordsFrom(review: bool, rows: seq<Request>, units: seq<Unit>, done: nat, count: nat,
                                            call: string)
    requires done <= |units|
    ensures var end := WriteFrom(review, rows, units, done, count);
      && Records(review, units, done, StopAt(units, done), call, Find(Requests(rows), call),
                 Find(Requests(end.0), call))
      && (if StopAt(units, done) < |units| then end.1 == SchemaRefused(StopAt(units, done)) else end.1.Wrote?)
    decreases |units| - done
  {
    hide Requests, Find, Records, Accepts, Asked;
    if done == |units| || !Accepts(units[done].schema) {
      NothingRecorded(review, units, done, call, Find(Requests(rows), call));
    } else {
      var next := StepRows(review, rows, units[done]);
      var count' := if Find(Requests(rows), units[done].call).None? then count + 1 else count;
      OneRecords(review, rows, units, done, call);
      WriteRecordsFrom(review, next, units, done + 1, count', call);
      var end := WriteFrom(review, next, units, done + 1, count').0;
      RecordsTwice(review, units, done, done + 1, StopAt(units, done), call, Find(Requests(rows), call),
                   Find(Requests(next), call), Find(Requests(end), call));
    }
  }

  /** A batch records exactly its units up to the first schema that is not accepted, and says where that
      was: a new call keeps the wording of the first that asked it, an old one its own, and askers and
      review targets are those before and those of the batch, no more. */
  lemma WriteRecordsExactly(review: bool, rows: seq<Request>, units: seq<Unit>, call: string)
    ensures var end := WriteFrom(review, rows, units, 0, 0);
      && Records(review, units, 0, StopAt(units, 0), call, Find(Requests(rows), call), Find(Requests(end.0), call))
      && (if StopAt(units, 0) < |units| then end.1 == SchemaRefused(StopAt(units, 0)) else end.1.Wrote?)
  {
    WriteRecordsFrom(review, rows, units, 0, 0, call);
  }

  // ---------- reading the ledger back ----------

  /** The first row of the ledger for this call. */
  ghost predicate FirstRow(rows: seq<Request>, call: string, i: int) {
    0 <= i < |rows| && rows[i].first.call == call && forall k :: 0 <= k < i ==> rows[k].first.call != call
  }

  ghost predicate LastRow(rows: seq<Request>, call: string, i: int) {
    0 <= i < |rows| && rows[i].first.call == call && forall k :: i < k < |rows| ==> rows[k].first.call != call
  }

  /** Every held request is the last row of its call. */
  ghost predicate AreLast(rows: seq<Request>, held: seq<Request>) {
    forall m :: 0 <= m < |held| ==> IsLast(rows, held[m])
  }

  ghost predicate IsLast(rows: seq<Request>, r: Request) { exists i :: LastRow(rows, r.first.call, i) && rows[i] == r }

  /** Every row's call is held. */
  ghost predicate AreHeld(rows: seq<Request>, held: seq<Request>) {
    forall i :: 0 <= i < |rows| ==> exists m :: 0 <= m < |held| && held[m].first.call == rows[i].first.call
  }

  ghost predicate CameBefore(rows: seq<Request>, a: string, b: string) {
    forall i, k :: FirstRow(rows, a, i) && FirstRow(rows, b, k) ==> i < k
  }

  /** The held requests stand in the order in which their calls first came. */
  ghost predicate InOrder(rows: seq<Request>, held: seq<Request>) {
    forall m, n :: 0 <= m < n < |held| ==> CameBefore(rows, held[m].first.call, held[n].first.call)
  }

  lemma LastSnoc(rows: seq<Request>, r: Request, earlier: Request)
    ensures IsLast(rows + [r], r)
    ensures IsLast(rows, earlier) && earlier.first.call != r.first.call ==> IsLast(rows + [r], earlier)
  {
    var more := rows + [r];
    assert forall k :: 0 <= k < |rows| ==> more[k] == rows[k];
    assert more[|rows|] == r && LastRow(more, r.first.call, |rows|);
    if IsLast(rows, earlier) && earlier.first.call != r.first.call {
      var i :| LastRow(rows, earlier.first.call, i) && rows[i] == earlier;
      assert LastRow(more, earlier.first.call, i) && more[i] == earlier;
    }
  }

  lemma CameSnoc(rows: seq<Request>, r: Request, a: string, b: string)
    requires CameBefore(rows, a, b) && exists i :: 0 <= i < |rows| && rows[i].first.call == a
    ensures CameBefore(rows + [r], a, b)
  {
    var more := rows + [r];
    assert forall k :: 0 <= k < |rows| ==> more[k] == rows[k];
    forall i, k | FirstRow(more, a, i) && FirstRow(more, b, k) ensures i < k {
      var x :| 0 <= x < |rows| && rows[x].first.call == a;
      assert more[x].first.call == a;
      assert FirstRow(rows, a, i);
      if k < |rows| { assert FirstRow(rows, b, k); }
    }
  }

  /** Putting a request replaces the one of its call, or adds it at the end. */
  lemma PutShape(held: seq<Request>, r: Request)
    requires CallsDistinct(held)
    ensures var now, at := PutRequest(held, r), At(held, r.first.call);
      && |now| == (if at < |held| then |held| else |held| + 1) && at < |now| && now[at] == r
      && (forall m :: 0 <= m < |held| ==> now[m].first.call == held[m].first.call)
      && (forall m :: 0 <= m < |held| && m != at ==> now[m] == held[m] && held[m].first.call != r.first.call)
  {}

  lemma PutReads(rows: seq<Request>, held: seq<Request>, r: Request)
    requires AreLast(rows, held) && AreHeld(rows, held) && CallsDistinct(held)
    ensures AreLast(rows + [r], PutRequest(held, r)) && AreHeld(rows + [r], PutRequest(held, r))
  {
    var more, now, at := rows + [r], PutRequest(held, r), At(held, r.first.call);
    PutShape(held, r);
    hide LastRow, IsLast, At, PutRequest, CallsDistinct;
    forall m | 0 <= m < |now| ensures IsLast(more, now[m]) {
      LastSnoc(rows, r, now[m]);
    }
    forall i | 0 <= i < |more| ensures exists m :: 0 <= m < |now| && now[m].first.call == more[i].first.call {
      if i < |rows| {
        assert more[i] == rows[i];
        var m :| 0 <= m < |held| && held[m].first.call == rows[i].first.call;
        assert now[m].first.call == more[i].first.call;
      } else {
        assert now[at].first.call == more[i].first.call;
      }
    }
  }

  lemma PutInOrder(rows: seq<Request>, held: seq<Request>, r: Request)
    requires AreLast(rows, held) && AreHeld(rows, held) && InOrder(rows, held) && CallsDistinct(held)
    ensures InOrder(rows + [r], PutRequest(held, r))
  {
    var more, now, at := rows + [r], PutRequest(held, r), At(held, r.first.call);
    PutShape(held, r);
    if at == |held| { NewComesLast(rows, held, r); }
    hide CameBefore, At, AreHeld, PutRequest, CallsDistinct, LastRow, FirstRow;
    forall m, n | 0 <= m < n < |now| ensures CameBefore(more, now[m].first.call, now[n].first.call) {
      assert m < |held| && IsLast(rows, held[m]);
      LastIsThere(rows, held[m]);
      CameSnoc(rows, r, held[m].first.call, now[n].first.call);
    }
  }

  lemma LastIsThere(rows: seq<Request>, r: Request)
    requires IsLast(rows, r)
    ensures exists i :: 0 <= i < |rows| && rows[i].first.call == r.first.call
  {}

  lemma NewComesLast(rows: seq<Request>, held: seq<Request>, r: Request)
    requires AreHeld(rows, held) && At(held, r.first.call) == |held|
    ensures forall call :: CameBefore(rows, call, r.first.call)
  {
    forall i | 0 <= i < |rows| ensures rows[i].first.call != r.first.call {
      var m :| 0 <= m < |held| && held[m].first.call == rows[i].first.call;
    }
  }

  /** Reading the request ledger gives one row per call, its last, in the order the calls first came. */
  lemma {:induction false} RequestsReadBack(rows: seq<Request>)
    ensures var held := Requests(rows);
      AreLast(rows, held) && AreHeld(rows, held) && InOrder(rows, held) && CallsDistinct(held)
  {
    RequestsDistinct(rows);
    if rows != [] {
      var front, r := rows[..|rows| - 1], rows[|rows| - 1];
      RequestsReadBack(front);
      assert rows == front + [r];
      hide AreLast, AreHeld, InOrder, PutRequest;
      PutReads(front, Requests(front), r);
      PutInOrder(front, Requests(front), r);
    }
  }
}
