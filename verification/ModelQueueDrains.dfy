/** What one drain does to every reader's pending list. */
module ModelQueueDrains {
  import opened Seqs
  import opened ModelQueue
  import opened ModelQueueRequests
  import opened ModelQueueLaws

  ghost predicate Fresh(more: seq<Row>) {
    && (forall i :: 0 <= i < |more| ==> IsOriginal(more[i]))
    && (forall i, j :: 0 <= i < j < |more| ==> more[i].key != more[j].key)
  }

  ghost predicate SameAt(a: map<Key, Row>, b: map<Key, Row>, k: Key) {
    (k in a <==> k in b) && (k in a ==> a[k] == b[k])
  }

  lemma ReadSnoc(requests: seq<Request>, sel: Selection, rows: seq<Row>, row: Row)
    ensures Read(requests, sel, rows + [row]) == See(requests, sel, Read(requests, sel, rows), row)
  {
    assert (rows + [row])[..|rows|] == rows;
  }

  lemma {:induction false} OthersUnchanged(requests: seq<Request>, sel: Selection, rows: seq<Row>, more: seq<Row>,
                                           k: Key)
    requires forall i :: 0 <= i < |more| ==> IsOriginal(more[i]) && more[i].key != k
    ensures SameAt(Read(requests, sel, rows).shown, Read(requests, sel, rows + more).shown, k)
  {
    hide Marked, AsFirstJudged, Selected, PhysicalOf;
    if more == [] {
      assert rows + more == rows;
    } else {
      var n := |more| - 1;
      OthersUnchanged(requests, sel, rows, more[..n], k);
      assert rows + more == (rows + more[..n]) + [more[n]];
      ReadSnoc(requests, sel, rows + more[..n], more[n]);
    }
  }

  lemma AnswerIsShown(requests: seq<Request>, sel: Selection, rows: seq<Row>, more: seq<Row>, i: nat)
    requires Fresh(more) && i < |more| && Selected(sel, more[i])
    ensures more[i].key in Read(requests, sel, rows + more).shown
    ensures Read(requests, sel, rows + more).shown[more[i].key] == Marked(requests, more[i])
  {
    hide Marked, AsFirstJudged, Selected, PhysicalOf, Read;
    var upTo, rest := rows + more[..i], more[i + 1..];
    ReadSnoc(requests, sel, upTo, more[i]);
    OthersUnchanged(requests, sel, upTo + [more[i]], rest, more[i].key);
    assert rows + more == (upTo + [more[i]]) + rest;
  }

  lemma {:induction false} FilterSame<T>(f: T -> bool, g: T -> bool, s: seq<T>)
    requires forall x :: x in s ==> f(x) == g(x)
    ensures Filter(f, s) == Filter(g, s)
  {
    if s != [] {
      assert s[0] in s && forall x :: x in s[1..] ==> x in s;
      FilterSame(f, g, s[1..]);
    }
  }

  lemma AnswersFresh(s: State, d: DrainCall)
    ensures var more := Answers(d, s.results, Chosen(s, d));
            Fresh(more) && |more| == |Chosen(s, d)|
            && forall i :: 0 <= i < |more| ==> more[i].key == KeyFor(Chosen(s, d)[i], d.reader)
  {
    hide AnswerRow, EarlierAttempts, ChosenOf, PendingOf, Consistent;
    ChosenCalls(s, d);
    var chosen := Chosen(s, d);
    var more := Answers(d, s.results, chosen);
    forall i | 0 <= i < |more| ensures more[i].key == KeyFor(chosen[i], d.reader) && IsOriginal(more[i]) {
      AnswerIsConsistent(d, EarlierAttempts(s.results, KeyFor(chosen[i], d.reader)), chosen[i]);
    }
  }

  /** Draining as one reader leaves every other reader's pending list unchanged. */
  lemma OtherReadersUnmoved(s: State, d: DrainCall, other: Reader, retry: set<string>)
    requires other != d.reader
    ensures PendingOf(Requests(s.requests), AfterDrain(s, d).results, other, retry)
         == PendingOf(Requests(s.requests), s.results, other, retry)
  {
    hide Read, Requests, Chosen, Answers, ChosenOf;
    var requests, sel := Requests(s.requests), Selection(Some(other.backend), None);
    var more := Answers(d, s.results, Chosen(s, d));
    AnswersFresh(s, d);
    var a, b := Read(requests, sel, s.results).shown, Read(requests, sel, s.results + more).shown;
    forall r | r in requests ensures Waits(a, other, retry, r) == Waits(b, other, retry, r) {
      OthersUnchanged(requests, sel, s.results, more, KeyFor(r, other));
    }
    FilterSame(r => Waits(a, other, retry, r), r => Waits(b, other, retry, r), requests);
    DrainAppends(s, d);
  }

  lemma DrainAppends(s: State, d: DrainCall)
    ensures AfterDrain(s, d).results == s.results + Answers(d, s.results, Chosen(s, d))
    ensures AfterDrain(s, d).requests == s.requests
  {}

  /** The verdict the drain recorded for this request. */
  function AnswerTo(s: State, d: DrainCall, r: Request): Row {
    AnswerRow(d, EarlierAttempts(s.results, KeyFor(r, d.reader)), r)
  }

  predicate LeavesOpen(row: Row, retry: set<string>) {
    row.verdict.failure.Some? && (row.verdict.failure.value in retry || row.verdict.failure.value in TRANSIENT)
  }

  lemma AnswerStaysMarked(requests: seq<Request>, row: Row)
    requires Consistent(row) && Asking(requests, row)
    ensures Marked(requests, row).ok == row.ok && Marked(requests, row).verdict.failure == row.verdict.failure
  {
    hide Find, MayReopen, Reported;
  }

  lemma ChosenIsShown(s: State, d: DrainCall, k: nat, retry: set<string>)
    requires k < |Chosen(s, d)|
    ensures var requests := Requests(s.requests);
            var shown := Read(requests, Selection(Some(d.reader.backend), None), AfterDrain(s, d).results).shown;
            Waits(shown, d.reader, retry, Chosen(s, d)[k]) <==> LeavesOpen(AnswerTo(s, d, Chosen(s, d)[k]), retry)
  {
    hide Read, Requests, Chosen, Marked, AnswerRow, EarlierAttempts, Asking, ChosenOf, PendingOf;
    var requests, sel := Requests(s.requests), Selection(Some(d.reader.backend), None);
    var chosen := Chosen(s, d);
    var more := Answers(d, s.results, chosen);
    AnswersFresh(s, d);
    AnswerAsked(s, d, k);
    assert more[k] == AnswerTo(s, d, chosen[k]);
    AnswerIsShown(requests, sel, s.results, more, k);
    AnswerStaysMarked(requests, more[k]);
    DrainAppends(s, d);
  }

  lemma UnchosenUnmoved(s: State, d: DrainCall, r: Request, retry: set<string>)
    requires r in Requests(s.requests) && r !in Chosen(s, d)
    ensures var requests, sel := Requests(s.requests), Selection(Some(d.reader.backend), None);
            Waits(Read(requests, sel, AfterDrain(s, d).results).shown, d.reader, retry, r)
            <==> Waits(Read(requests, sel, s.results).shown, d.reader, retry, r)
  {
    hide Read, Chosen, AnswerRow, EarlierAttempts, ChosenOf, PendingOf, Requests;
    var requests, sel := Requests(s.requests), Selection(Some(d.reader.backend), None);
    var chosen := Chosen(s, d);
    var more := Answers(d, s.results, chosen);
    AnswersFresh(s, d);
    ChosenCalls(s, d);
    RequestsDistinct(s.requests);
    forall i | 0 <= i < |more| ensures more[i].key != KeyFor(r, d.reader) {
      assert chosen[i] in requests;
      var x :| 0 <= x < |requests| && requests[x] == chosen[i];
      var y :| 0 <= y < |requests| && requests[y] == r;
      assert chosen[i] in chosen;
    }
    OthersUnchanged(requests, sel, s.results, more, KeyFor(r, d.reader));
    DrainAppends(s, d);
  }

  /** Whatever its limit and filters, a drain settles exactly the calls it chose: afterwards a call
      waits if it was chosen and its answer is open again, or was not chosen and was waiting. */
  lemma PendingAfterDrain(s: State, d: DrainCall, retry: set<string>)
    ensures var requests := Requests(s.requests);
            var before := Read(requests, Selection(Some(d.reader.backend), None), s.results).shown;
            PendingOf(requests, AfterDrain(s, d).results, d.reader, retry) ==
            Filter(r => if r in Chosen(s, d) then LeavesOpen(AnswerTo(s, d, r), retry)
                        else Waits(before, d.reader, retry, r), requests)
  {
    hide Read, Requests, Chosen, AnswerTo, Waits, LeavesOpen, AfterDrain;
    var requests, sel := Requests(s.requests), Selection(Some(d.reader.backend), None);
    var before, after := Read(requests, sel, s.results).shown, Read(requests, sel, AfterDrain(s, d).results).shown;
    forall r | r in requests
      ensures Waits(after, d.reader, retry, r) ==
        if r in Chosen(s, d) then LeavesOpen(AnswerTo(s, d, r), retry) else Waits(before, d.reader, retry, r)
    {
      if r in Chosen(s, d) {
        var k :| 0 <= k < |Chosen(s, d)| && Chosen(s, d)[k] == r;
        ChosenIsShown(s, d, k, retry);
      } else {
        UnchosenUnmoved(s, d, r, retry);
      }
    }
    FilterSame(r => Waits(after, d.reader, retry, r),
               r => if r in Chosen(s, d) then LeavesOpen(AnswerTo(s, d, r), retry)
                 else Waits(before, d.reader, retry, r),
               requests);
  }

  lemma {:induction false} InFilter<T>(keep: T -> bool, s: seq<T>, x: T)
    ensures x in Filter(keep, s) <==> x in s && keep(x)
  {
    if s != [] {
      InFilter(keep, s[1..], x);
      assert x in s <==> x == s[0] || x in s[1..];
    }
  }

  function Both<T>(f: T -> bool, g: T -> bool): T -> bool { x => f(x) && g(x) }

  lemma {:induction false} FilterTwice<T>(f: T -> bool, g: T -> bool, s: seq<T>)
    ensures Filter(g, Filter(f, s)) == Filter(Both(f, g), s)
  {
    if s != [] {
      FilterTwice(f, g, s[1..]);
      if f(s[0]) {
        assert ([s[0]] + Filter(f, s[1..]))[1..] == Filter(f, s[1..]);
      }
    }
  }

  predicate Unlimited(d: DrainCall) { d.limit.None? && d.calls.None? && d.retry == {} }

  lemma {:induction false} FilterAll<T>(keep: T -> bool, s: seq<T>)
    requires forall x :: keep(x)
    ensures Filter(keep, s) == s
  {
    if s != [] {
      FilterAll(keep, s[1..]);
    }
  }

  lemma UnlimitedChoosesAll(s: State, d: DrainCall)
    requires Unlimited(d)
    ensures Chosen(s, d) == PendingOf(Requests(s.requests), s.results, d.reader, {})
  {
    hide PendingOf;
    FilterAll(r => Wanted(d, r), PendingOf(Requests(s.requests), s.results, d.reader, {}));
  }

  /** After an unlimited routine drain the reader's pending list is exactly the units that were
      pending and have just been answered with a transient failure, in the same order. */
  lemma RoutineDrainLeavesTransients(s: State, d: DrainCall)
    requires Unlimited(d)
    ensures PendingOf(Requests(s.requests), AfterDrain(s, d).results, d.reader, {}) ==
            Filter(r => IsTransient(AnswerTo(s, d, r).verdict.failure),
                   PendingOf(Requests(s.requests), s.results, d.reader, {}))
  {
    hide Read, Requests, AnswerTo, Waits, AfterDrain, Chosen;
    var requests := Requests(s.requests);
    var before := Read(requests, Selection(Some(d.reader.backend), None), s.results).shown;
    PendingAfterDrain(s, d, {});
    UnlimitedChoosesAll(s, d);
    var waits := (r: Request) => Waits(before, d.reader, {}, r);
    var open := (r: Request) => IsTransient(AnswerTo(s, d, r).verdict.failure);
    FilterTwice(waits, open, requests);
    forall r | r in requests ensures r in Chosen(s, d) <==> waits(r) {
      InFilter(waits, requests, r);
    }
    FilterSame(r => if r in Chosen(s, d) then LeavesOpen(AnswerTo(s, d, r), {}) else Waits(before, d.reader, {}, r),
               Both(waits, open), requests);
  }

  // ---------- what a drain shows ----------

  /** The runner reported no failure, refusal or cut, it sent this prompt or did not say, and the bytes
      parse without a problem. */
  predicate Validated(d: DrainCall, r: Request) {
    var answer := d.ask(r).answer;
    && !Truthy(answer.failure) && !answer.refused && !answer.truncated && answer.body != ""
    && (answer.promptSent.None? || d.rules.hash(answer.promptSent.value) == r.first.promptSha)
    && d.rules.parse(answer.body).Some? && d.rules.problems(d.rules.parse(answer.body).value, r.first.schema) == []
  }

  lemma AnswerOkExactlyWhen(s: State, d: DrainCall, r: Request)
    ensures AnswerTo(s, d, r).ok <==> Validated(d, r)
    ensures Validated(d, r) ==>
      AnswerTo(s, d, r).verdict == Verdict(d.rules.parse(d.ask(r).answer.body).value, None, [])
  {
    var reply := d.ask(r);
    var sha := if reply.answer.body != "" then Some(d.rules.hash(reply.answer.body)) else None;
    OkExactlyWhenValidated(d.rules, r.first.call, r.first.promptSha, r.first.schema, reply.answer,
      Delivery(d.reader.backend, d.reader.model, EarlierAttempts(s.results, KeyFor(r, d.reader)) + 1, sha,
               if sha.Some? then Some(PathOf(sha.value)) else None, reply.facts, reply.finishedAt));
  }

  lemma OkIsShownAsIs(requests: seq<Request>, row: Row)
    requires Consistent(row) && Asking(requests, row)
    ensures Marked(requests, row).ok == row.ok && (row.ok ==> Marked(requests, row) == row)
  {
    AnswerStaysMarked(requests, row);
    hide Find, MayReopen, Reported;
  }

  /** After a drain each chosen call is shown to this reader as `ok` if and only if its answer was
      validated, whatever was shown there before, and then with exactly the parsed output. */
  lemma DrainShowsOkExactlyWhen(s: State, d: DrainCall, r: Request)
    requires r in Chosen(s, d)
    ensures var shown :=
        Read(Requests(s.requests), Selection(Some(d.reader.backend), None), AfterDrain(s, d).results).shown;
      var k := KeyFor(r, d.reader);
      && k in shown && (shown[k].ok <==> Validated(d, r))
      && (shown[k].ok ==> shown[k].verdict == Verdict(d.rules.parse(d.ask(r).answer.body).value, None, []))
  {
    hide Read, Requests, Chosen, Marked, AnswerRow, EarlierAttempts, Asking, ChosenOf, PendingOf, Validated, Consistent;
    var requests, sel := Requests(s.requests), Selection(Some(d.reader.backend), None);
    var k :| 0 <= k < |Chosen(s, d)| && Chosen(s, d)[k] == r;
    var more := Answers(d, s.results, Chosen(s, d));
    AnswersFresh(s, d);
    AnswerAsked(s, d, k);
    assert more[k] == AnswerTo(s, d, r);
    AnswerIsShown(requests, sel, s.results, more, k);
    OkIsShownAsIs(requests, more[k]);
    AnswerOkExactlyWhen(s, d, r);
    DrainAppends(s, d);
  }

  /** A chosen call whose answer was cut off, with no transient failure reported, leaves the pending list
      of a routine drain, even when not one byte came. */
  lemma CutOffLeavesTheQueue(s: State, d: DrainCall, r: Request)
    requires r in Chosen(s, d) && d.ask(r).answer.truncated && !IsTransient(d.ask(r).answer.failure)
    ensures r !in PendingOf(Requests(s.requests), AfterDrain(s, d).results, d.reader, {})
  {
    PendingAfterDrain(s, d, {});
    CutOffIsNeverRetried(d, EarlierAttempts(s.results, KeyFor(r, d.reader)), r);
    var before := Read(Requests(s.requests), Selection(Some(d.reader.backend), None), s.results).shown;
    hide Read, Requests, Chosen, AnswerRow, EarlierAttempts, PendingOf, AfterDrain;
    InFilter(x => if x in Chosen(s, d) then LeavesOpen(AnswerTo(s, d, x), {}) else Waits(before, d.reader, {}, x),
             Requests(s.requests), r);
  }
}
