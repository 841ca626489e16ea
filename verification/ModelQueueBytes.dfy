/** What a drain leaves on disk, and which calls it asks. */
module ModelQueueBytes {
  import opened Seqs
  import opened ModelQueue
  import opened ModelQueueRequests
  import opened ModelQueueLaws
  import opened ModelQueueDrains

  /** Where the bytes with this hash are kept. */
  function FileOf(sha: string): string { "raw/" + sha + ".txt" }

  lemma FileNamesDiffer(a: string, b: string)
    requires FileOf(a) == FileOf(b)
    ensures a == b
  {
    var n := |FileOf(a)|;
    assert a == FileOf(a)[4..n - 4] && b == FileOf(b)[4..n - 4];
  }

  function Body(d: DrainCall, r: Request): string { d.ask(r).answer.body }

  /** Some chosen answer came with bytes of this hash. */
  ghost predicate Brought(d: DrainCall, chosen: seq<Request>, sha: string) {
    exists r :: r in chosen && Body(d, r) != "" && d.rules.hash(Body(d, r)) == sha
  }

  /** A path where an answer of the drain is kept, and what it holds. */
  ghost predicate KeptAt(d: DrainCall, chosen: seq<Request>, path: string, bytes: string) {
    exists r :: r in chosen && Body(d, r) == bytes && bytes != "" && path == FileOf(d.rules.hash(bytes))
  }

  /** The file does not hash to its name. */
  predicate Misnamed(d: DrainCall, path: string, bytes: string) { path != FileOf(d.rules.hash(bytes)) }

  /** From `before` to `after`: every answer is there, whole, under the hash in its name; no file is gone;
      and a file has changed only if it did not hash to its name and an answer does. */
  ghost predicate Keeps(d: DrainCall, chosen: seq<Request>, before: map<string, string>, after: map<string, string>) {
    && (forall sha :: Brought(d, chosen, sha) ==> FileOf(sha) in after && d.rules.hash(after[FileOf(sha)]) == sha)
    && (forall path :: path in before ==>
          path in after
          && (after[path] == before[path]
              || (Misnamed(d, path, before[path]) && KeptAt(d, chosen, path, after[path]))))
    && (forall path :: path in after && path !in before ==> KeptAt(d, chosen, path, after[path]))
  }

  lemma BroughtSnoc(d: DrainCall, chosen: seq<Request>, r: Request, sha: string)
    ensures Brought(d, chosen + [r], sha) <==>
      Brought(d, chosen, sha) || (Body(d, r) != "" && d.rules.hash(Body(d, r)) == sha)
  {
    if Body(d, r) != "" && d.rules.hash(Body(d, r)) == sha {
      assert r in chosen + [r];
    }
  }

  lemma KeptAtSnoc(d: DrainCall, chosen: seq<Request>, r: Request, path: string, bytes: string)
    ensures KeptAt(d, chosen, path, bytes) ==> KeptAt(d, chosen + [r], path, bytes)
    ensures Body(d, r) == bytes && bytes != "" && path == FileOf(d.rules.hash(bytes)) ==>
      KeptAt(d, chosen + [r], path, bytes)
  {
    assert r in chosen + [r];
  }

  lemma StoredOne(d: DrainCall, disk: map<string, string>, r: Request)
    ensures Stored(d, disk, r) == disk || (Body(d, r) != "" && var path := FileOf(d.rules.hash(Body(d, r)));
      Stored(d, disk, r) == disk[path := Body(d, r)] && (path in disk ==> Misnamed(d, path, disk[path])))
    ensures Body(d, r) != "" ==> var sha := d.rules.hash(Body(d, r));
      FileOf(sha) in Stored(d, disk, r) && d.rules.hash(Stored(d, disk, r)[FileOf(sha)]) == sha
  {
    var path := PathOf(d.rules.hash(Body(d, r)));
    if path in disk && path == FileOf(d.rules.hash(disk[path])) {
      FileNamesDiffer(d.rules.hash(Body(d, r)), d.rules.hash(disk[path]));
    }
  }

  lemma KeepsSnoc(d: DrainCall, chosen: seq<Request>, r: Request, before: map<string, string>,
                  after: map<string, string>)
    requires Keeps(d, chosen, before, after)
    ensures Keeps(d, chosen + [r], before, Stored(d, after, r))
  {
    hide Brought, KeptAt, Stored;
    var now, more := Stored(d, after, r), chosen + [r];
    StoredOne(d, after, r);
    forall sha | Brought(d, more, sha) ensures FileOf(sha) in now && d.rules.hash(now[FileOf(sha)]) == sha {
      BroughtSnoc(d, chosen, r, sha);
      if d.rules.hash(Body(d, r)) != sha && FileOf(sha) == FileOf(d.rules.hash(Body(d, r))) {
        FileNamesDiffer(sha, d.rules.hash(Body(d, r)));
      }
    }
    forall path | path in before
      ensures path in now && (now[path] == before[path]
        || (Misnamed(d, path, before[path]) && KeptAt(d, more, path, now[path])))
    {
      KeptAtSnoc(d, chosen, r, path, now[path]);
    }
    forall path | path in now && path !in before ensures KeptAt(d, more, path, now[path]) {
      KeptAtSnoc(d, chosen, r, path, now[path]);
    }
  }

  lemma {:induction false} AllStored(d: DrainCall, disk: map<string, string>, chosen: seq<Request>)
    ensures Keeps(d, chosen, disk, StoredAll(d, disk, chosen))
  {
    if chosen != [] {
      hide Keeps, Stored;
      var n := |chosen| - 1;
      AllStored(d, disk, chosen[..n]);
      KeepsSnoc(d, chosen[..n], chosen[n], disk, StoredAll(d, disk, chosen[..n]));
      assert chosen == chosen[..n] + [chosen[n]];
    }
  }

  /** Each chosen call gets one row, in order, and every answer with bytes has them on disk, under their
      hash and under the path its row names; the row can be read again. What was on disk before is still
      there, unchanged unless it was damaged and answered again. */
  lemma DrainKeepsEveryAnswer(s: State, d: DrainCall, i: nat)
    requires i < |Chosen(s, d)|
    ensures var now := AfterDrain(s, d); var r, body := Chosen(s, d)[i], Body(d, Chosen(s, d)[i]);
      && |now.results| == |s.results| + |Chosen(s, d)|
      && var row := now.results[|s.results| + i];
      && row.key == KeyFor(r, d.reader) && row.rejudgedFrom == None
      && (row.facts, row.finishedAt) == (d.ask(r).facts, d.ask(r).finishedAt) && row.judged == r.first.schema
      && var answer := d.ask(r).answer;
      && row.report == Report(answer.failure, answer.refused, answer.truncated, answer.model)
      && (body == "" ==> row.rawSha == None && row.rawPath == None)
      && (body != "" ==>
            && row.rawSha == Some(d.rules.hash(body)) && row.rawPath == Some(FileOf(d.rules.hash(body)))
            && row.rawPath.value in now.disk && d.rules.hash(now.disk[row.rawPath.value]) == row.rawSha.value
            && Readable(Requests(now.requests), now.disk, row))
    ensures Keeps(d, Chosen(s, d), s.disk, AfterDrain(s, d).disk)
  {
    hide Keeps, Requests, PendingOf, ChosenOf, EarlierAttempts, StoredAll, Classify;
    var chosen := Chosen(s, d);
    AllStored(d, s.disk, chosen);
    AnswersFresh(s, d);
    AnswerAsked(s, d, i);
    DrainAppends(s, d);
    var row := Answers(d, s.results, chosen)[i];
    assert row == AnswerTo(s, d, chosen[i]);
    BytesAreKept(d, chosen, s.disk, StoredAll(d, s.disk, chosen), i);
    hide AnswerRow;
  }

  lemma BytesAreKept(d: DrainCall, chosen: seq<Request>, before: map<string, string>, after: map<string, string>,
                     i: nat)
    requires Keeps(d, chosen, before, after) && i < |chosen|
    ensures Body(d, chosen[i]) != "" ==> var sha := d.rules.hash(Body(d, chosen[i]));
      FileOf(sha) in after && d.rules.hash(after[FileOf(sha)]) == sha
  {
    if Body(d, chosen[i]) != "" {
      assert Brought(d, chosen, d.rules.hash(Body(d, chosen[i])));
    }
  }

  // ---------- over runs ----------

  /** Every first judgement of an answer with bytes names a file that hashes to what it says. */
  ghost predicate OnDisk(s: State, hash: string -> string) {
    forall i :: 0 <= i < |s.results| && IsOriginal(s.results[i]) && s.results[i].rawSha.Some? ==>
      var sha := s.results[i].rawSha.value;
      s.results[i].rawPath == Some(FileOf(sha)) && FileOf(sha) in s.disk && hash(s.disk[FileOf(sha)]) == sha
  }

  lemma DrainKeepsOnDisk(s: State, d: DrainCall)
    requires OnDisk(s, d.rules.hash)
    ensures OnDisk(AfterDrain(s, d), d.rules.hash)
  {
    var now, n := AfterDrain(s, d), |s.results|;
    AllStored(d, s.disk, Chosen(s, d));
    DrainAppends(s, d);
    AnswersFresh(s, d);
    hide AnswerRow, Brought, KeptAt, Answers, EarlierAttempts, AfterDrain;
    forall i | 0 <= i < |now.results| && IsOriginal(now.results[i]) && now.results[i].rawSha.Some?
      ensures now.results[i].rawPath == Some(FileOf(now.results[i].rawSha.value))
      ensures FileOf(now.results[i].rawSha.value) in now.disk
      ensures d.rules.hash(now.disk[FileOf(now.results[i].rawSha.value)]) == now.results[i].rawSha.value
    {
      if i < n {
        assert now.results[i] == s.results[i];
        KeptFileStays(s, d, s.results[i].rawSha.value);
      } else {
        DrainKeepsEveryAnswer(s, d, i - n);
      }
    }
  }

  lemma KeptFileStays(s: State, d: DrainCall, sha: string)
    requires FileOf(sha) in s.disk && d.rules.hash(s.disk[FileOf(sha)]) == sha
    ensures var now := AfterDrain(s, d).disk; FileOf(sha) in now && d.rules.hash(now[FileOf(sha)]) == sha
  {
    hide KeptAt, Brought, PendingOf, ChosenOf, Requests, StoredAll;
    AllStored(d, s.disk, Chosen(s, d));
    assert AfterDrain(s, d).disk == StoredAll(d, s.disk, Chosen(s, d));
  }

  /** Nothing outside the queue touches the files, and every drain hashes alike. */
  ghost predicate Undisturbed(steps: seq<Step>, hash: string -> string) {
    forall i :: 0 <= i < |steps| ==> !steps[i].Disturbing? && (steps[i].Draining? ==> steps[i].d.rules.hash == hash)
  }

  lemma RejudgeKeepsOnDisk(s: State, j: RejudgeCall, hash: string -> string)
    requires Good(s) && OnDisk(s, hash)
    ensures OnDisk(AfterRejudge(s, j), hash)
  {
    hide Good, RejudgedRows;
    NewAreReadings(s, j);
    var more := RejudgedRows(j, Requests(s.requests), s.disk, s.results);
    assert forall i :: 0 <= i < |more| ==> IsReading(s.results, more[i]);
    hide Requests;
  }

  /** Over every run that nobody disturbs, the bytes of every answer stay on disk, whole, where its row
      says: later drains and re-judgements take none away. */
  lemma {:induction false} BytesAreKeptOverRuns(review: bool, steps: seq<Step>, hash: string -> string)
    requires Undisturbed(steps, hash)
    ensures OnDisk(Run(review, steps), hash)
  {
    hide OnDisk, Good, AfterDrain, AfterRejudge;
    if steps == [] {
      NothingOnDisk(hash);
    } else {
      var front := steps[..|steps| - 1];
      var s := Run(review, front);
      BytesAreKeptOverRuns(review, front, hash);
      RunIsGood(review, front);
      match steps[|steps| - 1]
      case Writing(units) => WritingKeepsOnDisk(review, s, units, hash);
      case Draining(d) => DrainKeepsOnDisk(s, d);
      case Rejudging(j) => RejudgeKeepsOnDisk(s, j, hash);
    }
  }

  lemma NothingOnDisk(hash: string -> string)
    ensures OnDisk(State([], [], map[]), hash)
  {}

  lemma WritingKeepsOnDisk(review: bool, s: State, units: seq<Unit>, hash: string -> string)
    requires OnDisk(s, hash)
    ensures OnDisk(After(review, s, Writing(units)), hash)
  {}

  // ---------- which calls a drain asks ----------

  /** The call waits for this reader, and the drain is meant for it. */
  predicate Askable(s: State, d: DrainCall, r: Request) {
    var shown := Read(Requests(s.requests), Selection(Some(d.reader.backend), None), s.results).shown;
    var key := Key(r.first.call, d.reader.backend, d.reader.model);
    && (d.calls.None? || r.first.call in d.calls.value)
    && (key !in shown
        || (!shown[key].ok && shown[key].verdict.failure.Some?
            && shown[key].verdict.failure.value
               in d.retry + {"TIMEOUT", "RATE_LIMITED", "BACKEND_ERROR", "EMPTY"}))
  }

  function Place(s: State, r: Request): nat { At(Requests(s.requests), r.first.call) }

  ghost predicate InPlace(rs: seq<Request>, kept: seq<Request>) {
    forall i, j :: 0 <= i < j < |kept| ==> At(rs, kept[i].first.call) < At(rs, kept[j].first.call)
  }

  lemma {:induction false} FilterPlaces(keep: Request -> bool, rs: seq<Request>)
    requires CallsDistinct(rs)
    ensures InPlace(rs, Filter(keep, rs))
  {
    if rs != [] {
      var rest := rs[1..];
      assert forall i :: 0 <= i < |rest| ==> rest[i] == rs[i + 1];
      FilterPlaces(keep, rest);
      var later := Filter(keep, rest);
      forall i | 0 <= i < |later| ensures At(rs, later[i].first.call) == 1 + At(rest, later[i].first.call) {
        InFilter(keep, rest, later[i]);
        var x :| 0 <= x < |rest| && rest[x] == later[i];
      }
      FirstPlace(rs);
      var kept := if keep(rs[0]) then [rs[0]] + later else later;
      hide At;
      assert InPlace(rs, kept);
    }
  }

  lemma FirstPlace(rs: seq<Request>)
    requires rs != []
    ensures At(rs, rs[0].first.call) == 0
  {}

  lemma ChosenIsPrefix(s: State, d: DrainCall) returns (all: seq<Request>)
    ensures Chosen(s, d) <= all && (Chosen(s, d) == all || d.limit == Some(|Chosen(s, d)|))
    ensures d.limit.Some? ==> |Chosen(s, d)| <= d.limit.value
    ensures forall r :: r in all <==> r in Requests(s.requests) && Askable(s, d, r)
    ensures forall i, j :: 0 <= i < j < |all| ==> Place(s, all[i]) < Place(s, all[j])
  {
    hide Read, Requests;
    var requests := Requests(s.requests);
    var shown := Read(requests, Selection(Some(d.reader.backend), None), s.results).shown;
    var waits, wanted := (r: Request) => Waits(shown, d.reader, d.retry, r), (r: Request) => Wanted(d, r);
    var pending := PendingOf(requests, s.results, d.reader, d.retry);
    FilterSame(r => Waits(shown, d.reader, d.retry, r), waits, requests);
    FilterSame(r => Wanted(d, r), wanted, pending);
    FilterTwice(waits, wanted, requests);
    all := Filter(Both(waits, wanted), requests);
    RequestsDistinct(s.requests);
    FilterPlaces(Both(waits, wanted), requests);
    forall r ensures r in all <==> r in requests && Askable(s, d, r) {
      InFilter(Both(waits, wanted), requests, r);
    }
  }

  /** A drain asks, in request order, exactly the waiting calls it is meant for, up to its limit: one it
      passes over comes after all it asks, and then the limit is what it asked. */
  lemma DrainAsksExactly(s: State, d: DrainCall)
    ensures var chosen, requests := Chosen(s, d), Requests(s.requests);
      && (forall r :: r in chosen ==> r in requests && Askable(s, d, r))
      && (d.limit.Some? ==> |chosen| <= d.limit.value)
      && (forall i, j :: 0 <= i < j < |chosen| ==> Place(s, chosen[i]) < Place(s, chosen[j]))
      && (forall r :: r in requests && Askable(s, d, r) && r !in chosen ==>
            d.limit == Some(|chosen|) && forall c :: c in chosen ==> Place(s, c) < Place(s, r))
  {
    hide Askable, Place, Requests, PendingOf, ChosenOf;
    var all := ChosenIsPrefix(s, d);
    var chosen := Chosen(s, d);
    forall r | r in Requests(s.requests) && Askable(s, d, r) && r !in chosen
      ensures d.limit == Some(|chosen|) && forall c :: c in chosen ==> Place(s, c) < Place(s, r)
    {
      assert r in all;
      var m :| 0 <= m < |all| && all[m] == r;
      assert forall k :: 0 <= k < |chosen| ==> all[k] == chosen[k] && chosen[k] in chosen;
      forall c | c in chosen ensures Place(s, c) < Place(s, r) {
        var k :| 0 <= k < |chosen| && chosen[k] == c;
        assert all[k] == c;
      }
    }
  }
}
