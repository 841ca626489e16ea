/** Rounds of re-judgement over the whole queue: what one round shows, and exactly when the next one is
    silent, whether or not readers share the identity of an answer. */
module ModelQueueRounds {
  import opened Seqs
  import opened ModelQueue
  import opened ModelQueueLaws
  import opened ModelQueueDrains
  import opened ModelQueueRejudges

  function SelOf(j: RejudgeCall): Selection { Selection(j.backend, None) }
  function SeenIn(s: State, j: RejudgeCall): Seen { Read(Requests(s.requests), SelOf(j), s.results) }
  function More(s: State, j: RejudgeCall): seq<Row> { RejudgedRows(j, Requests(s.requests), s.disk, s.results) }

  // ---------- who owns an identity ----------

  lemma {:induction false} ShownIsSelected(requests: seq<Request>, sel: Selection, rows: seq<Row>)
    ensures forall k :: k in Read(requests, sel, rows).shown ==> Selected(sel, Read(requests, sel, rows).shown[k])
  {
    if rows != [] {
      var n := |rows| - 1;
      ShownIsSelected(requests, sel, rows[..n]);
      hide Marked, AsFirstJudged, Selected, MayReopen;
      OneSelected(requests, sel, Read(requests, sel, rows[..n]), rows[n]);
    }
  }

  lemma OneSelected(requests: seq<Request>, sel: Selection, seen: Seen, row: Row)
    requires forall k :: k in seen.shown ==> Selected(sel, seen.shown[k])
    ensures forall k :: k in See(requests, sel, seen, row).shown ==>
        Selected(sel, See(requests, sel, seen, row).shown[k])
  {
    hide Marked, AsFirstJudged, Selected;
    MarkedKeeps(requests, row);
    SamePhysical(sel, Marked(requests, row), row);
    if PhysicalOf(row) in seen.origins {
      var origin := seen.origins[PhysicalOf(row)];
      FirstJudgedKeeps(row.(key := origin.key), origin);
      MarkedKeeps(requests, AsFirstJudged(row.(key := origin.key), origin));
      SamePhysical(sel, Marked(requests, AsFirstJudged(row.(key := origin.key), origin)), row);
    }
  }

  ghost predicate OwnersShown(seen: Seen) { forall p :: p in seen.origins ==> seen.origins[p].key in seen.shown }

  lemma {:induction false} OwnersAreShown(requests: seq<Request>, sel: Selection, rows: seq<Row>)
    ensures OwnersShown(Read(requests, sel, rows))
  {
    if rows != [] {
      OwnersAreShown(requests, sel, rows[..|rows| - 1]);
      OwnersStayShown(requests, sel, Read(requests, sel, rows[..|rows| - 1]), rows[|rows| - 1]);
    }
  }

  lemma OwnersStayShown(requests: seq<Request>, sel: Selection, seen: Seen, row: Row)
    requires OwnersShown(seen)
    ensures OwnersShown(See(requests, sel, seen, row))
  {
    hide Marked, AsFirstJudged, PhysicalOf, Selected;
  }

  /** The last original with the identity of what `k` shows. Every re-reading of that identity is
      shown under its key. */
  function Owner(s: State, j: RejudgeCall, k: Key): Row
    requires k in SeenIn(s, j).shown
  {
    var seen := SeenIn(s, j);
    var physical := PhysicalOf(seen.shown[k]);
    if physical in seen.origins then seen.origins[physical] else seen.shown[k]
  }

  /** The first judgement behind what `k` shows. */
  function First(s: State, j: RejudgeCall, k: Key): Row
    requires k in SeenIn(s, j).shown
  {
    OriginOf(OriginalsOf(s.results), SeenIn(s, j).shown[k])
  }

  lemma OriginalFound(rows: seq<Row>, i: nat)
    requires Numbered(rows) && i < |rows| && IsOriginal(rows[i])
    ensures OriginalId(rows[i]) in OriginalsOf(rows) && OriginalsOf(rows)[OriginalId(rows[i])] == rows[i]
  {
    hide EarlierAttempts;
    OriginalsAre(rows);
    var found := OriginalsOf(rows)[OriginalId(rows[i])];
    var k :| 0 <= k < |rows| && rows[k] == found;
    AttemptIsUnique(rows, k, i);
  }

  /** What every shown row rests on: its first judgement, and the owner of its identity. */
  lemma KeyFacts(s: State, j: RejudgeCall, k: Key)
    requires Good(s) && k in SeenIn(s, j).shown
    ensures var held, first, owner := SeenIn(s, j).shown[k], First(s, j, k), Owner(s, j, k);
            var requests := Requests(s.requests);
            && Behind(first, k, held) && Alike(requests, held, first) && Alike(requests, held, owner)
            && Selected(SelOf(j), held)
            && PhysicalOf(held) in SeenIn(s, j).origins && SeenIn(s, j).origins[PhysicalOf(held)] == owner
            && owner.key in SeenIn(s, j).shown
            && OriginalId(owner) in OriginalsOf(s.results) && OriginalsOf(s.results)[OriginalId(owner)] == owner
            && (owner.key == k ==> owner == first)
  {
    hide Read, Consistent, Asking, EarlierAttempts, Followed, PhysicalOf, Selected, Requests;
    var requests, sel, rows := Requests(s.requests), SelOf(j), s.results;
    var held := SeenIn(s, j).shown[k];
    ShownIsSourced(requests, sel, rows);
    ShownIsSelected(requests, sel, rows);
    assert Sourced(rows, k, held);
    var o :| 0 <= o < |rows| && Behind(rows[o], k, held);
    TheOrigin(rows, o, k, held);
    OwnerFacts(s, j, k, o);
  }

  lemma OwnerFacts(s: State, j: RejudgeCall, k: Key, o: nat)
    requires Good(s) && k in SeenIn(s, j).shown && o < |s.results| && Selected(SelOf(j), SeenIn(s, j).shown[k])
    requires Behind(s.results[o], k, SeenIn(s, j).shown[k])
    ensures var held, owner := SeenIn(s, j).shown[k], Owner(s, j, k);
            && Alike(Requests(s.requests), held, owner)
            && PhysicalOf(held) in SeenIn(s, j).origins && SeenIn(s, j).origins[PhysicalOf(held)] == owner
            && owner.key in SeenIn(s, j).shown
            && OriginalId(owner) in OriginalsOf(s.results) && OriginalsOf(s.results)[OriginalId(owner)] == owner
            && (owner.key == k ==> owner == s.results[o])
  {
    hide Read, Consistent, Asking, EarlierAttempts, Followed, PhysicalOf, Selected, Requests;
    var requests, sel, rows := Requests(s.requests), SelOf(j), s.results;
    var held := SeenIn(s, j).shown[k];
    OriginsHold(requests, sel, rows);
    OwnersAreShown(requests, sel, rows);
    SamePhysical(sel, rows[o], held);
    var owner := Owner(s, j, k);
    var i :| 0 <= i < |rows| && rows[i] == owner;
    OriginalFound(rows, i);
    if owner.key == k {
      SameAttempt(owner, held, rows[o]);
      AttemptIsUnique(rows, i, o);
    }
  }

  lemma SameAttempt(a: Row, held: Row, b: Row)
    requires PhysicalOf(a) == PhysicalOf(held) && PhysicalOf(b) == PhysicalOf(held)
    ensures a.attempt == b.attempt
  {}

  // ---------- what one round shows ----------

  /** The reading of what `k` shows, if this round appends one. */
  function Reading(s: State, j: RejudgeCall, k: Key): Option<Row>
    requires k in SeenIn(s, j).shown
  {
    RejudgedRow(j, Requests(s.requests), s.disk, OriginalsOf(s.results), SeenIn(s, j).shown[k])
  }

  /** The round appends a reading for `k`, shown under `to`. */
  predicate Claims(s: State, j: RejudgeCall, k: Key, to: Key) {
    k in SeenIn(s, j).shown && Reading(s, j, k).Some? && Owner(s, j, k).key == to
  }

  /** The last key, in the order of the round, whose reading is shown under `to`. */
  function LastClaimant(s: State, j: RejudgeCall, order: seq<Key>, to: Key): Option<Key> {
    if order == [] then None
    else if Claims(s, j, order[|order| - 1], to) then Some(order[|order| - 1])
    else LastClaimant(s, j, order[..|order| - 1], to)
  }

  lemma {:induction false} ClaimantClaims(s: State, j: RejudgeCall, order: seq<Key>, to: Key)
    ensures var c := LastClaimant(s, j, order, to);
            if c.Some? then c.value in order && Claims(s, j, c.value, to)
            else forall k :: k in order ==> !Claims(s, j, k, to)
  {
    hide Claims;
    if order != [] {
      ClaimantClaims(s, j, order[..|order| - 1], to);
      assert order == order[..|order| - 1] + [order[|order| - 1]];
    }
  }

  /** What is shown under `k` once the readings of `order` are appended. */
  function Display(s: State, j: RejudgeCall, order: seq<Key>, k: Key): Row
    requires k in SeenIn(s, j).shown
  {
    ClaimantClaims(s, j, order, k);
    var c := LastClaimant(s, j, order, k);
    if c.None? then SeenIn(s, j).shown[k]
    else Redisplay(Requests(s.requests), Reading(s, j, c.value).value.(key := k), Owner(s, j, c.value))
  }

  ghost predicate ShownAfter(s: State, j: RejudgeCall, order: seq<Key>, seen: Seen) {
    var before := SeenIn(s, j);
    && seen.order == before.order && seen.origins == before.origins && seen.shown.Keys == before.shown.Keys
    && forall k :: k in before.shown ==> seen.shown[k] == Display(s, j, order, k)
  }

  lemma ReadingKeeps(s: State, j: RejudgeCall, k: Key)
    requires Good(s) && k in SeenIn(s, j).shown && Reading(s, j, k).Some?
    ensures var row := Reading(s, j, k).value;
            !IsOriginal(row) && Selected(SelOf(j), row) && PhysicalOf(row) == PhysicalOf(SeenIn(s, j).shown[k])
            && row.key == k
  {
    KeyFacts(s, j, k);
    var held, rows := SeenIn(s, j).shown[k], s.results;
    ShownIsSourced(Requests(s.requests), SelOf(j), rows);
    hide Read, RejudgedRow, Requests, Consistent, Asking, Numbered, Followed;
    assert Sourced(rows, k, held);
    RejudgedIsReading(j, Requests(s.requests), s.disk, rows, held);
    SamePhysical(SelOf(j), Reading(s, j, k).value, held);
  }

  /** Appending the reading of one key shows it under its owner and changes nothing else. */
  lemma OneMoreShown(s: State, j: RejudgeCall, k: Key, seen: Seen)
    requires Good(s) && k in SeenIn(s, j).shown && Reading(s, j, k).Some?
    requires seen.origins == SeenIn(s, j).origins
    ensures var row, owner := Reading(s, j, k).value, Owner(s, j, k);
            See(Requests(s.requests), SelOf(j), seen, row) ==
              Show(seen, owner.key, Redisplay(Requests(s.requests), row.(key := owner.key), owner))
  {
    KeyFacts(s, j, k);
    ReadingKeeps(s, j, k);
    hide Read, Reading, Owner, Requests, Good, Marked, AsFirstJudged, Selected, Alike, Behind, PhysicalOf;
  }

  lemma NothingAppended(s: State, j: RejudgeCall)
    ensures ShownAfter(s, j, [], SeenIn(s, j))
  {
    hide Read, Requests, Claims;
  }

  lemma KeyDone(s: State, j: RejudgeCall, order: seq<Key>, key: Key, seen: Seen)
    requires Good(s) && ShownAfter(s, j, order, seen) && key in SeenIn(s, j).shown
    ensures if Reading(s, j, key).None? then ShownAfter(s, j, order + [key], seen)
            else
              var owner := Owner(s, j, key);
              var shown := Redisplay(Requests(s.requests), Reading(s, j, key).value.(key := owner.key), owner);
              ShownAfter(s, j, order + [key], Show(seen, owner.key, shown))
  {
    KeyFacts(s, j, key);
    assert forall k :: Claims(s, j, key, k) <==> Reading(s, j, key).Some? && k == Owner(s, j, key).key;
    hide *;
    forall k | k in SeenIn(s, j).shown
      ensures Display(s, j, order + [key], k) ==
        if Claims(s, j, key, k)
        then Redisplay(Requests(s.requests), Reading(s, j, key).value.(key := k), Owner(s, j, key))
        else Display(s, j, order, k)
    {
      DisplaySnoc(s, j, order, key, k);
    }
    ShownStep(s, j, order, key, seen);
  }

  lemma ShownStep(s: State, j: RejudgeCall, order: seq<Key>, key: Key, seen: Seen)
    requires ShownAfter(s, j, order, seen) && key in SeenIn(s, j).shown && Owner(s, j, key).key in SeenIn(s, j).shown
    requires forall k :: Claims(s, j, key, k) <==> Reading(s, j, key).Some? && k == Owner(s, j, key).key
    requires forall k :: k in SeenIn(s, j).shown ==> (Display(s, j, order + [key], k) ==
      if Claims(s, j, key, k)
      then Redisplay(Requests(s.requests), Reading(s, j, key).value.(key := k), Owner(s, j, key))
      else Display(s, j, order, k))
    ensures if Reading(s, j, key).None? then ShownAfter(s, j, order + [key], seen)
            else
              var owner := Owner(s, j, key);
              var shown := Redisplay(Requests(s.requests), Reading(s, j, key).value.(key := owner.key), owner);
              ShownAfter(s, j, order + [key], Show(seen, owner.key, shown))
  {
    hide SeenIn, Display, Reading, Owner, Redisplay, Requests;
  }

  lemma DisplaySnoc(s: State, j: RejudgeCall, order: seq<Key>, key: Key, k: Key)
    requires k in SeenIn(s, j).shown
    ensures Display(s, j, order + [key], k) ==
      if Claims(s, j, key, k)
      then Redisplay(Requests(s.requests), Reading(s, j, key).value.(key := k), Owner(s, j, key))
      else Display(s, j, order, k)
  {
    hide Read, Requests, Reading, Owner, Redisplay;
    assert (order + [key])[..|order|] == order;
  }

  lemma {:induction false} FoldShown(s: State, j: RejudgeCall, n: nat)
    requires Good(s) && n <= |SeenIn(s, j).order|
    requires forall k :: k in SeenIn(s, j).order ==> k in SeenIn(s, j).shown
    ensures var before, requests := SeenIn(s, j), Requests(s.requests);
            var more := Rereadings(j, requests, s.disk, OriginalsOf(s.results), before.shown, before.order[..n]);
            ShownAfter(s, j, before.order[..n], Read(requests, SelOf(j), s.results + more))
  {
    hide Read, RejudgedRow, Requests, Good, See, ShownAfter, Owner, Redisplay, Show;
    var before, requests, originals := SeenIn(s, j), Requests(s.requests), OriginalsOf(s.results);
    if n == 0 {
      assert s.results + [] == s.results && before.order[..0] == [];
      NothingAppended(s, j);
    } else {
      FoldShown(s, j, n - 1);
      var order, key := before.order[..n - 1], before.order[n - 1];
      assert before.order[..n][..n - 1] == order && before.order[..n] == order + [key];
      var more := Rereadings(j, requests, s.disk, originals, before.shown, order);
      var row := Reading(s, j, key);
      var seen := Read(requests, SelOf(j), s.results + more);
      KeyDone(s, j, order, key, seen);
      if row.Some? {
        assert s.results + (more + [row.value]) == (s.results + more) + [row.value];
        SameOrigins(s, j, order, seen);
        OneMoreShown(s, j, key, seen);
        ReadSnoc(requests, SelOf(j), s.results + more, row.value);
      }
    }
  }

  lemma SameOrigins(s: State, j: RejudgeCall, order: seq<Key>, seen: Seen)
    requires ShownAfter(s, j, order, seen)
    ensures seen.origins == SeenIn(s, j).origins
  {
    hide Read, Display;
  }

  lemma RejudgeShows(s: State, j: RejudgeCall)
    requires Good(s)
    ensures ShownAfter(s, j, SeenIn(s, j).order, SeenIn(AfterRejudge(s, j), j))
  {
    hide Read, RejudgedRow, Requests, Good, ShownAfter;
    var order := SeenIn(s, j).order;
    OrderIsShown(Requests(s.requests), SelOf(j), s.results);
    FoldShown(s, j, |order|);
    assert order[..|order|] == order;
  }

  // ---------- when the next round is silent ----------

  /** Under the rules of `j`, what is shown under `k` after one round gives no further reading: either
      nothing was shown there and nothing is to be read, or what was shown there last is what the
      key's own first judgement makes of the same bytes. */
  predicate Quiet(s: State, j: RejudgeCall, k: Key)
    requires k in SeenIn(s, j).shown
  {
    var order := SeenIn(s, j).order;
    ClaimantClaims(s, j, order, k);
    var c := LastClaimant(s, j, order, k);
    if c.None? then Reading(s, j, k).None?
    else
      var held := SeenIn(s, j).shown[c.value];
      ReadableHeld(s, j, c.value);
      Agree(j, held, First(s, j, c.value), Owner(s, j, c.value), s.disk[held.rawPath.value])
  }

  lemma ReadableHeld(s: State, j: RejudgeCall, k: Key)
    requires k in SeenIn(s, j).shown && Reading(s, j, k).Some?
    ensures Readable(Requests(s.requests), s.disk, SeenIn(s, j).shown[k])
  {
    hide Read, Requests, Reread;
  }

  lemma ReadingIs(s: State, j: RejudgeCall, k: Key)
    requires k in SeenIn(s, j).shown && Reading(s, j, k).Some?
    ensures var held, requests := SeenIn(s, j).shown[k], Requests(s.requests);
            Readable(requests, s.disk, held)
            && Reading(s, j, k).value ==
                 Reread(j, Find(requests, held.call).value, held, First(s, j, k), s.disk[held.rawPath.value])
  {
    hide Read, Requests, Reread, SameReading;
  }

  lemma SilentAgain(j: RejudgeCall, at: string, requests: seq<Request>, disk: map<string, string>,
                    originals: map<Original, Row>, held: Row)
    ensures RejudgedRow(j.(at := at), requests, disk, originals, held).None?
       <==> RejudgedRow(j, requests, disk, originals, held).None?
  {
    if Readable(requests, disk, held) {
      var request, body := Find(requests, held.call).value, disk[held.rawPath.value];
      SameButTime(j, at, request, held, OriginOf(originals, held), body);
    }
    hide Reread, Find;
  }

  lemma SameButTime(j: RejudgeCall, at: string, request: Request, held: Row, origin: Row, body: string)
    ensures Reread(j.(at := at), request, held, origin, body) ==
        Reread(j, request, held, origin, body).(finishedAt := at)
  {
    hide Classify;
  }

  /** The next reading of what the last claimant left under `k`. */
  lemma ClaimedIsSilentExactlyWhen(s: State, j: RejudgeCall, at: string, c: Key, k: Key)
    requires Good(s) && j.schema.None? && Claims(s, j, c, k)
    ensures var requests, originals := Requests(s.requests), OriginalsOf(s.results);
            var held := SeenIn(s, j).shown[c];
            var shown := Redisplay(requests, Reading(s, j, c).value.(key := k), Owner(s, j, c));
            Readable(requests, s.disk, held)
            && (RejudgedRow(j.(at := at), requests, s.disk, originals, shown).None? <==>
                Agree(j, held, First(s, j, c), Owner(s, j, c), s.disk[held.rawPath.value]))
  {
    KeyFacts(s, j, c);
    ReadingIs(s, j, c);
    var requests, originals, held := Requests(s.requests), OriginalsOf(s.results), SeenIn(s, j).shown[c];
    var first, owner := First(s, j, c), Owner(s, j, c);
    AlikeModel(requests, held, first);
    AlikeModel(requests, held, owner);
    hide Read, Requests, First, Owner, Reading, Good, Alike, Behind, Find, Agree;
    NextReading(j, at, requests, s.disk, originals, held, first, owner);
  }

  lemma NextReading(j: RejudgeCall, at: string, requests: seq<Request>, disk: map<string, string>,
                    originals: map<Original, Row>, held: Row, first: Row, owner: Row)
    requires j.schema.None? && Readable(requests, disk, held)
    requires Alike(requests, held, first) && Alike(requests, held, owner)
    requires OriginalId(owner) in originals && originals[OriginalId(owner)] == owner
    ensures var body := disk[held.rawPath.value];
            var row := Reread(j, Find(requests, held.call).value, held, first, body).(key := owner.key);
            var shown := Redisplay(requests, row, owner);
            RejudgedRow(j.(at := at), requests, disk, originals, shown).None? <==> Agree(j, held, first, owner, body)
  {
    var request, body := Find(requests, held.call).value, disk[held.rawPath.value];
    AlikeModel(requests, held, first);
    AlikeModel(requests, held, owner);
    var row := Reread(j, request, held, first, body).(key := owner.key);
    var shown := Redisplay(requests, row, owner);
    RereadParts(j, request, held, first, body);
    DisplayKeeps(requests, row, owner);
    RereadAgain(j, at, request, held, first, owner, body, owner.key, shown);
    ShownAsOwnExactlyWhen(j, requests, held, first, owner, body);
    RereadParts(j, request, held, owner, body);
    hide Reread, Find, Redisplay, Agree, JudgedBytes, Carry, Consistent, Asking;
  }

  lemma {:induction false} ReadingsAddNoOriginal(rows: seq<Row>, more: seq<Row>)
    requires AllReadings(rows, more)
    ensures OriginalsOf(rows + more) == OriginalsOf(rows)
    decreases |more|
  {
    if more == [] {
      assert rows + more == rows;
    } else {
      var n := |more| - 1;
      assert IsReading(rows, more[n]);
      forall i | 0 <= i < n ensures IsReading(rows, more[..n][i]) {
        assert IsReading(rows, more[i]);
      }
      ReadingsAddNoOriginal(rows, more[..n]);
      assert (rows + more)[..|rows + more| - 1] == rows + more[..n];
    }
  }

  lemma {:induction false} SilentExactlyWhen(j: RejudgeCall, requests: seq<Request>, disk: map<string, string>,
                                             originals: map<Original, Row>, shown: map<Key, Row>, order: seq<Key>)
    requires forall k :: k in order ==> k in shown
    ensures Rereadings(j, requests, disk, originals, shown, order) == [] <==>
            forall k :: k in order ==> RejudgedRow(j, requests, disk, originals, shown[k]).None?
  {
    hide RejudgedRow;
    if order != [] {
      var n := |order| - 1;
      SilentExactlyWhen(j, requests, disk, originals, shown, order[..n]);
      assert order == order[..n] + [order[n]];
    }
  }

  lemma QuietExactlyWhen(s: State, j: RejudgeCall, at: string, k: Key)
    requires Good(s) && j.schema.None? && k in SeenIn(s, j).shown
    ensures var shown := Display(s, j, SeenIn(s, j).order, k);
            RejudgedRow(j.(at := at), Requests(s.requests), s.disk, OriginalsOf(s.results), shown).None? <==>
              Quiet(s, j, k)
  {
    var order := SeenIn(s, j).order;
    ClaimantClaims(s, j, order, k);
    var c := LastClaimant(s, j, order, k);
    hide Read, Requests, RejudgedRow, Good, Agree, Owner, First, LastClaimant;
    if c.None? {
      SilentAgain(j, at, Requests(s.requests), s.disk, OriginalsOf(s.results), SeenIn(s, j).shown[k]);
    } else {
      ClaimedIsSilentExactlyWhen(s, j, at, c.value, k);
    }
  }

  lemma SecondRound(s: State, j: RejudgeCall, at: string)
    requires Good(s) && j.schema.None?
    ensures More(AfterRejudge(s, j), j.(at := at)) == [] <==>
            forall k :: k in SeenIn(s, j).shown ==> Quiet(s, j, k)
  {
    hide Read, RejudgedRow, Requests, Good, Quiet, Display;
    var requests, originals, again := Requests(s.requests), OriginalsOf(s.results), AfterRejudge(s, j);
    NewAreReadings(s, j);
    ReadingsAddNoOriginal(s.results, More(s, j));
    RejudgeShows(s, j);
    OrderIsShown(requests, SelOf(j), s.results);
    OrderIsShown(requests, SelOf(j), again.results);
    var before, after := SeenIn(s, j), SeenIn(again, j);
    SilentExactlyWhen(j.(at := at), requests, s.disk, originals, after.shown, after.order);
    forall k | k in before.order
      ensures RejudgedRow(j.(at := at), requests, s.disk, originals, after.shown[k]).None? <==> Quiet(s, j, k)
    {
      QuietExactlyWhen(s, j, at, k);
    }
  }

  /** Over every run, whether or not readers collide: with no schema override, re-judging again over the
      same bytes and rules appends nothing if and only if every shown key is quiet. */
  lemma SecondRejudgeIsSilentExactlyWhen(review: bool, steps: seq<Step>, j: RejudgeCall, at: string)
    requires j.schema.None?
    ensures var s := Run(review, steps);
            var once := AfterRejudge(s, j);
            AfterRejudge(once, j.(at := at)) == once <==> forall k :: k in SeenIn(s, j).shown ==> Quiet(s, j, k)
  {
    hide Read, Requests, Good, Quiet, RejudgedRows;
    RunIsGood(review, steps);
    var s := Run(review, steps);
    SecondRound(s, j, at);
    var once, more := AfterRejudge(s, j), More(AfterRejudge(s, j), j.(at := at));
    assert |once.results + more| == |once.results| + |more|;
    assert more == [] ==> once.results + more == once.results;
  }

  // ---------- what a round appends ----------

  ghost predicate ReadsEach(s: State, j: RejudgeCall, keys: seq<Key>, rows: seq<Row>) {
    && |keys| == |rows| && Distinct(keys)
    && forall i :: 0 <= i < |keys| ==> keys[i] in SeenIn(s, j).shown && Reading(s, j, keys[i]) == Some(rows[i])
  }

  lemma {:induction false} OrderReadsEach(s: State, j: RejudgeCall, order: seq<Key>) returns (keys: seq<Key>)
    requires Distinct(order) && forall k :: k in order ==> k in SeenIn(s, j).shown
    ensures ReadsEach(s, j, keys, Rereadings(j, Requests(s.requests), s.disk, OriginalsOf(s.results),
                                             SeenIn(s, j).shown, order))
    ensures forall k :: k in keys <==> k in order && Reading(s, j, k).Some?
  {
    hide Requests, SeenIn, OriginalsOf, RejudgedRow;
    keys := [];
    if order != [] {
      var front, last := order[..|order| - 1], order[|order| - 1];
      assert order == front + [last];
      keys := OrderReadsEach(s, j, front);
      if Reading(s, j, last).Some? {
        assert last !in front;
        assert last !in keys;
        keys := keys + [last];
      }
    }
  }

  /** A round appends exactly one reading for every shown key that has one to make, and nothing else. A key
      has one unless its request or its file is gone, or what it shows is already that reading. */
  lemma RoundReadsEachOnce(s: State, j: RejudgeCall) returns (keys: seq<Key>)
    ensures var after := AfterRejudge(s, j).results;
      s.results <= after && ReadsEach(s, j, keys, after[|s.results|..])
    ensures forall k :: k in keys <==> k in SeenIn(s, j).shown && Reading(s, j, k).Some?
    ensures forall k :: k in SeenIn(s, j).shown ==>
      var held := SeenIn(s, j).shown[k];
      (Reading(s, j, k).None? ==>
         Find(Requests(s.requests), held.call).None? || held.rawPath.None? || held.rawPath.value !in s.disk
         || held.rejudgedFrom.Some?)
  {
    OrderIsShown(Requests(s.requests), SelOf(j), s.results);
    keys := OrderReadsEach(s, j, SeenIn(s, j).order);
    hide Requests, Read, Rereadings;
    var more := RejudgedRows(j, Requests(s.requests), s.disk, s.results);
    assert (s.results + more)[|s.results|..] == more;
  }
}
