/** Safety of `Idempotency-Key` over every interleaving of threads. */
module IdempotencyLaws {
  import opened Seqs
  import opened Idempotency

  type Thread = nat

  /** One request a thread serves: `begin`, then, if told to run, the handler, then `finish` with
      its answer, or with none after a refusal or an exception. */
  datatype Event =
    | Begin(thread: Thread, key: Key, fingerprint: Fingerprint, now: real)
    | Finish(thread: Thread, result: Option<Answer>)

  /** `running` maps a thread to the key its handler runs for. `lost` is history: the keys whose
      entry was expired or evicted while its handler was still running. */
  datatype Server = Server(table: Table, running: map<Thread, Key>, lost: set<Key>)

  datatype Config = Config(ttl: real, limit: nat)

  predicate Enabled(s: Server, e: Event) {
    e.Begin? <==> e.thread !in s.running
  }

  function PendingDropped(t: Table, kept: Table): set<Key> {
    set s | s in t && s.entry.result.None? && s !in kept :: s.key
  }

  function Step(s: Server, e: Event, c: Config): Server
    requires c.limit > 0 && Enabled(s, e)
  {
    match e
    case Begin(thread, key, fingerprint, now) =>
      var outcome := BeginOutcome(s.table, key, fingerprint, now, c.ttl);
      Server(BeginTable(s.table, key, fingerprint, now, c.ttl, c.limit),
             if outcome == Run then s.running[thread := key] else s.running,
             s.lost + PendingDropped(s.table, Survivors(s.table, key, now, c.ttl, c.limit)))
    case Finish(thread, result) =>
      Server(FinishTable(s.table, s.running[thread], result), s.running - {thread}, s.lost)
  }

  predicate Legal(s: Server, events: seq<Event>, c: Config)
    requires c.limit > 0
    decreases |events|, 0
  {
    events == [] ||
    (Legal(s, events[..|events| - 1], c) && Enabled(Exec(s, events[..|events| - 1], c), events[|events| - 1]))
  }

  function Exec(s: Server, events: seq<Event>, c: Config): Server
    requires c.limit > 0 && Legal(s, events, c)
    decreases |events|, 1
  {
    if events == [] then s else Step(Exec(s, events[..|events| - 1], c), events[|events| - 1], c)
  }

  const IDLE := Server([], map[], {})

  // ---------- the invariant ----------

  predicate Runs(s: Server, thread: Thread, key: Key) {
    thread in s.running && s.running[thread] == key
  }

  predicate Pending(t: Table, key: Key) {
    Find(t, key).Some? && Find(t, key).value.result.None?
  }

  predicate Done(t: Table, key: Key) {
    Find(t, key).Some? && Find(t, key).value.result.Some?
  }

  /** Unless its entry was lost, a key has one running handler exactly while its entry is pending. */
  ghost predicate OneRunner(s: Server, key: Key) {
    && (forall a, b :: Runs(s, a, key) && Runs(s, b, key) ==> a == b)
    && (Pending(s.table, key) <==> exists a :: Runs(s, a, key))
  }

  ghost predicate Inv(s: Server, c: Config) {
    && DistinctKeys(s.table) && |s.table| <= c.limit
    && forall key :: key !in s.lost ==> OneRunner(s, key)
  }

  lemma {:induction false} FindAppend(t: Table, slot: Slot, key: Key)
    ensures Find(t + [slot], key) ==
            if Find(t, key).Some? then Find(t, key) else if slot.key == key then Some(slot.entry) else None
  {
    if t != [] {
      assert (t + [slot])[1..] == t[1..] + [slot];
      FindAppend(t[1..], slot, key);
    }
  }

  lemma FindMember(t: Table, key: Key, e: Entry)
    requires DistinctKeys(t)
    ensures Find(t, key) == Some(e) <==> Slot(key, e) in t
  {
    if Find(t, key) == Some(e) {
      var i := FindWhere(t, key);
    } else if Slot(key, e) in t {
      var i :| 0 <= i < |t| && t[i] == Slot(key, e);
      FindAt(t, i);
    }
  }

  /** Expiry and eviction drop entries whole and change none. */
  lemma SurvivorsFind(t: Table, key: Key, now: real, c: Config, k: Key)
    requires DistinctKeys(t) && c.limit > 0
    ensures var kept := Survivors(t, key, now, c.ttl, c.limit);
      && DistinctKeys(kept) && |kept| <= |t|
      && (Find(kept, k).Some? ==> Find(kept, k) == Find(t, k))
      && (Find(kept, key).None? ==> |kept| < c.limit || |kept| == 0)
      && Find(AfterExpiry(t, now, c.ttl), key) == Find(kept, key)
  {
    var live := AfterExpiry(t, now, c.ttl);
    ExpiryKeeps(t, now, c.ttl);
    var kept := Survivors(t, key, now, c.ttl, c.limit);
    if Find(live, k).Some? {
      FindMember(live, k, Find(live, k).value);
      FindMember(t, k, Find(live, k).value);
    }
    if Find(live, key).None? && |live| >= c.limit {
      FindSuffix(live, |live| - c.limit + 1, k);
      FindSuffix(live, |live| - c.limit + 1, key);
    }
  }

  lemma BeginFind(t: Table, key: Key, fingerprint: Fingerprint, now: real, c: Config, k: Key)
    requires DistinctKeys(t) && |t| <= c.limit && c.limit > 0
    ensures var t' := BeginTable(t, key, fingerprint, now, c.ttl, c.limit);
      var kept := Survivors(t, key, now, c.ttl, c.limit);
      && DistinctKeys(t') && |t'| <= c.limit
      && (Find(t', k) == (if Find(kept, k).Some? then Find(kept, k)
                          else if k == key then Some(Entry(fingerprint, now, None)) else None))
      && (BeginOutcome(t, key, fingerprint, now, c.ttl) == Run <==> Find(kept, key).None?)
  {
    SurvivorsFind(t, key, now, c, k);
    SurvivorsFind(t, key, now, c, key);
    var kept := Survivors(t, key, now, c.ttl, c.limit);
    FindNone(kept, key);
    FindAppend(kept, Slot(key, Entry(fingerprint, now, None)), k);
  }

  lemma FinishFind(t: Table, key: Key, result: Option<Answer>, k: Key)
    requires DistinctKeys(t)
    ensures var t' := FinishTable(t, key, result);
      && DistinctKeys(t') && |t'| <= |t|
      && (Find(t', k) == (if k != key || Find(t, key).None? then Find(t, k)
                          else if result.None? then None
                          else Some(Find(t, key).value.(result := result))))
  {
    var found := Find(t, key);
    if found.Some? {
      var t' := FinishTable(t, key, result);
      if result.None? {
        RemoveKeeps(t, key);
        FindNone(t', key);
      } else {
        PutKeeps(t, key, found.value.(result := result));
      }
      if k != key {
        SameElsewhere(t, t', key, k);
      }
    }
  }

  lemma SameElsewhere(t: Table, t': Table, key: Key, k: Key)
    requires DistinctKeys(t) && DistinctKeys(t') && k != key
    requires forall s: Slot :: s.key != key ==> (s in t <==> s in t')
    ensures Find(t, k) == Find(t', k)
  {
    if Find(t, k).Some? {
      FindMember(t, k, Find(t, k).value);
      FindMember(t', k, Find(t, k).value);
    } else if Find(t', k).Some? {
      FindMember(t', k, Find(t', k).value);
      FindMember(t, k, Find(t', k).value);
    }
  }

  lemma BeginKeepsOneRunner(s: Server, e: Event, c: Config, k: Key)
    requires c.limit > 0 && e.Begin? && Enabled(s, e) && Inv(s, c) && k !in Step(s, e, c).lost
    ensures OneRunner(Step(s, e, c), k)
  {
    var s' := Step(s, e, c);
    var kept := Survivors(s.table, e.key, e.now, c.ttl, c.limit);
    BeginFind(s.table, e.key, e.fingerprint, e.now, c, k);
    BeginFind(s.table, e.key, e.fingerprint, e.now, c, e.key);
    SurvivorsFind(s.table, e.key, e.now, c, k);
    PendingSurvives(s, kept, k);
    assert OneRunner(s, k);
    if k == e.key && Find(kept, e.key).None? {
      assert !Pending(s.table, k);
      assert Runs(s', e.thread, k);
      forall a | Runs(s', a, k) ensures a == e.thread {
        assert !Runs(s, a, k);
      }
    } else {
      forall a ensures Runs(s', a, k) <==> Runs(s, a, k) {}
    }
  }

  lemma FinishKeepsOneRunner(s: Server, e: Event, c: Config, k: Key)
    requires c.limit > 0 && e.Finish? && Enabled(s, e) && Inv(s, c) && k !in s.lost
    ensures OneRunner(Step(s, e, c), k)
  {
    var s' := Step(s, e, c);
    var key := s.running[e.thread];
    FinishFind(s.table, key, e.result, k);
    assert Runs(s, e.thread, key) && OneRunner(s, k);
    if k == key {
      forall a ensures !Runs(s', a, k) {
        assert Runs(s', a, k) ==> Runs(s, a, k);
      }
    } else {
      forall a ensures Runs(s', a, k) <==> Runs(s, a, k) {}
    }
  }

  lemma InvStep(s: Server, e: Event, c: Config)
    requires c.limit > 0 && Enabled(s, e) && Inv(s, c)
    ensures Inv(Step(s, e, c), c)
  {
    match e
    case Begin(thread, key, fingerprint, now) =>
      BeginFind(s.table, key, fingerprint, now, c, key);
      forall k | k !in Step(s, e, c).lost ensures OneRunner(Step(s, e, c), k) {
        BeginKeepsOneRunner(s, e, c, k);
      }
    case Finish(thread, result) =>
      FinishFind(s.table, s.running[thread], result, s.running[thread]);
      forall k | k !in s.lost ensures OneRunner(Step(s, e, c), k) {
        FinishKeepsOneRunner(s, e, c, k);
      }
  }

  /** A pending entry that is gone afterwards is recorded as lost. */
  lemma PendingSurvives(s: Server, kept: Table, k: Key)
    requires DistinctKeys(s.table) && DistinctKeys(kept)
    requires Find(kept, k).Some? ==> Find(kept, k) == Find(s.table, k)
    requires k !in PendingDropped(s.table, kept)
    ensures Pending(s.table, k) ==> Find(kept, k) == Find(s.table, k)
  {
    if Pending(s.table, k) {
      var slot := Slot(k, Find(s.table, k).value);
      FindMember(s.table, k, slot.entry);
      FindMember(kept, k, slot.entry);
    }
  }

  /** In every state of every run, at most one handler runs for a key whose entry was not lost, and
      the table never exceeds its limit. */
  lemma {:induction false} AtMostOneRunner(events: seq<Event>, c: Config)
    requires c.limit > 0 && Legal(IDLE, events, c)
    ensures Inv(Exec(IDLE, events, c), c)
  {
    if events != [] {
      AtMostOneRunner(events[..|events| - 1], c);
      InvStep(Exec(IDLE, events[..|events| - 1], c), events[|events| - 1], c);
    }
  }

  // ---------- when a handler can run twice ----------

  lemma LiveExactlyWhen(t: Table, key: Key, now: real, ttl: real)
    requires DistinctKeys(t)
    ensures Find(AfterExpiry(t, now, ttl), key) ==
      if Find(t, key).Some? && !Expired(Find(t, key).value, now, ttl) then Find(t, key) else None
  {
    var live := AfterExpiry(t, now, ttl);
    ExpiryKeeps(t, now, ttl);
    if Find(t, key).Some? { FindMember(t, key, Find(t, key).value); }
    if Find(live, key).Some? {
      FindMember(live, key, Find(live, key).value);
      FindMember(t, key, Find(live, key).value);
    } else if Find(t, key).Some? {
      FindMember(live, key, Find(t, key).value);
    }
  }

  /** A begin starts a second handler for a key whose handler is still running if and only if the
      key's own entry has expired by then: a begin never evicts its own key. */
  lemma SecondRunnerExactlyWhenExpired(s: Server, thread: Thread, key: Key, fingerprint: Fingerprint, now: real,
                                       c: Config)
    requires c.limit > 0 && Inv(s, c) && key !in s.lost && Runs(s, thread, key)
    ensures Find(s.table, key).Some?
    ensures BeginOutcome(s.table, key, fingerprint, now, c.ttl) == Run <==> Find(s.table, key).value.at + c.ttl <= now
  {
    assert OneRunner(s, key);
    LiveExactlyWhen(s.table, key, now, c.ttl);
  }

  lemma {:induction false} ExpiryConcat(a: Table, b: Table, now: real, ttl: real)
    ensures AfterExpiry(a + b, now, ttl) == AfterExpiry(a, now, ttl) + AfterExpiry(b, now, ttl)
  {
    if b == [] {
      assert a + b == a;
    } else {
      var n := |b| - 1;
      assert (a + b)[..|a + b| - 1] == a + b[..n];
      ExpiryConcat(a, b[..n], now, ttl);
    }
  }

  /** How many unexpired entries are older than the one at `i`. */
  function Older(t: Table, i: nat, now: real, ttl: real): nat
    requires i <= |t|
  {
    |AfterExpiry(t[..i], now, ttl)|
  }

  /** A key is new when it has no unexpired entry. */
  predicate IsNew(t: Table, key: Key, now: real, ttl: real) {
    Find(t, key).None? || Expired(Find(t, key).value, now, ttl)
  }

  /** What makes a begin of `key` drop the entry at `i`: it has expired, or `key` is new and the entry
      is among the oldest |live| - limit + 1 unexpired ones. */
  predicate Dropped(t: Table, i: nat, key: Key, now: real, c: Config)
    requires i < |t|
  {
    Expired(t[i].entry, now, c.ttl)
    || (IsNew(t, key, now, c.ttl) && Older(t, i, now, c.ttl) < |AfterExpiry(t, now, c.ttl)| - c.limit + 1)
  }

  lemma LivePlace(t: Table, i: nat, now: real, ttl: real)
    requires i < |t| && !Expired(t[i].entry, now, ttl)
    ensures Older(t, i, now, ttl) < |AfterExpiry(t, now, ttl)|
    ensures AfterExpiry(t, now, ttl)[Older(t, i, now, ttl)] == t[i]
  {
    assert t == t[..i] + [t[i]] + t[i + 1..];
    ExpiryConcat(t[..i] + [t[i]], t[i + 1..], now, ttl);
    ExpiryConcat(t[..i], [t[i]], now, ttl);
    assert [t[i]][..0] == [];
  }

  /** Exactly when a begin drops an entry. */
  lemma DroppedExactlyWhen(t: Table, i: nat, key: Key, now: real, c: Config)
    requires DistinctKeys(t) && i < |t| && c.limit > 0
    ensures t[i] !in Survivors(t, key, now, c.ttl, c.limit) <==> Dropped(t, i, key, now, c)
  {
    var live, kept := AfterExpiry(t, now, c.ttl), Survivors(t, key, now, c.ttl, c.limit);
    ExpiryKeeps(t, now, c.ttl);
    LiveExactlyWhen(t, key, now, c.ttl);
    if !Expired(t[i].entry, now, c.ttl) {
      LivePlace(t, i, now, c.ttl);
      var r := Older(t, i, now, c.ttl);
      if kept != live {
        var n := |live| - c.limit + 1;
        assert kept == live[n..];
        if n <= r {
          assert kept[r - n] == t[i];
        } else {
          forall k | 0 <= k < |kept| ensures kept[k] != t[i] {
            assert kept[k] == live[n + k];
          }
        }
      }
    }
  }

  /** A key's handler is running and another key begins. A later begin of the first key starts a second
      handler if and only if the first begin dropped the entry or the entry has expired by then. */
  lemma SecondRunnerAfterExactlyWhen(s: Server, e: Event, c: Config, i: nat, fingerprint: Fingerprint, later: real)
    requires c.limit > 0 && Inv(s, c) && Enabled(s, e) && e.Begin?
    requires i < |s.table| && s.table[i].key != e.key && s.table[i].key !in s.lost
    requires exists a :: Runs(s, a, s.table[i].key)
    ensures BeginOutcome(Step(s, e, c).table, s.table[i].key, fingerprint, later, c.ttl) == Run <==>
      Dropped(s.table, i, e.key, e.now, c) || s.table[i].entry.at + c.ttl <= later
    ensures Dropped(s.table, i, e.key, e.now, c) <==> s.table[i].key in Step(s, e, c).lost
  {
    var key, kept := s.table[i].key, Survivors(s.table, e.key, e.now, c.ttl, c.limit);
    var after := Step(s, e, c).table;
    FindAt(s.table, i);
    assert OneRunner(s, key);
    DroppedExactlyWhen(s.table, i, e.key, e.now, c);
    BeginFind(s.table, e.key, e.fingerprint, e.now, c, key);
    SurvivorsFind(s.table, e.key, e.now, c, key);
    FindMember(kept, key, s.table[i].entry);
    LiveExactlyWhen(after, key, later, c.ttl);
    assert s.table[i] in s.table;
    if key in PendingDropped(s.table, kept) {
      var slot :| slot in s.table && slot.entry.result.None? && slot !in kept && slot.key == key;
      FindMember(s.table, key, slot.entry);
    }
  }

  // ---------- one success, replayed exactly ----------

  /** The entry of `key`, if any, is neither expired nor evicted by this step. */
  predicate Keeps(s: Server, e: Event, c: Config, key: Key)
    requires c.limit > 0
  {
    e.Begin? && Find(s.table, key).Some? ==>
      Find(Survivors(s.table, e.key, e.now, c.ttl, c.limit), key).Some?
  }

  predicate KeepsAll(s: Server, events: seq<Event>, c: Config, key: Key)
    requires c.limit > 0 && Legal(s, events, c)
  {
    events == [] ||
    (var front := events[..|events| - 1];
     KeepsAll(s, front, c, key) && Keeps(Exec(s, front, c), events[|events| - 1], c, key))
  }

  /** How many handler runs for `key` finished with an answer. */
  function Successes(s: Server, events: seq<Event>, c: Config, key: Key): nat
    requires c.limit > 0 && Legal(s, events, c)
  {
    if events == [] then 0
    else
      var front, e := events[..|events| - 1], events[|events| - 1];
      Successes(s, front, c, key)
      + (if e.Finish? && Runs(Exec(s, front, c), e.thread, key) && e.result.Some? then 1 else 0)
  }

  lemma KeepsStep(s: Server, e: Event, c: Config, key: Key)
    requires c.limit > 0 && Enabled(s, e) && Inv(s, c) && key !in s.lost && Keeps(s, e, c, key)
    ensures var s' := Step(s, e, c);
      && Inv(s', c) && key !in s'.lost
      && (Done(s.table, key) ==> Find(s'.table, key) == Find(s.table, key))
      && (e.Finish? && Runs(s, e.thread, key) ==>
            Pending(s.table, key) && (Done(s'.table, key) <==> e.result.Some?)
            && (e.result.Some? ==> Find(s'.table, key).value == Find(s.table, key).value.(result := e.result)))
      && (!(e.Finish? && Runs(s, e.thread, key)) ==> (Done(s'.table, key) <==> Done(s.table, key)))
  {
    InvStep(s, e, c);
    match e
    case Begin(thread, k, fingerprint, now) =>
      BeginFind(s.table, k, fingerprint, now, c, key);
      SurvivorsFind(s.table, k, now, c, key);
      var kept := Survivors(s.table, k, now, c.ttl, c.limit);
      if key in PendingDropped(s.table, kept) {
        var slot :| slot in s.table && slot.entry.result.None? && slot !in kept && slot.key == key;
        FindMember(s.table, key, slot.entry);
        FindMember(kept, key, slot.entry);
      }
    case Finish(thread, result) =>
      FinishFind(s.table, s.running[thread], result, key);
      assert Runs(s, thread, s.running[thread]);
      assert OneRunner(s, key);
  }

  /** While the entry is held, at most one handler run for the key succeeds, and a key is done
      exactly when one has. */
  lemma {:induction false} OneSuccessPerKey(s: Server, events: seq<Event>, c: Config, key: Key)
    requires c.limit > 0 && Legal(s, events, c) && Inv(s, c)
    requires key !in s.lost && !Done(s.table, key) && KeepsAll(s, events, c, key)
    ensures Successes(s, events, c, key) == if Done(Exec(s, events, c).table, key) then 1 else 0
    ensures Inv(Exec(s, events, c), c) && key !in Exec(s, events, c).lost
  {
    if events != [] {
      var front, e := events[..|events| - 1], events[|events| - 1];
      OneSuccessPerKey(s, front, c, key);
      KeepsStep(Exec(s, front, c), e, c, key);
    }
  }

  /** Once a handler has succeeded, every later begin with the same request replays exactly its
      answer and every begin with another request conflicts, for as long as the entry is held. */
  lemma {:induction false} ReplaysExactly(s: Server, events: seq<Event>, c: Config, key: Key)
    requires c.limit > 0 && Legal(s, events, c) && Inv(s, c)
    requires key !in s.lost && Done(s.table, key) && KeepsAll(s, events, c, key)
    ensures var entry := Find(s.table, key).value;
      && Find(Exec(s, events, c).table, key) == Some(entry)
      && Inv(Exec(s, events, c), c) && key !in Exec(s, events, c).lost
      && forall fingerprint, now ::
           Find(Survivors(Exec(s, events, c).table, key, now, c.ttl, c.limit), key).Some? ==>
           BeginOutcome(Exec(s, events, c).table, key, fingerprint, now, c.ttl) ==
             if fingerprint == entry.fingerprint then Replay(entry.result.value) else Conflict
  {
    if events != [] {
      var front, e := events[..|events| - 1], events[|events| - 1];
      ReplaysExactly(s, front, c, key);
      KeepsStep(Exec(s, front, c), e, c, key);
    }
    var t := Exec(s, events, c).table;
    forall fingerprint: Fingerprint, now | Find(Survivors(t, key, now, c.ttl, c.limit), key).Some?
      ensures BeginOutcome(t, key, fingerprint, now, c.ttl) ==
        if fingerprint == Find(s.table, key).value.fingerprint
        then Replay(Find(s.table, key).value.result.value) else Conflict
    {
      SurvivorsFind(t, key, now, c, key);
    }
  }

  /** While the handler runs, the same request is told so and another request conflicts. */
  lemma NeverTwiceAtOnce(s: Server, c: Config, key: Key, fingerprint: Fingerprint, now: real)
    requires c.limit > 0 && Inv(s, c) && key !in s.lost && exists a :: Runs(s, a, key)
    requires Find(Survivors(s.table, key, now, c.ttl, c.limit), key).Some?
    ensures BeginOutcome(s.table, key, fingerprint, now, c.ttl) ==
      if fingerprint == Find(s.table, key).value.fingerprint then InProgress else Conflict
  {
    SurvivorsFind(s.table, key, now, c, key);
    assert OneRunner(s, key);
  }

  /** A refused request leaves the key free: the next begin runs. */
  lemma RefusalFreesKey(s: Server, thread: Thread, c: Config, fingerprint: Fingerprint, now: real)
    requires c.limit > 0 && Inv(s, c) && thread in s.running && s.running[thread] !in s.lost
    ensures BeginOutcome(Step(s, Finish(thread, None), c).table, s.running[thread], fingerprint, now, c.ttl) == Run
  {
    var key := s.running[thread];
    FinishFind(s.table, key, None, key);
    SurvivorsFind(FinishTable(s.table, key, None), key, now, c, key);
  }

  lemma ExecSnoc(s: Server, events: seq<Event>, e: Event, c: Config)
    requires c.limit > 0 && Legal(s, events, c) && Enabled(Exec(s, events, c), e)
    ensures Legal(s, events + [e], c) && Exec(s, events + [e], c) == Step(Exec(s, events, c), e, c)
  {
    assert (events + [e])[..|events|] == events;
  }

  lemma OneSlot(slot: Slot, other: Key, ttl: real, now: real)
    requires ttl > 0.0 && slot.entry.at == now && other != slot.key
    ensures AfterExpiry([slot], now, ttl) == [slot] && AfterEviction([slot], 1) == []
    ensures Find([slot], slot.key) == Some(slot.entry) && Find([slot], other) == None
  {
    assert [slot][..0] == [] && [slot][1..] == [];
  }

  /** Why the entry must be held: with room for one entry, a second key evicts the first while its
      handler runs; the first key then runs again for another request, and the old handler's answer
      is kept as the answer to that other request. */
  lemma EvictedWhileRunning(ttl: real) returns (events: seq<Event>, c: Config, k: Key)
    requires ttl > 0.0
    ensures c.limit > 0 && Legal(IDLE, events, c)
    ensures k in Exec(IDLE, events, c).lost && Runs(Exec(IDLE, events, c), 2, k)
    ensures |events| == 4 && events[2] == Begin(2, k, "second request", 0.0)
    ensures BeginOutcome(Exec(IDLE, events, c).table, k, "second request", 0.0, ttl)
            == Replay(Answer("first answer", 200))
  {
    k, c := ("op", "k"), Config(ttl, 1);
    var other := ("op", "other");
    var first, second := Slot(k, Entry("first request", 0.0, None)), Slot(k, Entry("second request", 0.0, None));
    var between := Slot(other, Entry("x", 0.0, None));
    OneSlot(first, other, ttl, 0.0);
    OneSlot(between, k, ttl, 0.0);
    OneSlot(Slot(k, second.entry.(result := Some(Answer("first answer", 200)))), other, ttl, 0.0);
    ExecSnoc(IDLE, [], Begin(0, k, "first request", 0.0), c);
    events := [] + [Begin(0, k, "first request", 0.0)];
    assert Exec(IDLE, events, c).table == [first];
    assert first in [first] && first !in Survivors([first], other, 0.0, ttl, 1);
    ExecSnoc(IDLE, events, Begin(1, other, "x", 0.0), c);
    events := events + [Begin(1, other, "x", 0.0)];
    assert Exec(IDLE, events, c).table == [between] && k in Exec(IDLE, events, c).lost;
    ExecSnoc(IDLE, events, Begin(2, k, "second request", 0.0), c);
    events := events + [Begin(2, k, "second request", 0.0)];
    assert Exec(IDLE, events, c).table == [second];
    assert Find([second], k) == Some(second.entry);
    ExecSnoc(IDLE, events, Finish(0, Some(Answer("first answer", 200))), c);
    events := events + [Finish(0, Some(Answer("first answer", 200)))];
    assert Exec(IDLE, events, c).table == [Slot(k, second.entry.(result := Some(Answer("first answer", 200))))];
  }
}
